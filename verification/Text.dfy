/**
 Strings as the sources see them, with the operations that several of them have in common:
 `slice(0, max)`, `trim()` and searching. To JavaScript they are sequences of UTF-16 code units.
 */
module Text {
  import opened Wrappers

  predicate IsSpace(c: char) {
    || c == ' ' || '\t' <= c <= '\r'
    || c as int == 0xA0 || c as int == 0x1680 || 0x2000 <= c as int <= 0x200A
    || c as int == 0x2028 || c as int == 0x2029 || c as int == 0x202F || c as int == 0x205F
    || c as int == 0x3000 || c as int == 0xFEFF
  }

  function Clip(s: string, max: nat): (r: string)
    ensures |r| <= max && r <= s
    ensures |r| == if |s| <= max then |s| else max
  {
    if |s| <= max then s else s[..max]
  }

  function TrimStart(s: string): string {
    if s != "" && IsSpace(s[0]) then TrimStart(s[1..]) else s
  }

  function TrimEnd(s: string): string {
    if s != "" && IsSpace(s[|s| - 1]) then TrimEnd(s[..|s| - 1]) else s
  }

  function Trim(s: string): string {
    TrimEnd(TrimStart(s))
  }

  /** No white space at either end: the strings that `trim()` leaves alone. */
  predicate Trimmed(s: string) {
    s == "" || (!IsSpace(s[0]) && !IsSpace(s[|s| - 1]))
  }

  lemma {:induction false} TrimEndSpec(s: string)
    requires s == "" || !IsSpace(s[0])
    ensures Trimmed(TrimEnd(s)) && |TrimEnd(s)| <= |s|
  {
    if s != "" && IsSpace(s[|s| - 1]) {
      TrimEndSpec(s[..|s| - 1]);
    }
  }

  lemma {:induction false} TrimStartSpec(s: string)
    ensures TrimStart(s) == "" || !IsSpace(TrimStart(s)[0])
    ensures |TrimStart(s)| <= |s|
  {
    if s != "" && IsSpace(s[0]) {
      TrimStartSpec(s[1..]);
    }
  }

  /** `trim()` yields a trimmed string no longer than its input, and is the identity on trimmed ones. */
  lemma TrimSpec(s: string)
    ensures Trimmed(Trim(s)) && |Trim(s)| <= |s|
    ensures Trimmed(s) ==> Trim(s) == s
  {
    TrimStartSpec(s);
    TrimEndSpec(TrimStart(s));
  }

  lemma {:induction false} TrimEndCuts(s: string)
    ensures TrimEnd(s) <= s && forall k :: |TrimEnd(s)| <= k < |s| ==> IsSpace(s[k])
  {
    if s != "" && IsSpace(s[|s| - 1]) {
      TrimEndCuts(s[..|s| - 1]);
    }
  }

  lemma {:induction false} TrimStartCuts(s: string) returns (i: nat)
    ensures i <= |s| && TrimStart(s) == s[i..] && forall k :: 0 <= k < i ==> IsSpace(s[k])
  {
    i := 0;
    if s != "" && IsSpace(s[0]) {
      var j := TrimStartCuts(s[1..]);
      assert s[1..][j..] == s[j + 1..];
      assert forall k :: 1 <= k <= j ==> s[k] == s[1..][k - 1];
      i := j + 1;
    }
  }

  /** And it cuts off nothing but white space. */
  lemma TrimCutsSpace(s: string) returns (i: nat, j: nat)
    ensures i <= j <= |s| && Trim(s) == s[i..j]
    ensures forall k :: 0 <= k < |s| && !(i <= k < j) ==> IsSpace(s[k])
  {
    i := TrimStartCuts(s);
    var t := TrimStart(s);
    TrimEndCuts(t);
    j := i + |Trim(s)|;
    assert forall k :: i <= k < |s| ==> s[k] == t[k - i];
  }

  predicate OccursAt(text: string, pattern: string, i: nat) {
    i + |pattern| <= |text| && text[i..i + |pattern|] == pattern
  }

  /** `text.find(pattern, from)` in Python, `text.indexOf(pattern, from)` in JavaScript: the first occurrence. */
  function FindText(text: string, pattern: string, from: nat): (r: Option<nat>)
    ensures r.Some? ==> from <= r.value && OccursAt(text, pattern, r.value)
    ensures forall i: nat :: from <= i && OccursAt(text, pattern, i) ==> r.Some? && r.value <= i
    decreases |text| - from
  {
    if OccursAt(text, pattern, from) then Some(from)
    else if from < |text| then FindText(text, pattern, from + 1)
    else None
  }

  // ----- Characters and runs -----

  predicate IsDigit(c: char) { '0' <= c <= '9' }
  predicate IsUpper(c: char) { 'A' <= c <= 'Z' }
  predicate IsLetter(c: char) { IsUpper(c) || 'a' <= c <= 'z' }
  predicate IsWordChar(c: char) { IsLetter(c) || IsDigit(c) || c == '_' }

  /** The end of the longest run of characters from `from` that satisfy `p`. */
  function RunEnd(s: string, from: nat, p: char -> bool): (r: nat)
    requires from <= |s|
    ensures from <= r <= |s|
    ensures forall k :: from <= k < r ==> p(s[k])
    ensures r < |s| ==> !p(s[r])
    decreases |s| - from
  {
    if from < |s| && p(s[from]) then RunEnd(s, from + 1, p) else from
  }

  /** A run of characters ends where the next one is another. */
  lemma RunStops(s: string, from: nat, to: nat, p: char -> bool)
    requires from <= to <= |s| && (forall k :: from <= k < to ==> p(s[k])) && (to < |s| ==> !p(s[to]))
    ensures RunEnd(s, from, p) == to
  {
  }

  predicate At(s: string, i: nat, p: char -> bool) {
    i < |s| && p(s[i])
  }

  /** The end of a run of at least one character, if there is one. */
  function SomeRunEnd(s: string, from: nat, p: char -> bool): (r: Option<nat>)
    ensures r.Some? <==> At(s, from, p)
    ensures r.Some? ==> from < r.value <= |s|
  {
    if At(s, from, p) then Some(RunEnd(s, from, p)) else None
  }
}
