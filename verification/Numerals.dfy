/** The numbers of program code: the tokenizer takes a numeral as it is written, whatever stands around it. */
module Numerals {
  import opened Wrappers
  import opened Text
  import opened Tokenizers

  /** `fraction` has its dot and `exponent` its letter, unless they are missing. */
  datatype Numeral = Prefixed(letter: char, digits: string) | Decimal(whole: string, fraction: string, exponent: string)

  predicate Hex(c: char) {
    '0' <= c <= '9' || 'a' <= c <= 'f' || 'A' <= c <= 'F' || c == '_'
  }

  predicate Figure(c: char) {
    '0' <= c <= '9' || c == '_'
  }

  predicate IsFraction(s: string) {
    s == "" || (|s| >= 2 && s[0] == '.' && '0' <= s[1] <= '9' && forall k :: 2 <= k < |s| ==> Figure(s[k]))
  }

  predicate IsExponent(s: string) {
    s == ""
    || (&& s[0] in ['e', 'E']
        && var from := if |s| >= 2 && s[1] in ['+', '-'] then 2 else 1;
           from < |s| && forall k :: from <= k < |s| ==> '0' <= s[k] <= '9')
  }

  predicate WellFormed(n: Numeral) {
    match n
    case Prefixed(letter, digits) =>
      letter in ['x', 'X', 'b', 'B', 'o', 'O'] && digits != "" && forall k :: 0 <= k < |digits| ==> Hex(digits[k])
    case Decimal(whole, fraction, exponent) =>
      && whole != "" && '0' <= whole[0] <= '9' && (forall k :: 0 < k < |whole| ==> Figure(whole[k]))
      && IsFraction(fraction) && IsExponent(exponent)
  }

  function Print(n: Numeral): string {
    match n
    case Prefixed(letter, digits) => "0" + [letter] + digits
    case Decimal(whole, fraction, exponent) => whole + fraction + exponent
  }

  /** What follows cannot belong to a numeral. */
  predicate Ends(rest: string) {
    rest == "" || !(IsWordChar(rest[0]) || rest[0] == '.')
  }

  /** The part stands in the code from `from` to `to`. */
  predicate Stands(code: string, part: string, from: nat, to: nat) {
    from <= to <= |code| && code[from..to] == part
  }

  lemma Parts(code: string, before: string, a: string, b: string, c: string, rest: string)
    requires code == before + (a + b + c) + rest
    ensures var i := |before|;
            && Stands(code, a, i, i + |a|) && Stands(code, b, i + |a|, i + |a| + |b|)
            && Stands(code, c, i + |a| + |b|, i + |a| + |b| + |c|)
            && |code| == i + |a| + |b| + |c| + |rest| && code[i + |a| + |b| + |c|..] == rest
  {
  }

  lemma CharAt(code: string, part: string, from: nat, to: nat, k: nat)
    requires Stands(code, part, from, to) && k < |part|
    ensures code[from + k] == part[k]
  {
    assert code[from..to][k] == part[k];
  }

  lemma PrefixedIsRead(code: string, before: string, letter: char, digits: string, rest: string)
    requires WellFormed(Prefixed(letter, digits)) && Ends(rest)
            && code == before + Print(Prefixed(letter, digits)) + rest
    ensures code[|before|] == '0' && NumberEnd(code, |before|) == |before| + 2 + |digits|
  {
    var i := |before|;
    var end := i + 2 + |digits|;
    Parts(code, before, "0", [letter], digits, rest);
    CharAt(code, "0", i, i + 1, 0);
    CharAt(code, [letter], i + 1, i + 2, 0);
    forall k | i + 2 <= k < end ensures Hex(code[k]) {
      CharAt(code, digits, i + 2, end, k - i - 2);
    }
    assert end < |code| ==> code[end] == code[end..][0];
    var hex := c => IsDigit(c) || 'a' <= c <= 'f' || 'A' <= c <= 'F' || c == '_';
    RunStops(code, i + 2, end, hex);
  }

  lemma ExponentIsRead(code: string, i: nat, exponent: string)
    requires IsExponent(exponent) && Stands(code, exponent, i, i + |exponent|)
    requires Ends(code[i + |exponent|..])
    ensures ExponentEnd(code, i) == i + |exponent|
  {
    var end := i + |exponent|;
    assert end < |code| ==> code[end] == code[end..][0];
    if exponent != "" {
      forall k: nat | k < |exponent| ensures code[i + k] == exponent[k] { CharAt(code, exponent, i, end, k); }
      var from := if |exponent| >= 2 && exponent[1] in ['+', '-'] then 2 else 1;
      assert code[i] == exponent[0] && code[i + from] == exponent[from];
      assert from == 2 ==> code[i + 1] == exponent[1];
      forall k | i + from <= k < end ensures IsDigit(code[k]) { assert code[i + (k - i)] == exponent[k - i]; }
      RunStops(code, i + from, end, IsDigit);
    }
  }

  lemma PartCopies(code: string, part: string, from: nat, to: nat)
    requires Stands(code, part, from, to)
    ensures to == from + |part| <= |code| && forall k: nat :: k < |part| ==> code[from + k] == part[k]
  {
    forall k: nat | k < |part| ensures code[from + k] == part[k] { CharAt(code, part, from, to, k); }
  }

  lemma DecimalIsRead(code: string, before: string, n: Numeral, rest: string)
    requires n.Decimal? && WellFormed(n) && Ends(rest) && code == before + Print(n) + rest
    ensures |before| < |code| && IsDigit(code[|before|]) && NumberEnd(code, |before|) == |before| + |Print(n)|
  {
    hide WellFormed, Ends;
    var i, w, f := |before|, |before| + |n.whole|, |before| + |n.whole| + |n.fraction|;
    var end := f + |n.exponent|;
    Parts(code, before, n.whole, n.fraction, n.exponent, rest);
    PartCopies(code, n.whole, i, w);
    PartCopies(code, n.fraction, w, f);
    PartCopies(code, n.exponent, f, end);
    DecimalEnds(code, i, w, f, end, n);
  }

  lemma DecimalEnds(code: string, i: nat, w: nat, f: nat, end: nat, n: Numeral)
    requires n.Decimal? && WellFormed(n) && w == i + |n.whole| && f == w + |n.fraction| && end == f + |n.exponent|
    requires end <= |code| && (forall k: nat :: k < |n.whole| ==> code[i + k] == n.whole[k])
    requires (forall k: nat :: k < |n.fraction| ==> code[w + k] == n.fraction[k])
    requires (forall k: nat :: k < |n.exponent| ==> code[f + k] == n.exponent[k])
    requires Stands(code, n.exponent, f, end) && Ends(code[end..])
    ensures i < |code| && IsDigit(code[i]) && NumberEnd(code, i) == end
  {
    hide NumberEnd, ExponentEnd;
    assert end < |code| ==> code[end] == code[end..][0];
    assert code[i + 0] == n.whole[0];
    WholeIsRead(code, i, w, f, end, n);
    FractionIsRead(code, w, f, end, n);
    ExponentIsRead(code, f, n.exponent);
    NumberEndIs(code, i, w, f);
  }

  lemma NumberEndIs(code: string, i: nat, w: nat, f: nat)
    requires i < |code| && IsDigit(code[i]) && !(code[i] == '0' && At(code, i + 1, c => c in "xXbBoO"))
    requires RunEnd(code, i + 1, c => IsDigit(c) || c == '_') == w
    requires f == if At(code, w, c => c == '.') && At(code, w + 1, IsDigit)
                  then RunEnd(code, w + 2, c => IsDigit(c) || c == '_') else w
    ensures f <= |code| && NumberEnd(code, i) == ExponentEnd(code, f)
  {
    hide ExponentEnd;
  }

  /** What follows the digits before the dot is none of them. */
  lemma WholeIsRead(code: string, i: nat, w: nat, f: nat, end: nat, n: Numeral)
    requires n.Decimal? && WellFormed(n) && w == i + |n.whole| && f == w + |n.fraction| && end == f + |n.exponent|
    requires end <= |code| && (forall k: nat :: k < |n.whole| ==> code[i + k] == n.whole[k])
    requires (forall k: nat :: k < |n.fraction| ==> code[w + k] == n.fraction[k])
    requires (forall k: nat :: k < |n.exponent| ==> code[f + k] == n.exponent[k])
    requires end < |code| ==> !(IsWordChar(code[end]) || code[end] == '.')
    ensures RunEnd(code, i + 1, c => IsDigit(c) || c == '_') == w
    ensures !(code[i] == '0' && At(code, i + 1, c => c in "xXbBoO"))
  {
    forall k | i + 1 <= k < w ensures Figure(code[k]) { assert code[i + (k - i)] == n.whole[k - i]; }
    if n.fraction != "" { assert code[w + 0] == '.'; } else if n.exponent != "" { assert code[f + 0] == n.exponent[0]; }
    RunStops(code, i + 1, w, c => IsDigit(c) || c == '_');
    if i + 1 < w { assert Figure(code[i + 1]); }
  }

  lemma FractionIsRead(code: string, w: nat, f: nat, end: nat, n: Numeral)
    requires n.Decimal? && WellFormed(n) && f == w + |n.fraction| && end == f + |n.exponent| && end <= |code|
    requires (forall k: nat :: k < |n.fraction| ==> code[w + k] == n.fraction[k])
    requires (forall k: nat :: k < |n.exponent| ==> code[f + k] == n.exponent[k])
    requires end < |code| ==> !(IsWordChar(code[end]) || code[end] == '.')
    ensures f == if At(code, w, c => c == '.') && At(code, w + 1, IsDigit)
                 then RunEnd(code, w + 2, c => IsDigit(c) || c == '_') else w
  {
    if n.exponent != "" { assert code[f + 0] == n.exponent[0]; }
    if n.fraction != "" {
      assert code[w + 0] == '.' && code[w + 1] == n.fraction[1];
      forall k | w + 2 <= k < f ensures Figure(code[k]) { assert code[w + (k - w)] == n.fraction[k - w]; }
      RunStops(code, w + 2, f, c => IsDigit(c) || c == '_');
    }
  }

  /** A numeral that does not go on is taken whole. */
  lemma NumeralIsRead(code: string, before: string, n: Numeral, rest: string)
    requires WellFormed(n) && Ends(rest) && code == before + Print(n) + rest
    ensures |before| < |code| && IsDigit(code[|before|]) && NumberEnd(code, |before|) == |before| + |Print(n)|
  {
    match n
    case Prefixed(letter, digits) => PrefixedIsRead(code, before, letter, digits, rest);
    case Decimal(_, _, _) => DecimalIsRead(code, before, n, rest);
  }
}
