/**
 The line patterns of the Markdown parser, position by position: which lines are headings, items, fences,
 rules and quotes.
 */
module MarkdownLines {
  import opened Wrappers
  import opened Text
  import opened Markdown

  ghost predicate Spaces(s: string, from: nat, to: nat) {
    from <= to <= |s| && forall k :: from <= k < to ==> IsSpace(s[k])
  }

  /** The run of white space cannot be longer. */
  predicate Stops(s: string, at: nat) {
    at <= |s| && (at < |s| ==> !IsSpace(s[at]))
  }

  ghost predicate OneLine(s: string, from: nat) {
    from <= |s| && forall k :: from <= k < |s| ==> !EndsLine(s[k])
  }

  lemma SpacesEnd(s: string, from: nat, to: nat)
    requires Spaces(s, from, to) && Stops(s, to)
    ensures RunEnd(s, from, IsSpace) == to
  {
    RunStops(s, from, to, IsSpace);
  }

  lemma EndsOfSpaces(s: string, from: nat)
    requires from <= |s|
    ensures var to := RunEnd(s, from, IsSpace); Spaces(s, from, to) && Stops(s, to)
  {
  }

  // ----- Headings -----

  /** Up to three spaces, one to six marks from `i` to `m`, white space, and the text from `j`. */
  ghost predicate HeadingAt(line: string, i: nat, m: nat, j: nat) {
    && i <= 3 && i < m <= i + 6 && m < j && Spaces(line, 0, i) && Spaces(line, m, j) && Stops(line, j)
    && (forall k :: i <= k < m ==> line[k] == '#') && OneLine(line, j)
  }

  lemma MarksEnd(line: string, i: nat, m: nat)
    requires i <= m < |line| && line[m] != '#' && forall k :: i <= k < m ==> line[k] == '#'
    ensures RunEnd(line, i, c => c == '#') == m
  {
    RunStops(line, i, m, c => c == '#');
  }

  lemma RestIs(line: string, j: nat)
    requires j <= |line|
    ensures RestOf(line, j).Some? <==> OneLine(line, j)
  {
    if OneLine(line, j) { RunStops(line, j, |line|, c => !EndsLine(c)); }
  }

  function LevelOf(marks: nat): nat {
    if marks <= 3 then marks + 2 else 5
  }

  lemma HeadingFound(line: string, i: nat, m: nat, j: nat)
    requires HeadingAt(line, i, m, j)
    ensures Heading(line) == Some((LevelOf(m - i), StripMarks(line[j..])))
  {
    hide StripMarks;
    SpacesEnd(line, 0, i);
    MarksEnd(line, i, m);
    SpacesEnd(line, m, j);
    RestIs(line, j);
  }

  lemma HeadingHas(line: string)
    requires Heading(line).Some?
    ensures exists i: nat, m: nat, j: nat :: HeadingAt(line, i, m, j)
  {
    hide StripMarks;
    var i := Leading(line);
    var m := RunEnd(line, i, c => c == '#');
    var j := RunEnd(line, m, IsSpace);
    EndsOfSpaces(line, 0);
    EndsOfSpaces(line, m);
    RestIs(line, j);
    assert HeadingAt(line, i, m, j);
  }

  /** A heading has two levels more than it has marks, but no more than five. */
  lemma HeadingExactly(line: string)
    ensures Heading(line).Some? <==> exists i: nat, m: nat, j: nat :: HeadingAt(line, i, m, j)
    ensures forall i: nat, m: nat, j: nat :: HeadingAt(line, i, m, j) ==>
              Heading(line) == Some((LevelOf(m - i), StripMarks(line[j..])))
  {
    hide Spaces, Stops, Heading, StripMarks;
    forall i: nat, m: nat, j: nat | HeadingAt(line, i, m, j)
      ensures j <= |line| && Heading(line) == Some((LevelOf(m - i), StripMarks(line[j..])))
    {
      HeadingFound(line, i, m, j);
    }
    if Heading(line).Some? { HeadingHas(line); }
  }

  // ----- Closing marks -----

  /** Closing marks behind a text and white space. */
  ghost predicate Closed(text: string, i: nat, j: nat, k: nat) {
    && i < j < k <= |text| && (i == 0 || !IsSpace(text[i - 1])) && Spaces(text, i, j) && Spaces(text, k, |text|)
    && forall l :: j <= l < k ==> text[l] == '#'
  }

  lemma {:induction false} TrimEndAt(s: string, k: nat)
    requires Spaces(s, k, |s|) && (k == 0 || !IsSpace(s[k - 1]))
    ensures TrimEnd(s) == s[..k]
    decreases |s|
  {
    if k < |s| {
      assert s[..|s| - 1][..k] == s[..k];
      TrimEndAt(s[..|s| - 1], k);
    } else {
      assert s[..k] == s;
    }
  }

  lemma {:induction false} TrimMarksAt(s: string, j: nat)
    requires j <= |s| && (forall l :: j <= l < |s| ==> s[l] == '#') && (j == 0 || s[j - 1] != '#')
    ensures TrimMarks(s) == s[..j]
    decreases |s|
  {
    if j < |s| {
      assert s[..|s| - 1][..j] == s[..j];
      TrimMarksAt(s[..|s| - 1], j);
    } else {
      assert s[..j] == s;
    }
  }

  lemma {:induction false} TrimMarksCuts(s: string)
    ensures TrimMarks(s) <= s && forall l :: |TrimMarks(s)| <= l < |s| ==> s[l] == '#'
    ensures TrimMarks(s) == "" || TrimMarks(s)[|TrimMarks(s)| - 1] != '#'
  {
    if s != "" && s[|s| - 1] == '#' { TrimMarksCuts(s[..|s| - 1]); }
  }

  /** The text of a heading loses its closing marks and the white space before them, and nothing else. */
  lemma ClosingMarksGo(text: string)
    ensures forall i: nat, j: nat, k: nat :: Closed(text, i, j, k) ==> StripMarks(text) == text[..i]
    ensures (forall i: nat, j: nat, k: nat :: !Closed(text, i, j, k)) ==> StripMarks(text) == text
  {
    forall i: nat, j: nat, k: nat | Closed(text, i, j, k) ensures StripMarks(text) == text[..i] {
      TrimEndAt(text, k);
      TrimMarksAt(text[..k], j);
      assert text[..k][..j] == text[..j];
      TrimEndAt(text[..j], i);
      assert text[..j][..i] == text[..i];
    }
    if StripMarks(text) != text {
      TrimEndCuts(text);
      var k := |TrimEnd(text)|;
      TrimMarksCuts(text[..k]);
      assert TrimEnd(text) == text[..k];
      var j := |TrimMarks(text[..k])|;
      TrimEndCuts(text[..j]);
      assert TrimMarks(text[..k]) == text[..j];
      var i := |TrimEnd(text[..j])|;
      TrimEndStops(text[..j]);
      assert TrimEnd(text[..j]) == text[..i];
      ClosedIs(text, i, j, k);
    }
  }

  lemma {:induction false} TrimEndStops(s: string)
    ensures TrimEnd(s) == "" || !IsSpace(TrimEnd(s)[|TrimEnd(s)| - 1])
  {
    if s != "" && IsSpace(s[|s| - 1]) { TrimEndStops(s[..|s| - 1]); }
  }

  lemma ClosedIs(text: string, i: nat, j: nat, k: nat)
    requires i < j < k <= |text| && (i == 0 || !IsSpace(text[i - 1])) && Spaces(text, i, j)
    requires Spaces(text, k, |text|)
    requires forall l :: j <= l < k ==> text[l] == '#'
    ensures Closed(text, i, j, k)
  {
  }

  // ----- List items -----

  /** A bullet, or one to nine digits with a dot or a parenthesis. */
  ghost predicate MarkAt(line: string, i: nat, m: nat) {
    && i < m <= |line|
    && ((m == i + 1 && line[i] in ['-', '*', '+'])
        || (i + 2 <= m <= i + 10 && line[m - 1] in ['.', ')'] && forall k :: i <= k < m - 1 ==> IsDigit(line[k])))
  }

  ghost predicate ItemAt(line: string, i: nat, m: nat, j: nat) {
    Spaces(line, 0, i) && MarkAt(line, i, m) && m < j && Spaces(line, m, j) && Stops(line, j) && OneLine(line, j)
  }

  /** The end of the mark of an item, as the pattern finds it. */
  function MarkEnd(line: string, i: nat): (m: nat)
    requires i <= |line|
  {
    var digits := RunEnd(line, i, IsDigit);
    if At(line, i, c => c in "-*+") then i + 1
    else if 1 <= digits - i <= 9 && At(line, digits, c => c in ".)") then digits + 1
    else |line|
  }

  lemma MarkEndIs(line: string, i: nat, m: nat)
    requires i <= |line| && m < |line|
    ensures MarkEnd(line, i) == m <==> MarkAt(line, i, m)
  {
    var digits := RunEnd(line, i, IsDigit);
    if MarkAt(line, i, m) && !(line[i] in ['-', '*', '+']) { RunStops(line, i, m - 1, IsDigit); }
  }

  lemma MarkIsNoSpace(line: string, i: nat, m: nat)
    requires MarkAt(line, i, m)
    ensures Stops(line, i)
  {
    if m != i + 1 { assert IsDigit(line[i]); }
  }

  lemma ItemFound(line: string, i: nat, m: nat, j: nat)
    requires ItemAt(line, i, m, j)
    ensures ListMatch(line) == Some(line[j..])
  {
    hide MarkAt;
    MarkIsNoSpace(line, i, m);
    SpacesEnd(line, 0, i);
    MarkEndIs(line, i, m);
    SpacesEnd(line, m, j);
    RestIs(line, j);
  }

  lemma ItemHas(line: string)
    requires ListMatch(line).Some?
    ensures exists i: nat, m: nat, j: nat :: ItemAt(line, i, m, j)
  {
    hide MarkAt;
    var i := Leading(line);
    var m := MarkEnd(line, i);
    EndsOfSpaces(line, 0);
    MarkEndIs(line, i, m);
    EndsOfSpaces(line, m);
    RestIs(line, RunEnd(line, m, IsSpace));
    assert ItemAt(line, i, m, RunEnd(line, m, IsSpace));
  }

  /** An item of a list is a mark behind white space, white space again, and the text. */
  lemma ItemExactly(line: string)
    ensures ListMatch(line).Some? <==> exists i: nat, m: nat, j: nat :: ItemAt(line, i, m, j)
    ensures forall i: nat, m: nat, j: nat :: ItemAt(line, i, m, j) ==> ListMatch(line) == Some(line[j..])
  {
    hide MarkAt, Spaces, Stops, ListMatch;
    forall i: nat, m: nat, j: nat | ItemAt(line, i, m, j)
      ensures j <= |line| && ListMatch(line) == Some(line[j..])
    {
      ItemFound(line, i, m, j);
    }
    if ListMatch(line).Some? { ItemHas(line); }
  }

  // ----- Fences, quotes and rules -----

  /** A fence from `i`, white space, the language from `a` to `b`, and white space. */
  ghost predicate FenceOf(line: string, i: nat, a: nat, b: nat) {
    && Spaces(line, 0, i) && i + 3 <= a <= b <= |line| && (line[i..i + 3] == "```" || line[i..i + 3] == "~~~")
    && Spaces(line, i + 3, a) && (forall k :: a <= k < b ==> InfoChar(line[k])) && Spaces(line, b, |line|)
    && (a == b ==> b == |line|)
  }

  lemma InfoEnd(line: string, a: nat, b: nat)
    requires a <= b <= |line| && (forall k :: a <= k < b ==> InfoChar(line[k])) && (b < |line| ==> !InfoChar(line[b]))
    ensures RunEnd(line, a, InfoChar) == b
  {
    RunStops(line, a, b, InfoChar);
  }

  lemma FenceFound(line: string, i: nat, a: nat, b: nat)
    requires FenceOf(line, i, a, b)
    ensures Fence(line) == Some((line[i..i + 3], line[a..b]))
  {
    assert line[i] == line[i..i + 3][0];
    SpacesEnd(line, 0, i);
    assert a < b ==> InfoChar(line[a]);
    SpacesEnd(line, i + 3, a);
    InfoEnd(line, a, b);
    SpacesEnd(line, b, |line|);
  }

  lemma FenceHas(line: string)
    requires Fence(line).Some?
    ensures exists i: nat, a: nat, b: nat :: FenceOf(line, i, a, b)
  {
    var i := Leading(line);
    var a := RunEnd(line, i + 3, IsSpace);
    EndsOfSpaces(line, 0);
    EndsOfSpaces(line, i + 3);
    EndsOfSpaces(line, RunEnd(line, a, InfoChar));
    assert FenceOf(line, i, a, RunEnd(line, a, InfoChar));
  }

  /** A fence opens a block if nothing but a language stands behind it. */
  lemma FenceExactly(line: string)
    ensures Fence(line).Some? <==> exists i: nat, a: nat, b: nat :: FenceOf(line, i, a, b)
    ensures forall i: nat, a: nat, b: nat :: FenceOf(line, i, a, b) ==>
              Fence(line) == Some((line[i..i + 3], line[a..b]))
  {
    hide Fence;
    forall i: nat, a: nat, b: nat | FenceOf(line, i, a, b) ensures Fence(line) == Some((line[i..i + 3], line[a..b])) {
      FenceFound(line, i, a, b);
    }
    if Fence(line).Some? { FenceHas(line); }
  }

  ghost predicate QuotedAt(line: string, i: nat) {
    i <= 3 && i < |line| && Spaces(line, 0, i) && line[i] == '>'
  }

  lemma QuoteFound(line: string, i: nat)
    requires QuotedAt(line, i)
    ensures IsQuoted(line)
    ensures Unquoted(line) == line[if i + 1 < |line| && IsSpace(line[i + 1]) then i + 2 else i + 1..]
  {
    SpacesEnd(line, 0, i);
  }

  /** A line is quoted if it has the sign behind three spaces at most; the sign and one space behind it go. */
  lemma QuotedExactly(line: string)
    ensures IsQuoted(line) <==> exists i: nat :: QuotedAt(line, i)
    ensures forall i: nat :: QuotedAt(line, i) ==>
              Unquoted(line) == line[if i + 1 < |line| && IsSpace(line[i + 1]) then i + 2 else i + 1..]
  {
    if IsQuoted(line) {
      EndsOfSpaces(line, 0);
      assert QuotedAt(line, Leading(line));
    }
    forall i: nat | QuotedAt(line, i)
      ensures IsQuoted(line)
      ensures Unquoted(line) == line[if i + 1 < |line| && IsSpace(line[i + 1]) then i + 2 else i + 1..]
    {
      QuoteFound(line, i);
    }
  }

  /** A rule: behind three spaces at most one mark, at least three times, and white space. */
  ghost predicate RuleAt(line: string, i: nat, c: char, a: nat, b: nat) {
    && i <= 3 && Spaces(line, 0, i) && c in ['-', '*', '_'] && i < a < b < |line|
    && line[i] == c && line[a] == c && line[b] == c && forall k :: i <= k < |line| ==> line[k] == c || IsSpace(line[k])
  }

  lemma {:induction false} CountAtLeast(s: string, c: char, n: nat) returns (at: seq<nat>)
    requires Count(s, c) >= n
    ensures |at| == n && (forall x :: 0 <= x < n ==> at[x] < |s| && s[at[x]] == c)
    ensures forall x, y :: 0 <= x < y < n ==> at[x] < at[y]
    decreases |s|
  {
    if n == 0 {
      at := [];
    } else if s[|s| - 1] == c {
      var front := CountAtLeast(s[..|s| - 1], c, n - 1);
      at := front + [|s| - 1];
    } else {
      at := CountAtLeast(s[..|s| - 1], c, n);
    }
  }

  lemma {:induction false} CountGrows(s: string, c: char, at: seq<nat>)
    requires forall x :: 0 <= x < |at| ==> at[x] < |s| && s[at[x]] == c
    requires forall x, y :: 0 <= x < y < |at| ==> at[x] < at[y]
    ensures Count(s, c) >= |at|
    decreases |s|
  {
    if at != [] {
      assert at[0] < |s|;
      var front, last := s[..|s| - 1], |s| - 1;
      var less := if at[|at| - 1] == last then at[..|at| - 1] else at;
      forall x | 0 <= x < |less| ensures less[x] < |front| && front[less[x]] == c {
        assert less[x] == at[x];
      }
      CountGrows(front, c, less);
    }
  }

  lemma RuleExactly(line: string)
    ensures IsRule(line) <==> exists i: nat, c, a: nat, b: nat :: RuleAt(line, i, c, a, b)
  {
    if i: nat, c, a: nat, b: nat :| RuleAt(line, i, c, a, b) {
      RuleIsFound(line, i, c, a, b);
    }
    if IsRule(line) {
      var i := Leading(line);
      var c := line[i];
      EndsOfSpaces(line, 0);
      var at := CountAtLeast(line[i..], c, 3);
      assert line[i..][at[0]] == line[i + at[0]] && line[i..][at[1]] == line[i + at[1]];
      assert line[i..][at[2]] == line[i + at[2]];
      assert forall k :: i <= k < |line| ==> line[k] == c || IsSpace(line[k]);
      assert RuleAt(line, i, c, i + at[1], i + at[2]);
    }
  }

  lemma RuleIsFound(line: string, i: nat, c: char, a: nat, b: nat)
    requires RuleAt(line, i, c, a, b)
    ensures IsRule(line)
  {
    SpacesEnd(line, 0, i);
    var r := RunEnd(line, i, d => d == line[i] || IsSpace(d));
    assert r == |line|;
    assert line[i..][0] == c && line[i..][a - i] == c && line[i..][b - i] == c;
    CountGrows(line[i..], c, [0, a - i, b - i]);
  }

  /** The indent of a line: its leading white space, every tab counting for four. */
  lemma {:induction false} WidthCounts(s: string)
    ensures Width(s) == |s| + 3 * Count(s, '\t')
    decreases |s|
  {
    if s != "" { WidthCounts(s[..|s| - 1]); }
  }
}
