/** The scanner that cuts the slash-command registry, a bracketed array, out of a source text. */
module ArrayScanner {
  import opened Text
  import opened Wrappers

  // ----- What an array is -----

  /** Inside quotes: a character that stands for itself, or a backslash and any character. */
  datatype Unit = Char(c: char) | Escape(c: char)

  /** The text between two matching brackets. */
  datatype Doc =
    | End
    | Plain(c: char, rest: Doc)
    | Quoted(quote: char, body: seq<Unit>, rest: Doc)
    | Nested(inner: Doc, rest: Doc)

  predicate IsQuote(c: char) {
    c == '"' || c == '\''
  }

  predicate GoodBody(quote: char, body: seq<Unit>) {
    forall i :: 0 <= i < |body| && body[i].Char? ==> body[i].c != quote && body[i].c != '\\'
  }

  predicate WellFormed(d: Doc) {
    match d
    case End => true
    case Plain(c, rest) => !IsQuote(c) && c != '[' && c != ']' && WellFormed(rest)
    case Quoted(quote, body, rest) => IsQuote(quote) && GoodBody(quote, body) && WellFormed(rest)
    case Nested(inner, rest) => WellFormed(inner) && WellFormed(rest)
  }

  function PrintBody(body: seq<Unit>): string {
    if body == [] then ""
    else (match body[0] { case Char(c) => [c] case Escape(c) => ['\\', c] }) + PrintBody(body[1..])
  }

  function Print(d: Doc): string {
    match d
    case End => ""
    case Plain(c, rest) => [c] + Print(rest)
    case Quoted(quote, body, rest) => [quote] + PrintBody(body) + [quote] + Print(rest)
    case Nested(inner, rest) => "[" + Print(inner) + "]" + Print(rest)
  }

  /** The text of an array. */
  function PrintArray(inner: Doc): string {
    "[" + Print(inner) + "]"
  }

  ghost predicate IsArray(s: string) {
    exists inner :: WellFormed(inner) && s == PrintArray(inner)
  }

  // ----- The scanner, as a function of what is left to read -----

  function Plus(n: nat, r: Option<nat>): Option<nat> {
    match r
    case None => None
    case Some(m) => Some(n + m)
  }

  /** How many characters are read until the depth falls to zero. */
  function Find(s: string, depth: nat, inString: Option<char>, escaped: bool): (r: Option<nat>)
    requires depth > 0
    ensures r.Some? ==> r.value <= |s|
  {
    if s == "" then None
    else if inString.Some? then
      if escaped then Plus(1, Find(s[1..], depth, inString, false))
      else if s[0] == '\\' then Plus(1, Find(s[1..], depth, inString, true))
      else if s[0] == inString.value then Plus(1, Find(s[1..], depth, None, false))
      else Plus(1, Find(s[1..], depth, inString, false))
    else if IsQuote(s[0]) then Plus(1, Find(s[1..], depth, Some(s[0]), escaped))
    else if s[0] == '[' then Plus(1, Find(s[1..], depth + 1, None, escaped))
    else if s[0] == ']' then
      if depth == 1 then Some(1) else Plus(1, Find(s[1..], depth - 1, None, escaped))
    else Plus(1, Find(s[1..], depth, None, escaped))
  }

  // ----- The scanner inverts the printer -----

  lemma {:induction false} BodyIsSkipped(quote: char, body: seq<Unit>, t: string, depth: nat)
    requires IsQuote(quote) && GoodBody(quote, body) && depth > 0
    ensures Find(PrintBody(body) + [quote] + t, depth, Some(quote), false) ==
            Plus(|PrintBody(body)| + 1, Find(t, depth, None, false))
    decreases |body|
  {
    var s := PrintBody(body) + [quote] + t;
    if body == [] {
      assert s[1..] == t;
    } else {
      var tail := PrintBody(body[1..]) + [quote] + t;
      BodyIsSkipped(quote, body[1..], t, depth);
      match body[0] {
        case Char(c) =>
          assert s == [c] + tail;
        case Escape(c) =>
          assert s == ['\\', c] + tail;
          EscapeIsSkipped(quote, c, tail, depth);
      }
    }
  }

  lemma EscapeIsSkipped(quote: char, c: char, tail: string, depth: nat)
    requires depth > 0
    ensures Find(['\\', c] + tail, depth, Some(quote), false) == Plus(2, Find(tail, depth, Some(quote), false))
  {
    var s := ['\\', c] + tail;
    assert s[1..] == [c] + tail && s[1..][1..] == tail;
  }

  lemma FirstIsRead(c: char, tail: string, depth: nat)
    requires depth > 0 && c != '[' && c != ']'
    ensures Find([c] + tail, depth, None, false) ==
            Plus(1, Find(tail, depth, if IsQuote(c) then Some(c) else None, false))
  {
    assert ([c] + tail)[1..] == tail;
  }

  lemma NestedIsSkipped(inner: string, tail: string, depth: nat)
    requires depth > 0
    requires Find(inner + ("]" + tail), depth + 1, None, false) ==
            Plus(|inner|, Find("]" + tail, depth + 1, None, false))
    ensures Find("[" + (inner + ("]" + tail)), depth, None, false) == Plus(|inner| + 2, Find(tail, depth, None, false))
  {
    var s := "[" + (inner + ("]" + tail));
    assert s[1..] == inner + ("]" + tail) && ("]" + tail)[1..] == tail;
  }

  lemma {:induction false} DocIsSkipped(d: Doc, t: string, depth: nat)
    requires WellFormed(d) && depth > 0
    ensures Find(Print(d) + t, depth, None, false) == Plus(|Print(d)|, Find(t, depth, None, false))
    decreases d
  {
    hide Find, PrintBody;
    var s := Print(d) + t;
    match d {
      case End =>
        assert s == t;
      case Plain(c, rest) =>
        assert s == [c] + (Print(rest) + t);
        FirstIsRead(c, Print(rest) + t, depth);
        DocIsSkipped(rest, t, depth);
      case Quoted(quote, body, rest) =>
        var tail := Print(rest) + t;
        assert s == [quote] + (PrintBody(body) + [quote] + tail);
        FirstIsRead(quote, PrintBody(body) + [quote] + tail, depth);
        BodyIsSkipped(quote, body, tail, depth);
        DocIsSkipped(rest, t, depth);
      case Nested(inner, rest) =>
        var tail := Print(rest) + t;
        DocIsSkipped(inner, "]" + tail, depth + 1);
        DocIsSkipped(rest, t, depth);
        assert s == "[" + (Print(inner) + ("]" + tail));
        NestedIsSkipped(Print(inner), tail, depth);
    }
  }

  /** Whatever follows a printed array, the scanner stops at its end. */
  lemma ArrayIsFound(inner: Doc, t: string)
    requires WellFormed(inner)
    ensures Find((PrintArray(inner) + t)[1..], 1, None, false) == Some(|PrintArray(inner)| - 1)
  {
    var s := PrintArray(inner) + t;
    assert s[1..] == Print(inner) + ("]" + t);
    DocIsSkipped(inner, "]" + t, 1);
  }

  /** What one character does to the scan, inside a string and outside. */
  lemma ReadInString(s: string, depth: nat, quote: char, escaped: bool)
    requires s != "" && depth > 0
    ensures Find(s, depth, Some(quote), escaped) ==
              Plus(1, Find(s[1..], depth, if !escaped && s[0] != '\\' && s[0] == quote then None else Some(quote),
                           !escaped && s[0] == '\\'))
  {
  }

  lemma ReadOutside(s: string, depth: nat)
    requires s != "" && depth > 0
    ensures Find(s, depth, None, false) ==
              if s[0] == ']' && depth == 1 then Some(1)
              else Plus(1, Find(s[1..], if s[0] == '[' then depth + 1 else if s[0] == ']' then depth - 1 else depth,
                                if IsQuote(s[0]) then Some(s[0]) else None, false))
  {
  }

  lemma ReadNothing(depth: nat, inString: Option<char>, escaped: bool)
    requires depth > 0
    ensures Find("", depth, inString, escaped) == None
  {
  }

  // ----- And finds nothing else -----

  /** The text from inside `|docs|` open brackets up to the last of their closing ones. */
  function Closing(docs: seq<Doc>): string {
    if docs == [] then "" else Print(docs[0]) + "]" + Closing(docs[1..])
  }

  predicate AllWellFormed(docs: seq<Doc>) {
    forall i :: 0 <= i < |docs| ==> WellFormed(docs[i])
  }

  lemma {:induction false} StringIsClosed(s: string, depth: nat, quote: char) returns (body: seq<Unit>, k: nat)
    requires depth > 0 && IsQuote(quote) && Find(s, depth, Some(quote), false).Some?
    ensures GoodBody(quote, body) && k <= |s| && s[..k] == PrintBody(body) + [quote]
    ensures Find(s, depth, Some(quote), false) == Plus(k, Find(s[k..], depth, None, false))
    decreases |s|
  {
    hide Find;
    ReadNothing(depth, Some(quote), false);
    ReadNothing(depth, Some(quote), true);
    ReadInString(s, depth, quote, false);
    if s[0] == '\\' {
      ReadInString(s[1..], depth, quote, true);
      body, k := StringIsClosed(s[2..], depth, quote);
      assert s[1..][1..] == s[2..];
      body, k := [Escape(s[1])] + body, k + 2;
      assert s[2..][..k - 2] == s[2..k] && s[2..][k - 2..] == s[k..];
      assert body[1..] == body[1..];
      BodyCons(Escape(s[1]), body[1..]);
      assert s[..k] == [s[0], s[1]] + s[2..k];
    } else if s[0] == quote {
      body, k := [], 1;
    } else {
      body, k := StringIsClosed(s[1..], depth, quote);
      body, k := [Char(s[0])] + body, k + 1;
      assert s[1..][..k - 1] == s[1..k] && s[1..][k - 1..] == s[k..];
      BodyCons(Char(s[0]), body[1..]);
      assert s[..k] == [s[0]] + s[1..k];
    }
  }

  lemma BodyCons(u: Unit, body: seq<Unit>)
    ensures PrintBody([u] + body) == (match u { case Char(c) => [c] case Escape(c) => ['\\', c] }) + PrintBody(body)
  {
    assert ([u] + body)[1..] == body;
  }

  lemma {:induction false} FoundIsClosed(s: string, depth: nat) returns (docs: seq<Doc>)
    requires depth > 0 && Find(s, depth, None, false).Some?
    ensures |docs| == depth && AllWellFormed(docs)
    ensures s[..Find(s, depth, None, false).value] == Closing(docs)
    decreases |s|
  {
    hide Find;
    ReadNothing(depth, None, false);
    ReadOutside(s, depth);
    var e := Find(s, depth, None, false).value;
    Rejoin(s, 1, e);
    if IsQuote(s[0]) {
      var body, k := StringIsClosed(s[1..], depth, s[0]);
      assert s[1..][k..] == s[k + 1..];
      var more := FoundIsClosed(s[k + 1..], depth);
      docs := [Quoted(s[0], body, more[0])] + more[1..];
      assert e == 1 + k + Find(s[k + 1..], depth, None, false).value;
      hide Closing;
      Rejoin(s[1..], k, e - 1);
      ClosingFirst(more, docs, [s[0]] + PrintBody(body) + [s[0]]);
    } else if s[0] == '[' {
      var more := FoundIsClosed(s[1..], depth + 1);
      docs := [Nested(more[0], more[1])] + more[2..];
      ClosingNested(more, docs);
    } else if s[0] == ']' {
      if depth == 1 {
        docs := [End];
        assert docs[1..] == [];
      } else {
        var more := FoundIsClosed(s[1..], depth - 1);
        docs := [End] + more;
        assert docs[1..] == more;
      }
    } else {
      var more := FoundIsClosed(s[1..], depth);
      docs := [Plain(s[0], more[0])] + more[1..];
      hide Closing;
      ClosingFirst(more, docs, [s[0]]);
    }
  }

  lemma Rejoin(s: string, k: nat, e: nat)
    requires k <= e <= |s|
    ensures s[..e] == s[..k] + s[k..][..e - k]
  {
  }

  lemma ClosingNested(more: seq<Doc>, docs: seq<Doc>)
    requires |more| > 1 && docs == [Nested(more[0], more[1])] + more[2..]
    ensures Closing(docs) == "[" + Closing(more)
  {
    assert more[1..][1..] == more[2..] && docs[1..] == more[2..];
    assert Closing(more) == Print(more[0]) + "]" + (Print(more[1]) + "]" + Closing(more[2..]));
  }

  lemma ClosingFirst(more: seq<Doc>, docs: seq<Doc>, prefix: string)
    requires more != [] && docs != [] && docs[1..] == more[1..] && Print(docs[0]) == prefix + Print(more[0])
    ensures Closing(docs) == prefix + Closing(more)
  {
  }

  /**
   The scanner finds exactly the arrays: from an opening bracket, it stops after `e` characters precisely
   when those are the text of an array. Hence no array is a proper prefix of another, and the scanner
   fails precisely when no prefix is an array.
   */
  lemma ScannerFindsArrays(s: string, e: nat)
    requires s != "" && s[0] == '[' && e <= |s|
    ensures Plus(1, Find(s[1..], 1, None, false)) == Some(e) <==> IsArray(s[..e])
  {
    if Plus(1, Find(s[1..], 1, None, false)) == Some(e) {
      var docs := FoundIsClosed(s[1..], 1);
      assert s[..e] == "[" + s[1..][..e - 1];
      assert docs[1..] == [] && Closing(docs) == Print(docs[0]) + "]";
      assert s[..e] == PrintArray(docs[0]);
    }
    if IsArray(s[..e]) {
      var inner :| WellFormed(inner) && s[..e] == PrintArray(inner);
      ArrayIsFound(inner, s[e..]);
      assert s == PrintArray(inner) + s[e..];
    }
  }

  // ----- The code -----

  datatype Error = MissingRegistry | MissingAssignment | NotAnArray | Unterminated

  const MARKER := "SLASH_COMMANDS"

  /** Where the registry's array begins: the first bracket after the first equals sign after the marker. */
  function Start(text: string): (r: Result<nat, Error>)
    ensures r.Success? ==> r.value < |text| && text[r.value] == '['
  {
    match FindText(text, MARKER, 0)
    case None => Failure(MissingRegistry)
    case Some(marker) =>
      match FindText(text, "=", marker)
      case None => Failure(MissingAssignment)
      case Some(assignment) =>
        match FindText(text, "[", assignment)
        case None => Failure(NotAnArray)
        case Some(start) =>
          assert text[start] == text[start..start + 1][0];
          Success(start)
  }

  /** The scanning loop: the characters up to the matching bracket, if there is one. */
  method Scan(text: string, start: nat) returns (end: Option<nat>)
    requires start < |text| && text[start] == '['
    ensures end == Plus(start + 1, Find(text[start + 1..], 1, None, false))
  {
    hide Find;
    ghost var found := Plus(start + 1, Find(text[start + 1..], 1, None, false));
    var depth: nat := 0;
    var inString: Option<char> := None;
    var escaped := false;
    var index := start;
    while index < |text|
      invariant start <= index <= |text| && (index == start <==> depth == 0)
      invariant inString == None ==> !escaped
      invariant index == start ==> inString == None
      invariant index > start ==>
                  found == Plus(index, Find(text[index..], depth, inString, escaped))
    {
      var c := text[index];
      ghost var left := text[index..];
      assert left[1..] == text[index + 1..] && left[0] == c;
      if inString.Some? {
        ReadInString(left, depth, inString.value, escaped);
      } else if depth > 0 {
        ReadOutside(left, depth);
      }
      index := index + 1;
      if inString.Some? {
        if escaped {
          escaped := false;
        } else if c == '\\' {
          escaped := true;
        } else if c == inString.value {
          inString := None;
        }
        continue;
      }
      if IsQuote(c) {
        inString := Some(c);
        continue;
      }
      if c == '[' {
        depth := depth + 1;
      } else if c == ']' {
        depth := depth - 1;
        if depth == 0 {
          return Some(index);
        }
      }
    }
    ReadNothing(depth, inString, escaped);
    return None;
  }

  /**
   `_slash_registry_array_text`: the array that begins at the start, or an error precisely when there is
   no start or no array begins there.
   */
  method SlashRegistryArrayText(text: string) returns (r: Result<string, Error>)
    ensures Start(text).Failure? ==> r == Failure(Start(text).error)
    ensures Start(text).Success? ==>
              match r
              case Success(slice) => IsArray(slice) && OccursAt(text, slice, Start(text).value)
              case Failure(error) =>
                && error == Unterminated
                && forall e: nat :: Start(text).value <= e <= |text| ==> !IsArray(text[Start(text).value..e])
  {
    hide IsArray, Find, FindText, Start;
    var from := Start(text);
    if from.Failure? {
      return Failure(from.error);
    }
    var start := from.value;
    var s := text[start..];
    assert s[1..] == text[start + 1..];
    var end := Scan(text, start);
    if end.Some? {
      assert s[..end.value - start] == text[start..end.value];
      ScannerFindsArrays(s, end.value - start);
      return Success(text[start..end.value]);
    }
    forall e: nat | start <= e <= |text| ensures !IsArray(text[start..e]) {
      ScannerFindsArrays(s, e - start);
      assert s[..e - start] == text[start..e];
    }
    return Failure(Unterminated);
  }
}
