/** The block structure of the webview's Markdown: which lines become which block. */
module Markdown {
  import opened Text
  import opened Wrappers

  // ----- Lines -----

  predicate IsBlank(line: string) {
    Trim(line) == ""
  }

  /** What a dot in a pattern does not match. */
  predicate EndsLine(c: char) {
    c == '\n' || c == '\r' || c as int == 0x2028 || c as int == 0x2029
  }

  function Leading(line: string): (n: nat)
    ensures n <= |line|
  {
    RunEnd(line, 0, IsSpace)
  }

  predicate OnlySpaces(line: string, from: nat)
    requires from <= |line|
  {
    RunEnd(line, from, IsSpace) == |line|
  }

  /** The rest of the line from `from`, if no line end is in it. */
  function RestOf(line: string, from: nat): Option<string>
    requires from <= |line|
  {
    if RunEnd(line, from, c => !EndsLine(c)) == |line| then Some(line[from..]) else None
  }

  predicate FenceAt(line: string, i: nat) {
    OccursAt(line, "```", i) || OccursAt(line, "~~~", i)
  }

  predicate StartsFence(line: string) {
    FenceAt(line, Leading(line))
  }

  predicate InfoChar(c: char) {
    IsWordChar(c) || c == '+' || c == '#' || c == '.' || c == '-'
  }

  /** A line that opens a fenced block: the marker and the language after it. */
  function Fence(line: string): Option<(string, string)> {
    var i := Leading(line);
    if !FenceAt(line, i) then None
    else
      var info := RunEnd(line, i + 3, IsSpace);
      var end := RunEnd(line, info, InfoChar);
      if OnlySpaces(line, end) then Some((line[i..i + 3], line[info..end])) else None
  }

  predicate ClosesFence(marker: string, line: string) {
    var i := Leading(line);
    OccursAt(line, marker, i) && OnlySpaces(line, i + |marker|)
  }

  function Count(s: string, c: char): nat {
    if s == "" then 0 else Count(s[..|s| - 1], c) + if s[|s| - 1] == c then 1 else 0
  }

  /** A horizontal rule: the same mark three times or more, with white space between. */
  predicate IsRule(line: string) {
    var i := Leading(line);
    && i <= 3 && i < |line| && line[i] in "-*_"
    && RunEnd(line, i, c => c == line[i] || IsSpace(c)) == |line|
    && Count(line[i..], line[i]) >= 3
  }

  /** The end of a heading's marks and the white space behind them. */
  function HeadingStart(line: string): (r: Option<(nat, nat)>)
    ensures r.Some? ==> r.value.1 <= |line|
  {
    var i := Leading(line);
    var marks := RunEnd(line, i, c => c == '#');
    if i <= 3 && 1 <= marks - i <= 6 && At(line, marks, IsSpace) then Some((marks - i, RunEnd(line, marks, IsSpace)))
        else None
  }

  /** The level and the text of a heading, closing marks removed. */
  function Heading(line: string): Option<(nat, string)> {
    match HeadingStart(line)
    case None => None
    case Some((marks, start)) =>
      match RestOf(line, start)
      case None => None
      case Some(text) => Some((if marks + 2 <= 5 then marks + 2 else 5, StripMarks(text)))
  }

  function TrimMarks(s: string): string {
    if s != "" && s[|s| - 1] == '#' then TrimMarks(s[..|s| - 1]) else s
  }

  function StripMarks(text: string): string {
    var trimmed := TrimEnd(text);
    var bare := TrimMarks(trimmed);
    if bare != trimmed && bare != "" && IsSpace(bare[|bare| - 1]) then TrimEnd(bare) else text
  }

  predicate IsQuoted(line: string) {
    Leading(line) <= 3 && At(line, Leading(line), c => c == '>')
  }

  /** The line without the mark of the quote and one space. */
  function Unquoted(line: string): (r: string)
    ensures |r| <= |line| && (IsQuoted(line) ==> |r| < |line|)
  {
    var i := Leading(line) + 1;
    if !IsQuoted(line) then line
    else if At(line, i, IsSpace) then line[i + 1..]
    else line[i..]
  }

  function LineAt(lines: seq<string>, i: nat): string {
    if i < |lines| then lines[i] else ""
  }

  predicate IsDivider(line: string) {
    var i := Leading(line);
    var start := if At(line, i, c => c == '|') then i + 1 else i;
    var dash := RunEnd(line, start, c => IsSpace(c) || c == ':');
    && At(line, dash, c => c == '-')
    && RunEnd(line, dash, c => IsSpace(c) || c == ':' || c == '|' || c == '-') == |line|
    && '|' in line
  }

  /** `isTableStart` */
  predicate IsTableStart(lines: seq<string>, i: nat) {
    '|' in LineAt(lines, i) && IsDivider(LineAt(lines, i + 1))
  }

  /** `listMatch`: the text of a list item. */
  function ListMatch(line: string): Option<string> {
    var i := Leading(line);
    var digits := RunEnd(line, i, IsDigit);
    var mark := if At(line, i, c => c in "-*+") then i + 1
                else if 1 <= digits - i <= 9 && At(line, digits, c => c in ".)") then digits + 1
                else |line|;
    if At(line, mark, IsSpace) then RestOf(line, RunEnd(line, mark, IsSpace)) else None
  }

  function Width(s: string): nat {
    if s == "" then 0 else Width(s[..|s| - 1]) + if s[|s| - 1] == '\t' then 4 else 1
  }

  /** `indentWidth`: leading white space, a tab being four wide. */
  function IndentWidth(line: string): nat {
    Width(line[..Leading(line)])
  }

  // ----- Blocks -----

  /** `width` is the indent of the item's line, and `numbered` says whether its mark is a number. */
  datatype ListNode = ListNode(ordered: bool, items: seq<Item>)
  datatype Item = Item(text: string, width: nat, numbered: bool, nested: seq<ListNode>)

  /** `Blank` and `Dropped` stand for lines that leave nothing on the page. */
  datatype Block =
    | Blank
    | Dropped
    | Code(info: string, body: seq<string>)
    | Rule
    | Title(level: nat, text: string)
    | Quote(inner: seq<Piece>)
    | Table(rows: seq<string>)
    | Listing(list: ListNode)
    | Paragraph(lines: seq<string>)

  /** A block and the lines it is made from. */
  datatype Piece = Piece(from: nat, to: nat, block: Block)

  function EndOf(pieces: seq<Piece>): nat {
    if pieces == [] then 0 else pieces[|pieces| - 1].to
  }

  /** The pieces cover the first `n` lines one after the other, without gap or overlap, and none is empty. */
  predicate Tiles(pieces: seq<Piece>, n: nat) {
    && EndOf(pieces) == n
    && forall k :: 0 <= k < |pieces| ==> EndOf(pieces[..k]) == pieces[k].from < pieces[k].to
  }

  predicate ContinuesParagraph(lines: seq<string>, i: nat)
    requires i < |lines|
  {
    var line := lines[i];
    !IsBlank(line) && ListMatch(line).None? && !StartsFence(line) && !IsQuoted(line) && HeadingStart(line).None?
        && !IsTableStart(lines, i)
  }

  /** The blocks that go on line after line. */
  datatype Run = InFence(marker: string) | InQuote | InTable | InParagraph

  predicate Continues(lines: seq<string>, i: nat, run: Run)
    requires i < |lines|
  {
    match run
    case InFence(marker) => !ClosesFence(marker, lines[i])
    case InQuote => IsQuoted(lines[i])
    case InTable => '|' in lines[i] && !IsBlank(lines[i])
    case InParagraph => ContinuesParagraph(lines, i)
  }

  /** Where a block that goes on from line `from` stops. */
  function RunOf(lines: seq<string>, from: nat, run: Run): (to: nat)
    requires from <= |lines|
    ensures from <= to <= |lines|
    ensures forall k :: from <= k < to ==> Continues(lines, k, run)
    ensures to < |lines| ==> !Continues(lines, to, run)
    decreases |lines| - from
  {
    if from < |lines| && Continues(lines, from, run) then RunOf(lines, from + 1, run) else from
  }

  function UnquotedLines(lines: seq<string>): (r: seq<string>)
    ensures |r| == |lines| && forall k :: 0 <= k < |r| ==> r[k] == Unquoted(lines[k])
  {
    seq(|lines|, k requires 0 <= k < |lines| => Unquoted(lines[k]))
  }

  // ----- Lists -----

  /** The texts, indents and kinds of marks of all items of a list, nested ones included, in the order of the lines. */
  function ListTexts(list: ListNode): seq<(string, nat, bool)> {
    ItemsTexts(list.items)
  }

  function ItemsTexts(items: seq<Item>): seq<(string, nat, bool)> {
    if items == [] then []
    else ItemsTexts(items[..|items| - 1]) + ItemTexts(items[|items| - 1])
  }

  function ItemTexts(item: Item): seq<(string, nat, bool)> {
    [(item.text, item.width, item.numbered)] + NestedTexts(item.nested)
  }

  function NestedTexts(nested: seq<ListNode>): seq<(string, nat, bool)> {
    if nested == [] then []
    else NestedTexts(nested[..|nested| - 1]) + ListTexts(nested[|nested| - 1])
  }

  /** The texts, indents and kinds of marks of the list lines among some lines. */
  function ListLines(lines: seq<string>): seq<(string, nat, bool)> {
    if lines == [] then []
    else ListLines(lines[..|lines| - 1]) + ListLine(lines[|lines| - 1])
  }

  predicate Numbered(line: string) {
    At(line, Leading(line), IsDigit)
  }

  function ListLine(line: string): seq<(string, nat, bool)> {
    match ListMatch(line)
    case None => []
    case Some(text) => [(text, IndentWidth(line), Numbered(line))]
  }

  /** The indent of a list is that of its first item. */
  function Indent(list: ListNode): nat {
    if list.items == [] then 0 else list.items[0].width
  }

  /**
   A list is ordered as its first item is numbered. Its items are at most one space deeper than the first;
   what is deeper is nested in the item before it.
   */
  predicate WellNested(list: ListNode) {
    && list.items != [] && list.ordered == list.items[0].numbered
    && forall i :: 0 <= i < |list.items| ==> WellPlaced(list.items[i], list.items[0].width)
  }

  /** And the lists nested in one item are less and less deep, since each is as long as it may be. */
  predicate WellPlaced(item: Item, indent: nat) {
    && indent <= item.width < indent + 2
    && (forall k :: 0 <= k < |item.nested| ==> Indent(item.nested[k]) >= indent + 2 && WellNested(item.nested[k]))
    && forall k :: 0 < k < |item.nested| ==> Indent(item.nested[k]) < Indent(item.nested[k - 1])
  }

  /** Why a list of the given indent ends before line `i`. */
  predicate ListEnds(lines: seq<string>, i: nat, indent: nat) {
    i >= |lines|
    || (if IsBlank(lines[i])
        then LineAt(lines, i + 1) == "" || ListMatch(lines[i + 1]).None? || IndentWidth(lines[i + 1]) < indent
        else ListMatch(lines[i]).None? || IndentWidth(lines[i]) < indent)
  }

  /**
   The list takes the lines from `from` to `to`: each is a blank line or an item, none is lost, and it
   goes on for as long as it may.
   */
  predicate TakesList(lines: seq<string>, from: nat, to: nat, indent: nat, list: ListNode) {
    && from < to <= |lines| && ListMatch(lines[from]).Some?
    && (forall k :: from <= k < to ==>
          IsBlank(lines[k]) || (ListMatch(lines[k]).Some? && IndentWidth(lines[k]) >= indent))
    && ListTexts(list) == ListLines(lines[from..to])
    && WellNested(list) && Indent(list) == indent && list.ordered == Numbered(lines[from])
    && ListEnds(lines, to, indent)
  }

  /** `piece` is what the lines from `piece.from` on have to become. */
  ghost predicate PieceOk(lines: seq<string>, piece: Piece)
    decreases piece
  {
    var from, to, block := piece.from, piece.to, piece.block;
    from < to <= |lines| &&
    var line := lines[from];
    if IsBlank(line) then block == Blank && to == from + 1
    else if Fence(line).Some? then
      var (marker, info) := Fence(line).value;
      var close := RunOf(lines, from + 1, InFence(marker));
      block == Code(info, lines[from + 1..close]) && to == if close < |lines| then close + 1 else close
    else if IsRule(line) then block == Rule && to == from + 1
    else if Heading(line).Some? then block == Title(Heading(line).value.0, Heading(line).value.1) && to == from + 1
    else if IsQuoted(line) then
      && to == RunOf(lines, from, InQuote) && block.Quote? && Tiles(block.inner, to - from)
      && forall i :: 0 <= i < |block.inner| ==> PieceOk(UnquotedLines(lines[from..to]), block.inner[i])
    else if IsTableStart(lines, from) then
      from + 2 <= |lines| && to == RunOf(lines, from + 2, InTable) && block == Table([line] + lines[from + 2..to])
    else if ListMatch(line).Some? then block.Listing? && TakesList(lines, from, to, IndentWidth(line), block.list)
    else if ContinuesParagraph(lines, from)
        then to == RunOf(lines, from, InParagraph) && block == Paragraph(lines[from..to])
    else block == Dropped && to == from + 1
  }

  // ----- The list parser -----

  lemma ListLinesSnoc(lines: seq<string>, from: nat, to: nat)
    requires from <= to < |lines|
    ensures ListLines(lines[from..to + 1]) == ListLines(lines[from..to]) + ListLine(lines[to])
  {
    assert lines[from..to + 1] == lines[from..to] + [lines[to]];
  }

  lemma {:induction false} ListLinesAppend(a: seq<string>, b: seq<string>)
    ensures ListLines(a + b) == ListLines(a) + ListLines(b)
    decreases |b|
  {
    hide ListLine;
    if b == [] {
      assert a + b == a;
    } else {
      assert (a + b)[..|a + b| - 1] == a + b[..|b| - 1];
      ListLinesAppend(a, b[..|b| - 1]);
    }
  }

  lemma ItemAdded(items: seq<Item>, item: Item)
    ensures ItemsTexts(items + [item]) == ItemsTexts(items) + ItemTexts(item)
  {
    assert (items + [item])[..|items + [item]| - 1] == items;
  }

  lemma ListTextsOf(ordered: bool, items: seq<Item>, indent: nat)
    requires items != [] && ItemsPlaced(items, indent) && ordered == items[0].numbered
    ensures var list := ListNode(ordered, items);
            ListTexts(list) == ItemsTexts(items) && WellNested(list) && Indent(list) == indent
  {
  }

  lemma PlainItem(text: string, width: nat, numbered: bool)
    ensures ItemTexts(Item(text, width, numbered, [])) == [(text, width, numbered)] && ItemsTexts([]) == []
            && ListLines([]) == []
  {
  }

  /** The items of a list under way. */
  predicate ItemsPlaced(items: seq<Item>, indent: nat) {
    && (items != [] ==> items[0].width == indent)
    && forall i :: 0 <= i < |items| ==> WellPlaced(items[i], indent)
  }

  /** The list nested last in the last item cannot go on at line `i`. */
  predicate NestingEnded(lines: seq<string>, i: nat, items: seq<Item>) {
    items == [] || var nested := items[|items| - 1].nested;
                   nested == [] || ListEnds(lines, i, Indent(nested[|nested| - 1]))
  }

  lemma NestPlaced(lines: seq<string>, index: nat, items: seq<Item>, indent: nat, list: ListNode, after: nat)
    requires items != [] && ItemsPlaced(items, indent) && NestingEnded(lines, index, items)
    requires index < |lines| && !IsBlank(lines[index]) && ListMatch(lines[index]).Some?
    requires IndentWidth(lines[index]) >= indent + 2
    requires TakesList(lines, index, after, IndentWidth(lines[index]), list)
    ensures ItemsPlaced(Nest(items, list), indent) && NestingEnded(lines, after, Nest(items, list))
  {
    hide IsBlank, ListMatch, IndentWidth, ListLines, ListTexts, Leading;
    var more, last := Nest(items, list), items[|items| - 1];
    forall i | 0 <= i < |more| ensures WellPlaced(more[i], indent) {
      if i < |items| - 1 { assert more[i] == items[i]; }
    }
  }

  lemma NothingPlaced(lines: seq<string>, index: nat, indent: nat)
    ensures ItemsPlaced([], indent) && NestingEnded(lines, index, [])
  {
  }

  lemma ItemPlaced(lines: seq<string>, index: nat, items: seq<Item>, indent: nat, item: Item)
    requires ItemsPlaced(items, indent) && item.nested == [] && indent <= item.width
    requires if items == [] then item.width == indent else item.width < indent + 2
    ensures ItemsPlaced(items + [item], indent) && NestingEnded(lines, index, items + [item])
  {
  }

  /** Passing a blank line does not reopen the nested list. */
  lemma StaysEnded(lines: seq<string>, index: nat, items: seq<Item>, indent: nat)
    requires NestingEnded(lines, index, items)
    requires index < |lines| && IsBlank(lines[index]) && !ListEnds(lines, index, indent)
    ensures NestingEnded(lines, index + 1, items)
  {
    hide IsBlank, ListMatch, IndentWidth;
    BlankIsNoItem(lines[index + 1]);
  }

  /** A nested list is appended to the last item. */
  function Nest(items: seq<Item>, list: ListNode): (r: seq<Item>)
    requires items != []
    ensures |r| == |items| && r[0].numbered == items[0].numbered
  {
    var last := items[|items| - 1];
    items[..|items| - 1] + [Item(last.text, last.width, last.numbered, last.nested + [list])]
  }

  lemma NestAdded(items: seq<Item>, list: ListNode)
    requires items != []
    ensures ItemsTexts(Nest(items, list)) == ItemsTexts(items) + ListTexts(list)
  {
    var front, last := items[..|items| - 1], items[|items| - 1];
    ItemAdded(front, Item(last.text, last.width, last.numbered, last.nested + [list]));
    assert (last.nested + [list])[..|last.nested + [list]| - 1] == last.nested;
  }

  /**
   `appendList`, for the line of a first item and its indent. The branch for a list that stayed empty is
   an assertion here: the first line always becomes an item.
   */
  method AppendList(lines: seq<string>, start: nat, indent: nat) returns (list: ListNode, index: nat)
    requires start < |lines| && !IsBlank(lines[start]) && ListMatch(lines[start]).Some?
            && indent == IndentWidth(lines[start])
    ensures TakesList(lines, start, index, indent, list)
    decreases |lines| - start
  {
    hide ListMatch, IsBlank, IndentWidth, Numbered, ListLines, ItemsTexts, Leading, Nest, ListTexts, ItemsPlaced,
        NestingEnded, TakesList;
    var ordered := Numbered(lines[start]);
    var items: seq<Item> := [];
    index := start;
    PlainItem("", 0, false);
    assert ItemsPlaced([], indent) && NestingEnded(lines, start, []) by { NothingPlaced(lines, start, indent); }
    assert lines[start..start] == [];
    while index < |lines|
      invariant start <= index <= |lines| && (items == [] <==> index == start)
      invariant forall k :: start <= k < index ==>
                  IsBlank(lines[k]) || (ListMatch(lines[k]).Some? && IndentWidth(lines[k]) >= indent)
      invariant ItemsTexts(items) == ListLines(lines[start..index])
      invariant items != [] ==> items[0].numbered == ordered
      invariant ItemsPlaced(items, indent) && NestingEnded(lines, index, items)
      decreases |lines| - index
    {
      var line := lines[index];
      if IsBlank(line) {
        var next := LineAt(lines, index + 1);
        if next == "" || ListMatch(next).None? || IndentWidth(next) < indent {
          break;
        }
        BlankIsNoItem(line);
        StaysEnded(lines, index, items, indent);
        ListLinesSnoc(lines, start, index);
        index := index + 1;
        continue;
      }
      var match_ := ListMatch(line);
      var width := IndentWidth(line);
      if match_.Some? && width >= indent + 2 && items != [] {
        var nested, after := AppendList(lines, index, width);
        TakenParts(lines, index, after, width, nested);
        NestAdded(items, nested);
        NestPlaced(lines, index, items, indent, nested, after);
        ListLinesAppend(lines[start..index], lines[index..after]);
        assert lines[start..after] == lines[start..index] + lines[index..after];
        items := Nest(items, nested);
        index := after;
        continue;
      }
      if match_.None? || width < indent {
        break;
      }
      ItemAdded(items, Item(match_.value, width, Numbered(line), []));
      PlainItem(match_.value, width, Numbered(line));
      ItemPlaced(lines, index + 1, items, indent, Item(match_.value, width, Numbered(line), []));
      ListLinesSnoc(lines, start, index);
      items := items + [Item(match_.value, width, Numbered(line), [])];
      index := index + 1;
    }
    assert items != [];
    ListTextsOf(ordered, items, indent);
    list := ListNode(ordered, items);
    Taken(lines, start, index, indent, list);
  }

  lemma TakenParts(lines: seq<string>, from: nat, to: nat, indent: nat, list: ListNode)
    requires TakesList(lines, from, to, indent, list)
    ensures from < to <= |lines| && ListTexts(list) == ListLines(lines[from..to])
    ensures forall k :: from <= k < to ==>
              IsBlank(lines[k]) || (ListMatch(lines[k]).Some? && IndentWidth(lines[k]) >= indent)
  {
    hide WellNested, ListEnds;
  }

  lemma Taken(lines: seq<string>, from: nat, to: nat, indent: nat, list: ListNode)
    requires from < to <= |lines| && ListMatch(lines[from]).Some?
    requires forall k :: from <= k < to ==>
               IsBlank(lines[k]) || (ListMatch(lines[k]).Some? && IndentWidth(lines[k]) >= indent)
    requires ListTexts(list) == ListLines(lines[from..to]) && WellNested(list) && Indent(list) == indent
    requires list.ordered == Numbered(lines[from]) && ListEnds(lines, to, indent)
    ensures TakesList(lines, from, to, indent, list)
  {
    hide WellNested, ListEnds;
  }

  lemma BlankIsNoItem(line: string)
    ensures IsBlank(line) ==> ListMatch(line).None?
  {
    if IsBlank(line) {
      BlankIsSpaces(line);
      assert Leading(line) == |line|;
    }
  }

  lemma {:induction false} BlankIsSpaces(line: string)
    requires IsBlank(line)
    ensures Leading(line) == |line|
  {
    TrimStartRun(line, 0);
    var rest := TrimStart(line);
    if rest != "" {
      TrimEndKeeps(rest);
    }
  }

  /** `TrimStart` drops exactly the leading white space. */
  lemma {:induction false} TrimStartRun(line: string, i: nat)
    requires i <= |line|
    ensures TrimStart(line[i..]) == line[RunEnd(line, i, IsSpace)..]
    decreases |line| - i
  {
    if i < |line| && IsSpace(line[i]) {
      assert line[i..][1..] == line[i + 1..];
      TrimStartRun(line, i + 1);
    }
  }

  lemma {:induction false} TrimEndKeeps(s: string)
    requires s != "" && !IsSpace(s[0])
    ensures TrimEnd(s) != ""
    decreases |s|
  {
    if IsSpace(s[|s| - 1]) {
      TrimEndKeeps(s[..|s| - 1]);
    }
  }

  // ----- The block parser -----

  function TotalChars(lines: seq<string>): nat {
    if lines == [] then 0 else TotalChars(lines[..|lines| - 1]) + |lines[|lines| - 1]|
  }

  lemma {:induction false} TotalCharsAppend(a: seq<string>, b: seq<string>)
    ensures TotalChars(a + b) == TotalChars(a) + TotalChars(b)
    decreases |b|
  {
    if b == [] {
      assert a + b == a;
    } else {
      assert (a + b)[..|a + b| - 1] == a + b[..|b| - 1];
      TotalCharsAppend(a, b[..|b| - 1]);
    }
  }

  lemma {:induction false} UnquotedIsShorter(lines: seq<string>)
    requires forall k :: 0 <= k < |lines| ==> IsQuoted(lines[k])
    ensures TotalChars(UnquotedLines(lines)) + |lines| <= TotalChars(lines)
    decreases |lines|
  {
    if lines != [] {
      var front := lines[..|lines| - 1];
      UnquotedIsShorter(front);
      assert UnquotedLines(lines)[..|lines| - 1] == UnquotedLines(front);
    }
  }

  /** What lies inside a quote has fewer characters than the lines around it, so nesting ends. */
  lemma QuoteIsSmaller(lines: seq<string>, from: nat, to: nat)
    requires from < to <= |lines| && to == RunOf(lines, from, InQuote)
    ensures TotalChars(UnquotedLines(lines[from..to])) < TotalChars(lines)
  {
    hide TotalChars, RunOf, Unquoted, IsQuoted, UnquotedLines;
    var quoted := lines[from..to];
    forall k | 0 <= k < |quoted| ensures IsQuoted(quoted[k]) {
      assert Continues(lines, from + k, InQuote);
    }
    UnquotedIsShorter(quoted);
    TotalCharsAppend(lines[..from], quoted);
    TotalCharsAppend(lines[..to], lines[to..]);
    assert lines[..to] == lines[..from] + quoted && lines == lines[..to] + lines[to..];
  }

  /** The pieces cover the first `n` lines, and each is what its lines have to become. */
  ghost predicate Rendered(lines: seq<string>, pieces: seq<Piece>, n: nat) {
    Tiles(pieces, n) && forall i :: 0 <= i < |pieces| ==> PieceOk(lines, pieces[i])
  }

  lemma RenderedSnoc(lines: seq<string>, pieces: seq<Piece>, piece: Piece)
    requires Rendered(lines, pieces, piece.from) && PieceOk(lines, piece)
    ensures Rendered(lines, pieces + [piece], piece.to) && piece.from < piece.to <= |lines|
  {
    hide PieceOk;
    PieceLies(lines, piece);
    var more := pieces + [piece];
    forall k | 0 <= k < |more| ensures EndOf(more[..k]) == more[k].from < more[k].to {
      assert more[..k] == if k < |pieces| then pieces[..k] else pieces;
    }
  }

  lemma PieceLies(lines: seq<string>, piece: Piece)
    requires PieceOk(lines, piece)
    ensures piece.from < piece.to <= |lines|
  {
  }

  /** Collects the lines of a block that goes on line after line. */
  method Collect(lines: seq<string>, from: nat, run: Run) returns (body: seq<string>, to: nat)
    requires from <= |lines|
    ensures to == RunOf(lines, from, run) && body == lines[from..to]
  {
    hide Continues;
    body := [];
    to := from;
    while to < |lines| && Continues(lines, to, run)
      invariant from <= to <= |lines| && body == lines[from..to]
      invariant RunOf(lines, to, run) == RunOf(lines, from, run)
    {
      assert lines[from..to + 1] == lines[from..to] + [lines[to]];
      body := body + [lines[to]];
      to := to + 1;
    }
  }

  /** One round of the loop of `renderMarkdownBlocks`. */
  method RenderBlock(lines: seq<string>, index: nat) returns (piece: Piece)
    requires index < |lines|
    ensures piece.from == index && PieceOk(lines, piece)
    decreases TotalChars(lines), 0
  {
    hide IsBlank, Fence, IsRule, Heading, IsQuoted, IsTableStart, ListMatch, ContinuesParagraph, TakesList, Tiles,
        TotalChars, RunOf;
    var line := lines[index];
    if IsBlank(line) {
      return Piece(index, index + 1, Blank);
    }
    var fence := Fence(line);
    if fence.Some? {
      var body, close := Collect(lines, index + 1, InFence(fence.value.0));
      return Piece(index, if close < |lines| then close + 1 else close, Code(fence.value.1, body));
    }
    if IsRule(line) {
      return Piece(index, index + 1, Rule);
    }
    var heading := Heading(line);
    if heading.Some? {
      return Piece(index, index + 1, Title(heading.value.0, heading.value.1));
    }
    if IsQuoted(line) {
      var quoted, to := Collect(lines, index, InQuote);
      assert Continues(lines, index, InQuote);
      QuoteIsSmaller(lines, index, to);
      var inner := RenderMarkdownBlocks(UnquotedLines(quoted));
      return Piece(index, to, Quote(inner));
    }
    if IsTableStart(lines, index) {
      TableHasDivider(lines, index);
      var rows, to := Collect(lines, index + 2, InTable);
      return Piece(index, to, Table([line] + rows));
    }
    if ListMatch(line).Some? {
      var list, to := AppendList(lines, index, IndentWidth(line));
      ListLies(lines, index, to, IndentWidth(line), list);
      return Piece(index, to, Listing(list));
    }
    var paragraph, to := Collect(lines, index, InParagraph);
    if paragraph != [] {
      assert Continues(lines, index, InParagraph);
      return Piece(index, to, Paragraph(paragraph));
    }
    assert !Continues(lines, index, InParagraph);
    return Piece(index, index + 1, Dropped);
  }

  lemma ListLies(lines: seq<string>, from: nat, to: nat, indent: nat, list: ListNode)
    requires TakesList(lines, from, to, indent, list)
    ensures from < to <= |lines|
  {
  }

  /** A table start is followed by its divider, so the parser never looks past the lines. */
  lemma TableHasDivider(lines: seq<string>, i: nat)
    requires IsTableStart(lines, i)
    ensures i + 2 <= |lines|
  {
    assert !('|' in "");
  }

  /** `renderMarkdownBlocks`: ends on every input, and the pieces are the rendering of all lines. */
  method RenderMarkdownBlocks(lines: seq<string>) returns (pieces: seq<Piece>)
    ensures Rendered(lines, pieces, |lines|)
    decreases TotalChars(lines), 1
  {
    pieces := [];
    var index := 0;
    while index < |lines|
      invariant 0 <= index <= |lines| && Rendered(lines, pieces, index)
    {
      hide Rendered, PieceOk, TotalChars;
      var piece := RenderBlock(lines, index);
      RenderedSnoc(lines, pieces, piece);
      pieces := pieces + [piece];
      index := piece.to;
    }
  }

  // ----- What is lost -----

  /** A line that looks like a fence or a heading to the paragraph rule, but not to their own. */
  predicate BreaksOff(lines: seq<string>, i: nat)
    requires i < |lines|
  {
    var line := lines[i];
    && (StartsFence(line) || HeadingStart(line).Some?)
    && !IsBlank(line) && Fence(line).None? && !IsRule(line) && Heading(line).None?
    && !IsQuoted(line) && !IsTableStart(lines, i) && ListMatch(line).None?
  }

  /** Exactly these lines leave no trace on the page, besides the blank ones. */
  lemma DroppedExactly(lines: seq<string>, piece: Piece)
    requires PieceOk(lines, piece)
    ensures piece.block == Dropped <==> BreaksOff(lines, piece.from)
  {
    hide IsBlank, Fence, IsRule, Heading, IsQuoted, IsTableStart, ListMatch, TakesList, Tiles, RunOf, StartsFence,
        HeadingStart;
  }

  lemma TicksAreNothingElse(line: string)
    requires line != "" && line[0] == '`'
    ensures Leading(line) == 0 && !IsBlank(line) && !IsRule(line) && HeadingStart(line).None? && !IsQuoted(line)
            && ListMatch(line).None?
  {
    assert TrimStart(line) == line;
    TrimEndKeeps(line);
  }

  /** For instance the opening line of a fenced block that has a title after its language. */
  lemma TitledFenceIsDropped()
    ensures BreaksOff(["```js title"], 0)
  {
    hide IsBlank, IsRule, HeadingStart, IsQuoted, ListMatch, Fence, Leading, IsDivider;
    var line := "```js title";
    assert line[0..3] == "```";
    TicksAreNothingElse(line);
    TitleIsNoInfo(line);
    assert Heading(line).None?;
    assert '|' !in line;
  }

  lemma TitleIsNoInfo(line: string)
    requires line == "```js title"
    ensures Fence(line).None?
  {
    assert RunEnd(line, 3, IsSpace) == 3;
    assert RunEnd(line, 5, InfoChar) == 5;
    assert RunEnd(line, 4, InfoChar) == 5;
    assert RunEnd(line, 3, InfoChar) == 5;
    assert RunEnd(line, 6, IsSpace) == 6;
    assert !OnlySpaces(line, 5);
  }
}
