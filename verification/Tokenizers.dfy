/** The tokenizers of the webview's code blocks: one left-to-right pass for each family of languages. */
module Tokenizers {
  import opened Text
  import opened Wrappers
  import S = ArrayScanner

  datatype TokenType = Unstyled | Comment | String | Number | Keyword | Function | TypeName | Tag | Attribute

  datatype Token = Token(kind: TokenType, value: string)

  function Joined(tokens: seq<Token>): string {
    if tokens == [] then "" else Joined(tokens[..|tokens| - 1]) + tokens[|tokens| - 1].value
  }

  predicate NoneEmpty(tokens: seq<Token>) {
    forall i :: 0 <= i < |tokens| ==> tokens[i].value != ""
  }

  lemma JoinedSnoc(tokens: seq<Token>, t: Token)
    ensures Joined(tokens + [t]) == Joined(tokens) + t.value
  {
    assert (tokens + [t])[..|tokens + [t]| - 1] == tokens;
  }

  /** `flush`: the collected plain text becomes a token, unless there is none. */
  function Flush(tokens: seq<Token>, plain: string): (r: seq<Token>)
    ensures Joined(r) == Joined(tokens) + plain
    ensures NoneEmpty(tokens) ==> NoneEmpty(r)
  {
    if plain == "" then tokens
    else
      JoinedSnoc(tokens, Token(Unstyled, plain));
      tokens + [Token(Unstyled, plain)]
  }

  // ----- Quoted strings -----

  /** `closingIndex` */
  function ClosingIndex(code: string, from: nat, marker: string): (end: nat)
    requires from <= |code|
    ensures from <= end <= |code|
  {
    match FindText(code, marker, from)
    case None => |code|
    case Some(found) => found + |marker|
  }

  /**
   The text between the quotes: escaped characters and others, but neither the quote nor, unless it is a
   backquote, a line end.
   */
  predicate GoodBody(quote: char, body: seq<S.Unit>) {
    S.GoodBody(quote, body) && forall i :: 0 <= i < |body| && body[i] == S.Char('\n') ==> quote == '`'
  }

  /**
   Where a string literal ends that was opened before `from`: after its closing quote; before the line
   end that cuts it short; or with the code, perhaps in the middle of an escape.
   */
  ghost predicate EndsString(code: string, from: nat, quote: char, end: nat) {
    && from <= end <= |code|
    && exists body ::
         && GoodBody(quote, body)
         && (|| code[from..end] == S.PrintBody(body) + [quote]
             || (code[from..end] == S.PrintBody(body) && (end == |code| || (code[end] == '\n' && quote != '`')))
             || (code[from..end] == S.PrintBody(body) + "\\" && end == |code|))
  }

  lemma BodyGrows(code: string, from: nat, index: nat, body: seq<S.Unit>, u: S.Unit, next: nat)
    requires from <= index <= next <= |code| && code[from..index] == S.PrintBody(body)
    requires code[index..next] == match u { case Char(c) => [c] case Escape(c) => ['\\', c] }
    ensures code[from..next] == S.PrintBody(body + [u])
  {
    PrintSnoc(body, u);
    assert code[from..next] == code[from..index] + code[index..next];
  }

  lemma {:induction false} PrintSnoc(body: seq<S.Unit>, u: S.Unit)
    ensures S.PrintBody(body + [u]) == S.PrintBody(body) + match u { case Char(c) => [c] case Escape(c) => ['\\', c] }
    decreases |body|
  {
    if body == [] {
      assert (body + [u])[1..] == [];
    } else {
      assert (body + [u])[1..] == body[1..] + [u];
      PrintSnoc(body[1..], u);
    }
  }

  /** `closingQuote` */
  method ClosingQuote(code: string, from: nat, quote: char) returns (end: nat)
    requires from <= |code| && quote != '\\'
    ensures from <= end <= |code| && EndsString(code, from, quote, end)
  {
    var index := from;
    ghost var body: seq<S.Unit> := [];
    while index < |code|
      invariant from <= index <= |code|
      invariant GoodBody(quote, body) && code[from..index] == S.PrintBody(body)
    {
      var character := code[index];
      assert code[from..index + 1] == code[from..index] + [character];
      if character == '\\' {
        if index + 1 == |code| {
          // The index runs past the end, and the loop stops.
          return |code|;
        }
        BodyGrows(code, from, index, body, S.Escape(code[index + 1]), index + 2);
        body := body + [S.Escape(code[index + 1])];
        index := index + 2;
        continue;
      }
      if character == quote {
        return index + 1;
      }
      if character == '\n' && quote != '`' {
        return index;
      }
      BodyGrows(code, from, index, body, S.Char(character), index + 1);
      body := body + [S.Char(character)];
      index := index + 1;
    }
    return |code|;
  }

  // ----- The tokens of program code -----

  predicate IsNameChar(c: char) { IsWordChar(c) || c == '$' }
  predicate StartsName(c: char) { IsLetter(c) || c == '_' || c == '$' }

  /** The language keys that make a difference. */
  const PYTHON := "python"
  const SHELL := "shell"
  const JSON := "json"

  function LineComment(key: string): string {
    if key == PYTHON || key == SHELL then "#" else "//"
  }

  predicate HasBlockComments(key: string) {
    key != PYTHON && key != SHELL && key != JSON
  }

  predicate IsQuote(c: char) {
    c == '"' || c == '\'' || c == '`'
  }

  predicate Triple(code: string, i: nat, key: string)
    requires i < |code|
  {
    key == PYTHON && OccursAt(code, [code[i], code[i], code[i]], i)
  }

  /** The end of a number: a prefixed one, or digits with an optional fraction and exponent. */
  function NumberEnd(code: string, i: nat): (end: nat)
    requires i < |code| && IsDigit(code[i])
    ensures i < end <= |code|
  {
    var hex := c => IsDigit(c) || 'a' <= c <= 'f' || 'A' <= c <= 'F' || c == '_';
    var digits := c => IsDigit(c) || c == '_';
    if code[i] == '0' && At(code, i + 1, c => c in "xXbBoO") && At(code, i + 2, hex) then RunEnd(code, i + 2, hex)
    else
      var whole := RunEnd(code, i + 1, digits);
      var fraction := if At(code, whole, c => c == '.') && At(code, whole + 1, IsDigit)
          then RunEnd(code, whole + 2, digits) else whole;
      ExponentEnd(code, fraction)
  }

  function ExponentEnd(code: string, i: nat): (end: nat)
    requires i <= |code|
    ensures i <= end <= |code|
  {
    if !At(code, i, c => c == 'e' || c == 'E') then i
    else
      var digits := if At(code, i + 1, c => c == '+' || c == '-') then i + 2 else i + 1;
      match SomeRunEnd(code, digits, IsDigit)
      case None => i
      case Some(end) => end
  }

  predicate Called(code: string, i: nat)
    requires i <= |code|
  {
    At(code, RunEnd(code, i, IsSpace), c => c == '(')
  }

  predicate StartsNumber(code: string, i: nat)
    requires i < |code|
  {
    IsDigit(code[i]) && (i == 0 || !IsNameChar(code[i - 1]))
  }

  predicate StartsComment(code: string, i: nat, key: string) {
    OccursAt(code, LineComment(key), i) || (HasBlockComments(key) && OccursAt(code, "/*", i))
  }

  /** What a token of program code that begins at `i` is, and where it ends. */
  ghost predicate CodeToken(code: string, i: nat, key: string, keywords: set<string>, t: Token) {
    var end := i + |t.value|;
    && i < end <= |code| && t.value == code[i..end]
    && if StartsComment(code, i, key) then
         t.kind == Comment && end == if OccursAt(code, LineComment(key), i) then LineEnd(code, i)
             else ClosingIndex2(code, i, "*/")
       else if IsQuote(code[i]) then
         t.kind == String && if Triple(code, i, key) then end == ClosingIndex3(code, i)
             else EndsString(code, i + 1, code[i], end)
       else if StartsNumber(code, i) then
         t.kind == Number && end == NumberEnd(code, i)
       else
         && StartsName(code[i]) && end == RunEnd(code, i, IsNameChar)
         && t.kind == if t.value in keywords then Keyword
                      else if Called(code, end) then Function
                      else if IsUpper(code[i]) then TypeName else Unstyled
  }

  function LineEnd(code: string, i: nat): (end: nat)
    ensures i <= |code| ==> i <= end <= |code|
  {
    match FindText(code, "\n", i)
    case None => |code|
    case Some(end) => end
  }

  /** The end of a block that was opened by the two characters at `i`. */
  function ClosingIndex2(code: string, i: nat, marker: string): (end: nat)
    ensures i + 2 <= |code| ==> i + 2 <= end <= |code|
  {
    if i + 2 <= |code| then ClosingIndex(code, i + 2, marker) else |code|
  }

  function ClosingIndex3(code: string, i: nat): (end: nat)
    requires i < |code|
    ensures i + 3 <= |code| ==> i + 3 <= end <= |code|
  {
    if i + 3 <= |code| then ClosingIndex(code, i + 3, [code[i], code[i], code[i]]) else |code|
  }

  predicate StartsCodeToken(code: string, i: nat, key: string)
    requires i < |code|
  {
    StartsComment(code, i, key) || IsQuote(code[i]) || StartsNumber(code, i) || StartsName(code[i])
  }

  /** One round of the loop of `tokenizeCode`, as far as it does not collect plain text. */
  method NextCodeToken(code: string, index: nat, key: string, keywords: set<string>) returns (token: Option<Token>)
    requires index < |code|
    ensures token.Some? <==> StartsCodeToken(code, index, key)
    ensures token.Some? ==> CodeToken(code, index, key, keywords, token.value)
  {
    hide EndsString, NumberEnd, RunEnd, Called, Triple, LineEnd, ClosingIndex2, ClosingIndex3, OccursAt, LineComment;
    if OccursAt(code, LineComment(key), index) {
      var stop := LineEnd(code, index);
      LineEndLies(code, index, key);
      return Some(Token(Comment, code[index..stop]));
    }
    if HasBlockComments(key) && OccursAt(code, "/*", index) {
      BlockLies(code, index);
      return Some(Token(Comment, code[index..ClosingIndex2(code, index, "*/")]));
    }
    var quote := code[index];
    if IsQuote(quote) {
      var end;
      if Triple(code, index, key) {
        TripleLies(code, index, key);
        end := ClosingIndex3(code, index);
      } else {
        end := ClosingQuote(code, index + 1, quote);
      }
      return Some(Token(String, code[index..end]));
    }
    if StartsNumber(code, index) {
      return Some(Token(Number, code[index..NumberEnd(code, index)]));
    }
    if StartsName(quote) {
      var end := RunEnd(code, index, IsNameChar);
      NameLies(code, index);
      var value := code[index..end];
      if value in keywords {
        return Some(Token(Keyword, value));
      } else if Called(code, end) {
        return Some(Token(Function, value));
      } else if IsUpper(quote) {
        return Some(Token(TypeName, value));
      } else {
        return Some(Token(Unstyled, value));
      }
    }
    return None;
  }

  lemma BlockLies(code: string, i: nat)
    requires OccursAt(code, "/*", i)
    ensures i < ClosingIndex2(code, i, "*/") <= |code|
  {
  }

  lemma TripleLies(code: string, i: nat, key: string)
    requires i < |code| && Triple(code, i, key)
    ensures i < ClosingIndex3(code, i) <= |code|
  {
  }

  lemma NameLies(code: string, i: nat)
    requires i < |code| && StartsName(code[i])
    ensures i < RunEnd(code, i, IsNameChar)
  {
  }

  /** A line comment is not empty: its marker is no line end. */
  lemma LineEndLies(code: string, i: nat, key: string)
    requires OccursAt(code, LineComment(key), i)
    ensures i < LineEnd(code, i) <= |code|
  {
    var marker := LineComment(key);
    assert code[i] == code[i..i + |marker|][0] == marker[0];
  }

  // ----- The tokens of style sheets -----

  /** The end of a declaration's property with its colon, white space included. */
  function PropertyEnd(code: string, i: nat): (end: Option<nat>)
    requires i <= |code|
    ensures end.Some? ==> i < end.value <= |code|
  {
    match SomeRunEnd(code, RunEnd(code, i, IsSpace), c => IsLetter(c) || c == '-')
    case None => None
    case Some(name) =>
      var colon := RunEnd(code, name, IsSpace);
      if At(code, colon, c => c == ':') then Some(colon + 1) else None
  }

  const UNITS := ["px", "rem", "em", "%", "vh", "vw", "s", "ms", "deg"]

  function UnitEnd(code: string, i: nat, units: seq<string>): (end: nat)
    requires i <= |code|
    ensures i <= end <= |code|
  {
    if units == [] then i
    else if OccursAt(code, units[0], i) then i + |units[0]|
    else UnitEnd(code, i, units[1..])
  }

  function QuantityEnd(code: string, i: nat): (end: Option<nat>)
    requires i < |code|
    ensures end.Some? ==> i < end.value <= |code|
  {
    var start := if code[i] == '-' then i + 1 else i;
    if !At(code, start, IsDigit) then None
    else Some(UnitEnd(code, RunEnd(code, start + 1, c => IsDigit(c) || c == '.'), UNITS))
  }

  predicate After(code: string, i: nat, p: char -> bool)
    requires i <= |code|
  {
    i == 0 || p(code[i - 1])
  }

  predicate StartsProperty(code: string, i: nat)
    requires i < |code|
  {
    PropertyEnd(code, i).Some? && After(code, i, c => c == '{' || c == ';' || c == '\n')
  }

  predicate StartsQuantity(code: string, i: nat)
    requires i < |code|
  {
    QuantityEnd(code, i).Some? && After(code, i, c => IsSpace(c) || c == ':' || c == '(' || c == ',')
  }

  predicate StartsCssToken(code: string, i: nat)
    requires i < |code|
  {
    OccursAt(code, "/*", i) || code[i] == '"' || code[i] == '\'' || StartsProperty(code, i) || StartsQuantity(code, i)
  }

  ghost predicate CssToken(code: string, i: nat, t: Token) {
    var end := i + |t.value|;
    && i < end <= |code| && t.value == code[i..end]
    && if OccursAt(code, "/*", i) then t.kind == Comment && end == ClosingIndex2(code, i, "*/")
       else if code[i] == '"' || code[i] == '\'' then t.kind == String && EndsString(code, i + 1, code[i], end)
       else if StartsProperty(code, i) then t.kind == Attribute && PropertyEnd(code, i) == Some(end)
       else StartsQuantity(code, i) && t.kind == Number && QuantityEnd(code, i) == Some(end)
  }

  /** One round of the loop of `tokenizeCss`, as far as it does not collect plain text. */
  method NextCssToken(code: string, index: nat) returns (token: Option<Token>)
    requires index < |code|
    ensures token.Some? <==> StartsCssToken(code, index)
    ensures token.Some? ==> CssToken(code, index, token.value)
  {
    if OccursAt(code, "/*", index) {
      return Some(Token(Comment, code[index..ClosingIndex2(code, index, "*/")]));
    }
    var character := code[index];
    if character == '"' || character == '\'' {
      var end := ClosingQuote(code, index + 1, character);
      return Some(Token(String, code[index..end]));
    }
    if StartsProperty(code, index) {
      return Some(Token(Attribute, code[index..PropertyEnd(code, index).value]));
    }
    if StartsQuantity(code, index) {
      return Some(Token(Number, code[index..QuantityEnd(code, index).value]));
    }
    return None;
  }

  // ----- The two loops -----

  datatype Language = Program(key: string, keywords: set<string>) | StyleSheet

  ghost predicate TokenAt(language: Language, code: string, i: nat, t: Token) {
    match language
    case Program(key, keywords) => CodeToken(code, i, key, keywords, t)
    case StyleSheet => CssToken(code, i, t)
  }

  predicate StartsToken(language: Language, code: string, i: nat)
    requires i < |code|
  {
    match language
    case Program(key, _) => StartsCodeToken(code, i, key)
    case StyleSheet => StartsCssToken(code, i)
  }

  /** No token begins within the text. */
  predicate PlainText(language: Language, code: string, from: nat, to: nat) {
    from <= to <= |code| && forall i :: from <= i < to ==> !StartsToken(language, code, i)
  }

  /**
   Every token begins where the tokens before it end, and is either of the right kind and extent or plain
   text in which no token begins.
   */
  ghost predicate Placed(language: Language, code: string, tokens: seq<Token>) {
    forall k :: 0 <= k < |tokens| ==> Fits(language, code, |Joined(tokens[..k])|, tokens[k])
  }

  ghost predicate Fits(language: Language, code: string, i: nat, t: Token) {
    TokenAt(language, code, i, t) || (t.kind == Unstyled && PlainText(language, code, i, i + |t.value|))
  }

  lemma NoTokens(language: Language, code: string)
    ensures Joined([]) == "" && Placed(language, code, []) && NoneEmpty([]) && PlainText(language, code, 0, 0)
  {
  }

  lemma PlacedSnoc(language: Language, code: string, tokens: seq<Token>, t: Token)
    requires Placed(language, code, tokens) && Fits(language, code, |Joined(tokens)|, t)
    ensures Placed(language, code, tokens + [t])
  {
    hide Fits;
    var more := tokens + [t];
    forall k | 0 <= k < |more| ensures more[..k] == tokens[..k] { }
    assert tokens[..|tokens|] == tokens;
  }

  lemma TokenLies(language: Language, code: string, i: nat, t: Token)
    requires TokenAt(language, code, i, t)
    ensures i < i + |t.value| <= |code| && t.value == code[i..i + |t.value|]
  {
  }

  /** Adding the collected plain text, and then the token found at `index`. */
  function Pushed(tokens: seq<Token>, plain: string, t: Token): seq<Token> {
    Flush(tokens, plain) + [t]
  }

  lemma FlushKeeps(language: Language, code: string, tokens: seq<Token>, plain: string)
    requires NoneEmpty(tokens) && Placed(language, code, tokens)
    requires PlainText(language, code, |Joined(tokens)|, |Joined(tokens)| + |plain|)
    ensures var r := Flush(tokens, plain);
            Joined(r) == Joined(tokens) + plain && NoneEmpty(r) && Placed(language, code, r)
  {
    PlacedSnoc(language, code, tokens, Token(Unstyled, plain));
  }

  lemma PushedKeeps(language: Language, code: string, index: nat, tokens: seq<Token>, plain: string, t: Token)
    requires index <= |code| && Joined(tokens) + plain == code[..index] && NoneEmpty(tokens)
            && Placed(language, code, tokens)
    requires PlainText(language, code, index - |plain|, index) && TokenAt(language, code, index, t)
    ensures var end := index + |t.value|;
            && index < end <= |code| && Joined(Pushed(tokens, plain, t)) == code[..end]
            && NoneEmpty(Pushed(tokens, plain, t)) && Placed(language, code, Pushed(tokens, plain, t))
            && PlainText(language, code, end, end)
  {
    hide Joined, Flush, CodeToken, CssToken, StartsToken, Placed;
    TokenLies(language, code, index, t);
    hide TokenAt;
    assert |Joined(tokens)| + |plain| == index;
    FlushKeeps(language, code, tokens, plain);
    PlacedSnoc(language, code, Flush(tokens, plain), t);
    JoinedSnoc(Flush(tokens, plain), t);
    var end := index + |t.value|;
    assert code[..end] == code[..index] + code[index..end];
  }

  /** `tokenizeCode`: lossless on every input, no token empty and none overlooked. */
  method TokenizeCode(code: string, key: string, keywords: set<string>) returns (tokens: seq<Token>)
    ensures Joined(tokens) == code && NoneEmpty(tokens) && Placed(Program(key, keywords), code, tokens)
  {
    hide Joined, Placed, Flush, Pushed, CodeToken, StartsCodeToken;
    tokens := [];
    var index := 0;
    var plain := "";
    NoTokens(Program(key, keywords), code);
    while index < |code|
      invariant 0 <= index <= |code| && Joined(tokens) + plain == code[..index]
      invariant NoneEmpty(tokens) && Placed(Program(key, keywords), code, tokens)
      invariant |plain| <= index && PlainText(Program(key, keywords), code, index - |plain|, index)
    {
      var token := NextCodeToken(code, index, key, keywords);
      if token.Some? {
        PushedKeeps(Program(key, keywords), code, index, tokens, plain, token.value);
        tokens := Pushed(tokens, plain, token.value);
        plain := "";
        index := index + |token.value.value|;
        assert Joined(tokens) + plain == Joined(tokens);
      } else {
        assert code[..index + 1] == code[..index] + [code[index]];
        plain := plain + [code[index]];
        index := index + 1;
      }
    }
    assert code[..|code|] == code;
    assert |Joined(tokens)| + |plain| == |code|;
    tokens := FlushLast(Program(key, keywords), code, tokens, plain);
  }

  method FlushLast(language: Language, code: string, tokens: seq<Token>, plain: string) returns (r: seq<Token>)
    requires NoneEmpty(tokens) && Placed(language, code, tokens)
    requires PlainText(language, code, |Joined(tokens)|, |Joined(tokens)| + |plain|)
    ensures Joined(r) == Joined(tokens) + plain && NoneEmpty(r) && Placed(language, code, r)
  {
    FlushKeeps(language, code, tokens, plain);
    r := Flush(tokens, plain);
  }

  /** `tokenizeCss`: likewise. */
  method TokenizeCss(code: string) returns (tokens: seq<Token>)
    ensures Joined(tokens) == code && NoneEmpty(tokens) && Placed(StyleSheet, code, tokens)
  {
    hide Joined, Placed, Flush, Pushed, CssToken, StartsCssToken;
    tokens := [];
    var index := 0;
    var plain := "";
    NoTokens(StyleSheet, code);
    while index < |code|
      invariant 0 <= index <= |code| && Joined(tokens) + plain == code[..index]
      invariant NoneEmpty(tokens) && Placed(StyleSheet, code, tokens)
      invariant |plain| <= index && PlainText(StyleSheet, code, index - |plain|, index)
    {
      var token := NextCssToken(code, index);
      if token.Some? {
        PushedKeeps(StyleSheet, code, index, tokens, plain, token.value);
        tokens := Pushed(tokens, plain, token.value);
        plain := "";
        index := index + |token.value.value|;
        assert Joined(tokens) + plain == Joined(tokens);
      } else {
        assert code[..index + 1] == code[..index] + [code[index]];
        plain := plain + [code[index]];
        index := index + 1;
      }
    }
    assert code[..|code|] == code;
    assert |Joined(tokens)| + |plain| == |code|;
    tokens := FlushLast(StyleSheet, code, tokens, plain);
  }

  // ----- Markup -----

  /** The end of a quoted attribute value that begins at `i`. */
  function QuotedEnd(s: string, i: nat): (end: Option<nat>)
    ensures end.Some? ==> i + 2 <= end.value <= |s|
  {
    if i < |s| && (s[i] == '"' || s[i] == '\'') then
      match FindText(s, [s[i]], i + 1)
      case None => None
      case Some(close) => Some(close + 1)
    else None
  }

  function FirstQuoted(s: string, from: nat): (r: Option<(nat, nat)>)
    ensures r.Some? ==> from <= r.value.0 && QuotedEnd(s, r.value.0) == Some(r.value.1)
    ensures forall i: nat :: from <= i && QuotedEnd(s, i).Some? ==> r.Some? && r.value.0 <= i
    decreases |s| - from
  {
    match QuotedEnd(s, from)
    case Some(end) => Some((from, end))
    case None => if from < |s| then FirstQuoted(s, from + 1) else None
  }

  /** The end of the bracket, the slash and the name at the start of a tag. */
  function TagNameEnd(tag: string): (end: Option<nat>)
    requires tag != "" && tag[0] == '<'
    ensures end.Some? ==> 1 < end.value <= |tag|
  {
    var slash := if At(tag, 1, c => c == '/') then 2 else 1;
    var name := RunEnd(tag, slash, IsSpace);
    if At(tag, name, IsLetter) then Some(RunEnd(tag, name + 1, c => IsWordChar(c) || c == ':' || c == '-')) else None
  }

  predicate OpensTag(code: string, i: nat) {
    i < |code| && code[i] == '<' && !OccursAt(code, "<!--", i)
  }

  /** A tag is the text up to its bracket, or the rest of the code. */
  function TagText(code: string, start: nat): (tag: string)
    requires OpensTag(code, start)
    ensures tag != "" && tag[0] == '<'
  {
    ClosingIndexLies(code, start, ">");
    code[start..ClosingIndex(code, start, ">")]
  }

  /** The length of the tag's bracket and name; a tag without a name is all of it. */
  function HeadLength(tag: string): (n: nat)
    requires tag != "" && tag[0] == '<'
    ensures 0 < n <= |tag|
  {
    match TagNameEnd(tag)
    case Some(end) => end
    case None => |tag|
  }

  /** A quoted value in a tag's inside, or all that lies between two of them. */
  ghost predicate Part(inside: string, i: nat, t: Token) {
    var end := i + |t.value|;
    && i < end <= |inside| && t.value == inside[i..end]
    && if QuotedEnd(inside, i).Some? then t.kind == String && QuotedEnd(inside, i) == Some(end)
       else
         && (forall j :: i <= j < end ==> QuotedEnd(inside, j).None?)
         && (end == |inside| || QuotedEnd(inside, end).Some?)
         && t.kind == if IsValueQuote(inside[i]) then String else Attribute
  }

  predicate IsValueQuote(c: char) {
    c == '"' || c == '\''
  }

  /** Behind the tag's head that is `before[h]`, the token is the next part of the tag's inside. */
  ghost predicate PartOfTag(code: string, before: seq<Token>, h: nat, t: Token) {
    && h < |before| && before[h].kind == Tag && OpensTag(code, |Joined(before[..h])|)
    && var start := |Joined(before[..h])|;
       var tag := TagText(code, start);
       var n := HeadLength(tag);
       start + n <= |Joined(before)| && Part(tag[n..], |Joined(before)| - start - n, t)
  }

  /** The text up to the next bracket or the end of the code. */
  predicate BeforeTag(code: string, from: nat, to: nat) {
    && from < to <= |code| && (to == |code| || code[to] == '<')
    && forall j :: from <= j < to ==> code[j] != '<'
  }

  /** What a token of a markup text is, at its place behind the tokens before it. */
  ghost predicate MarkupFits(code: string, before: seq<Token>, t: Token) {
    var i := |Joined(before)|;
    var end := i + |t.value|;
    match t.kind
    case Unstyled => BeforeTag(code, i, end)
    case Comment => OccursAt(code, "<!--", i) && end == ClosingIndex(code, i, "-->")
    case Tag => OpensTag(code, i) && end == i + HeadLength(TagText(code, i))
    case String => exists h: nat :: PartOfTag(code, before, h, t)
    case Attribute => exists h: nat :: PartOfTag(code, before, h, t)
    case _ => false
  }

  ghost predicate MarkupPlaced(code: string, tokens: seq<Token>) {
    forall k :: 0 <= k < |tokens| ==> MarkupFits(code, tokens[..k], tokens[k])
  }

  lemma MarkupSnoc(code: string, tokens: seq<Token>, t: Token)
    requires MarkupPlaced(code, tokens) && MarkupFits(code, tokens, t)
    ensures MarkupPlaced(code, tokens + [t])
  {
    hide MarkupFits;
    var more := tokens + [t];
    forall k | 0 <= k < |more| ensures more[..k] == tokens[..k] { }
    assert tokens[..|tokens|] == tokens;
  }

  /** The tag whose head is `tokens[h]`, with its inside cut up to `index`. */
  ghost predicate Cutting(code: string, tokens: seq<Token>, h: nat, inside: string, index: nat) {
    && NoneEmpty(tokens) && MarkupPlaced(code, tokens)
    && h < |tokens| && tokens[h].kind == Tag && OpensTag(code, |Joined(tokens[..h])|)
    && var start := |Joined(tokens[..h])|;
       var tag := TagText(code, start);
       inside == tag[HeadLength(tag)..] && |Joined(tokens)| == start + HeadLength(tag) + index
  }

  lemma CutOnce(code: string, tokens: seq<Token>, h: nat, inside: string, index: nat, t: Token)
    requires Cutting(code, tokens, h, inside, index) && Part(inside, index, t)
    ensures Cutting(code, tokens + [t], h, inside, index + |t.value|)
  {
    hide Part, TagText, HeadLength, MarkupPlaced;
    KindOfPart(inside, index, t);
    assert PartOfTag(code, tokens, h, t);
    hide PartOfTag;
    MarkupSnoc(code, tokens, t);
    JoinedSnoc(tokens, t);
    assert (tokens + [t])[..h] == tokens[..h];
  }

  lemma KindOfPart(inside: string, i: nat, t: Token)
    requires Part(inside, i, t)
    ensures (t.kind == String || t.kind == Attribute) && t.value != ""
  {
  }

  /** The inside of a tag, cut at its quoted values; empty parts are left out. */
  method PushParts(tokens: seq<Token>, remainder: string, ghost code: string, ghost h: nat) returns (r: seq<Token>)
    requires Cutting(code, tokens, h, remainder, 0)
    ensures Joined(r) == Joined(tokens) + remainder && NoneEmpty(r) && MarkupPlaced(code, r)
  {
    hide Joined, FirstQuoted, NoneEmpty, QuotedEnd, Part, Cutting;
    r := tokens;
    var index := 0;
    while index < |remainder|
      invariant 0 <= index <= |remainder| && Joined(r) == Joined(tokens) + remainder[..index]
      invariant Cutting(code, r, h, remainder, index)
    {
      var quoted := FirstQuoted(remainder, index);
      var (start, end) := if quoted.Some? then quoted.value else (|remainder|, |remainder|);
      PlainPart(remainder, index, start);
      QuotedPart(remainder, start, end);
      r := PushPart(r, remainder[index..start], code, h, remainder, index);
      r := PushPart(r, remainder[start..end], code, h, remainder, start);
      assert remainder[..end] == remainder[..index] + remainder[index..start] + remainder[start..end];
      index := end;
    }
    assert remainder[..|remainder|] == remainder;
    CutIsPlaced(code, r, h, remainder, index);
  }

  lemma CutIsPlaced(code: string, tokens: seq<Token>, h: nat, inside: string, index: nat)
    requires Cutting(code, tokens, h, inside, index)
    ensures NoneEmpty(tokens) && MarkupPlaced(code, tokens)
  {
  }

  function PartToken(part: string): Token
    requires part != ""
  {
    Token(if IsValueQuote(part[0]) then String else Attribute, part)
  }

  lemma PlainPart(inside: string, from: nat, to: nat)
    requires from <= to <= |inside| && forall j :: from <= j < to ==> QuotedEnd(inside, j).None?
    requires to == |inside| || QuotedEnd(inside, to).Some?
    ensures from < to ==> Part(inside, from, PartToken(inside[from..to]))
  {
    hide QuotedEnd;
  }

  lemma QuotedPart(inside: string, from: nat, to: nat)
    requires from == to == |inside| || QuotedEnd(inside, from) == Some(to)
    ensures from < to ==> to <= |inside| && Part(inside, from, PartToken(inside[from..to]))
  {
  }

  method PushPart(tokens: seq<Token>, part: string, ghost code: string, ghost h: nat, ghost inside: string,
                  ghost index: nat)
    returns (r: seq<Token>)
    requires Cutting(code, tokens, h, inside, index) && (part != "" ==> Part(inside, index, PartToken(part)))
    ensures Joined(r) == Joined(tokens) + part && Cutting(code, r, h, inside, index + |part|)
  {
    hide Joined, Part, Cutting;
    if part == "" {
      return tokens;
    }
    CutOnce(code, tokens, h, inside, index, PartToken(part));
    JoinedSnoc(tokens, PartToken(part));
    return tokens + [PartToken(part)];
  }

  /** The tokens of the comment or tag that begins at `start`. */
  method PushTag(code: string, start: nat, tokens: seq<Token>) returns (stop: nat, r: seq<Token>)
    requires start < |code| && code[start] == '<' && Joined(tokens) == code[..start]
    requires NoneEmpty(tokens) && MarkupPlaced(code, tokens)
    ensures start < stop <= |code| && Joined(r) == code[..stop] && NoneEmpty(r) && MarkupPlaced(code, r)
  {
    hide Joined, ClosingIndex, NoneEmpty, MarkupPlaced, TagNameEnd;
    if OccursAt(code, "<!--", start) {
      stop := ClosingIndex(code, start, "-->");
      ClosingIndexLies(code, start, "-->");
      assert code[..stop] == code[..start] + code[start..stop];
      r := Pushing(tokens, Token(Comment, code[start..stop]));
      MarkupSnoc(code, tokens, Token(Comment, code[start..stop]));
      return;
    }
    stop := ClosingIndex(code, start, ">");
    ClosingIndexLies(code, start, ">");
    var tag := code[start..stop];
    var name := TagNameEnd(tag);
    ghost var n := HeadLength(tag);
    assert code[..stop] == code[..start] + tag;
    assert tag == tag[..n] + tag[n..];
    HeadFits(code, start, tokens);
    if name.Some? {
      r := Pushing(tokens, Token(Tag, tag[..name.value]));
      r := PushParts(r, tag[name.value..], code, |tokens|);
    } else {
      r := Pushing(tokens, Token(Tag, tag));
      assert tag[..n] == tag;
      CutIsPlaced(code, r, |tokens|, tag[n..], 0);
    }
  }

  /** The tag's head is a token, and its inside is still to be cut. */
  lemma HeadFits(code: string, start: nat, tokens: seq<Token>)
    requires OpensTag(code, start) && Joined(tokens) == code[..start] && NoneEmpty(tokens) && MarkupPlaced(code, tokens)
    ensures var tag := TagText(code, start);
            var n := HeadLength(tag);
            Cutting(code, tokens + [Token(Tag, tag[..n])], |tokens|, tag[n..], 0)
  {
    hide Joined, MarkupPlaced, TagText, HeadLength;
    var tag := TagText(code, start);
    var t := Token(Tag, tag[..HeadLength(tag)]);
    MarkupSnoc(code, tokens, t);
    JoinedSnoc(tokens, t);
    assert (tokens + [t])[..|tokens|] == tokens;
  }

  /**
   `tokenizeMarkup`: lossless on every input, no token empty, and every token is, at its place, a comment,
   the head of a tag, a quoted value or what lies between two in a tag, or the text up to the next bracket.
   */
  method TokenizeMarkup(code: string) returns (tokens: seq<Token>)
    ensures Joined(tokens) == code && NoneEmpty(tokens) && MarkupPlaced(code, tokens)
  {
    hide Joined, NoneEmpty, FindText, MarkupPlaced;
    tokens := [];
    var index := 0;
    NoMarkup(code);
    while index < |code|
      invariant 0 <= index <= |code| && Joined(tokens) == code[..index] && NoneEmpty(tokens)
              && MarkupPlaced(code, tokens)
    {
      var found := FindText(code, "<", index);
      NextBracket(code, index);
      if found.None? {
        assert code == code[..index] + code[index..];
        MarkupSnoc(code, tokens, Token(Unstyled, code[index..]));
        tokens := Pushing(tokens, Token(Unstyled, code[index..]));
        return;
      }
      var start := found.value;
      assert code[..start] == code[..index] + code[index..start];
      if start > index {
        MarkupSnoc(code, tokens, Token(Unstyled, code[index..start]));
        tokens := Pushing(tokens, Token(Unstyled, code[index..start]));
      }
      index, tokens := PushTag(code, start, tokens);
    }
    assert code[..|code|] == code;
  }

  lemma NoMarkup(code: string)
    ensures Joined([]) == "" && NoneEmpty([]) && MarkupPlaced(code, [])
  {
  }

  lemma NextBracket(code: string, index: nat)
    requires index < |code|
    ensures match FindText(code, "<", index)
            case None => BeforeTag(code, index, |code|)
            case Some(start) =>
              && index <= start < |code| && code[start] == '<'
              && (index < start ==> BeforeTag(code, index, start))
  {
    hide FindText;
    forall j | index <= j < |code| && code[j] == '<' ensures OccursAt(code, "<", j) { assert code[j..j + 1] == "<"; }
  }

  function Pushing(tokens: seq<Token>, t: Token): (r: seq<Token>)
    requires t.value != ""
    ensures Joined(r) == Joined(tokens) + t.value
    ensures NoneEmpty(tokens) ==> NoneEmpty(r)
  {
    JoinedSnoc(tokens, t);
    tokens + [t]
  }

  lemma ClosingIndexLies(code: string, from: nat, marker: string)
    requires from < |code| && marker != ""
    ensures from < ClosingIndex(code, from, marker)
  {
  }

  /** `highlightInto`: whatever the language, the text on the page is the code. */
  method Highlight(code: string, key: string, keywords: set<string>) returns (tokens: seq<Token>)
    ensures Joined(tokens) == code
    ensures if key == "" || |code| > 40000 then tokens == [Token(Unstyled, code)]
            else && NoneEmpty(tokens)
                 && if key == "markup" then MarkupPlaced(code, tokens)
                    else Placed(if key == "css" then StyleSheet else Program(key, keywords), code, tokens)
  {
    if key == "" || |code| > 40000 {
      JoinedSnoc([], Token(Unstyled, code));
      return [Token(Unstyled, code)];
    }
    if key == "markup" {
      tokens := TokenizeMarkup(code);
    } else if key == "css" {
      tokens := TokenizeCss(code);
    } else {
      tokens := TokenizeCode(code, key, keywords);
    }
  }
}
