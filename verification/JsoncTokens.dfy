/** What the comment stripper does to a text given piece by piece: string literals, comments and everything else. */
module JsoncTokens {
  import opened Jsonc
  import opened Sequences

  /** A piece of a string literal: one character, or a backslash and the character it escapes. */
  datatype Unit = Simple(c: char) | Escape(c: char)

  datatype Token =
    | Literal(units: seq<Unit>)      // between its quotes
    | LineComment(text: string)      // up to the newline that ends it
    | BlockComment(text: string)     // between its marks
    | Other(c: char)

  function UnitText(u: Unit): string {
    match u
    case Simple(c) => [c]
    case Escape(c) => ['\\'] + [c]
  }

  function UnitsText(units: seq<Unit>): string {
    if units == [] then [] else UnitText(units[0]) + UnitsText(units[1..])
  }

  function TokenText(t: Token): string {
    match t
    case Literal(units) => "\"" + UnitsText(units) + "\""
    case LineComment(text) => "//" + text + "\n"
    case BlockComment(text) => "/*" + text + "*/"
    case Other(c) => [c]
  }

  function Written(tokens: seq<Token>): string {
    if tokens == [] then [] else TokenText(tokens[0]) + Written(tokens[1..])
  }

  /** The pieces are what they are called: no bare quote or backslash in a literal, no newline in a line comment, no
      closing mark in a block comment. */
  ghost predicate IsToken(t: Token) {
    match t
    case Literal(units) => forall u :: u in units && u.Simple? ==> u.c != '"' && u.c != '\\'
    case LineComment(text) => forall i :: 0 <= i < |text| ==> text[i] != '\n'
    case BlockComment(text) => forall i :: 0 < i < |text| && text[i] == '/' ==> text[i - 1] != '*'
    case Other(c) => c != '"'
  }

  /** The text does not turn a slash before it into a comment. */
  predicate Harmless(s: string) {
    s != [] ==> s[0] != '/' && s[0] != '*'
  }

  /** No slash of its own stands before a slash or a star. */
  predicate Apart(tokens: seq<Token>, rest: string) {
    tokens != [] ==>
      (tokens[0] == Other('/') ==> Harmless(Written(tokens[1..]) + rest)) && Apart(tokens[1..], rest)
  }

  /** What is kept of a piece: literals and other characters as they are, the newline after a line comment, the
      newlines of a block comment. */
  function Kept(t: Token): string {
    match t
    case Literal(_) => TokenText(t)
    case LineComment(_) => "\n"
    case BlockComment(text) => seq(Count(text), _ => '\n')
    case Other(c) => [c]
  }

  function Count(text: string): nat {
    if text == [] then 0 else (if text[0] == '\n' then 1 else 0) + Count(text[1..])
  }

  function AllKept(tokens: seq<Token>): string {
    if tokens == [] then [] else Kept(tokens[0]) + AllKept(tokens[1..])
  }

  // ----- one piece -----

  lemma {:induction false} UnitsAreRest(units: seq<Unit>, rest: string)
    requires forall u :: u in units && u.Simple? ==> u.c != '"' && u.c != '\\'
    ensures LiteralRest(UnitsText(units) + ("\"" + rest)) == |UnitsText(units)| + 1
  {
    var s := UnitsText(units) + ("\"" + rest);
    if units == [] {
      assert s[0] == '"';
    } else {
      var u := units[0];
      assert u in units;
      UnitsAreRest(units[1..], rest);
      var tail := UnitsText(units[1..]) + ("\"" + rest);
      assert s == UnitText(u) + tail;
      if u.Simple? {
        assert s[0] == u.c && s[1..] == tail;
      } else {
        assert s[0] == '\\' && s[2..] == tail;
      }
    }
  }

  lemma LiteralStripped(units: seq<Unit>, rest: string)
    requires IsToken(Literal(units))
    ensures Strip(TokenText(Literal(units)) + rest) == TokenText(Literal(units)) + Strip(rest)
  {
    var inner := UnitsText(units);
    var s := TokenText(Literal(units)) + rest;
    UnitsAreRest(units, rest);
    assert s[0] == '"' && s[1..] == inner + ("\"" + rest);
    assert s[..|inner| + 2] == TokenText(Literal(units)) && s[|inner| + 2..] == rest;
  }

  lemma {:induction false} LineRestIs(text: string, rest: string)
    requires forall i :: 0 <= i < |text| ==> text[i] != '\n'
    ensures LineRest(text + ("\n" + rest)) == |text|
  {
    var s := text + ("\n" + rest);
    if text == [] {
      assert s[0] == '\n';
    } else {
      LineRestIs(text[1..], rest);
      assert s[0] == text[0] && s[1..] == text[1..] + ("\n" + rest);
    }
  }

  lemma LineStripped(text: string, rest: string)
    requires IsToken(LineComment(text))
    ensures Strip(TokenText(LineComment(text)) + rest) == "\n" + Strip(rest)
  {
    var s, tail := TokenText(LineComment(text)) + rest, "\n" + rest;
    LineRestIs(text, rest);
    assert s[0] == '/' && s[1] == '/' && s[2..] == text + tail;
    assert s[2 + |text|..] == tail;
    assert tail[0] == '\n' && tail[1..] == rest;
    assert Strip(tail) == ['\n'] + Strip(rest);
  }

  lemma {:induction false} BlockRestIs(text: string, rest: string)
    requires IsToken(BlockComment(text))
    ensures BlockRest(text + ("*/" + rest)) == |text| + 2
  {
    var s := text + ("*/" + rest);
    if text == [] {
      assert s[0] == '*' && s[1] == '/';
    } else {
      assert s[0] == text[0] && s[1] == if |text| > 1 then text[1] else '*';
      assert s[1..] == text[1..] + ("*/" + rest);
      BlockRestIs(text[1..], rest);
    }
  }

  lemma {:induction false} NewlinesAreCounted(text: string)
    ensures Newlines(text) == seq(Count(text), _ => '\n')
  {
    if text != [] {
      NewlinesAreCounted(text[1..]);
    }
  }

  lemma BlockStripped(text: string, rest: string)
    requires IsToken(BlockComment(text))
    ensures Strip(TokenText(BlockComment(text)) + rest) == Kept(BlockComment(text)) + Strip(rest)
  {
    var s := TokenText(BlockComment(text)) + rest;
    BlockRestIs(text, rest);
    assert s[0] == '/' && s[1] == '*' && s[2..] == text + ("*/" + rest);
    assert s[2..2 + (|text| + 2)] == text + "*/" && s[2 + (|text| + 2)..] == rest;
    NewlinesConcat(text, "*/");
    assert "*/"[1..] == "/" && "/"[1..] == [];
    assert Newlines(text) + [] == Newlines(text);
    NewlinesAreCounted(text);
  }

  lemma OtherStripped(c: char, rest: string)
    requires c != '"' && (c == '/' ==> Harmless(rest))
    ensures Strip([c] + rest) == [c] + Strip(rest)
  {
    var s := [c] + rest;
    assert s[0] == c && s[1..] == rest;
    assert |s| >= 2 ==> s[1] == rest[0];
  }

  // ----- the whole text -----

  /** Literals and plain characters come out as they are, comments as their newlines, one after the other. */
  lemma {:induction false} TokensStripped(tokens: seq<Token>, rest: string)
    requires (forall t :: t in tokens ==> IsToken(t)) && Apart(tokens, rest)
    ensures Strip(Written(tokens) + rest) == AllKept(tokens) + Strip(rest)
  {
    if tokens == [] {
      assert Written(tokens) + rest == rest && AllKept(tokens) + Strip(rest) == Strip(rest);
    } else {
      var t, tail := tokens[0], Written(tokens[1..]) + rest;
      assert t in tokens;
      TokensStripped(tokens[1..], rest);
      Associative(TokenText(t), Written(tokens[1..]), rest);
      match t {
        case Literal(units) => LiteralStripped(units, tail);
        case LineComment(text) => LineStripped(text, tail);
        case BlockComment(text) => BlockStripped(text, tail);
        case Other(c) => OtherStripped(c, tail);
      }
      Associative(Kept(t), AllKept(tokens[1..]), Strip(rest));
    }
  }

  // ----- a text that ends inside a piece -----

  lemma {:induction false} NoEnd(text: string)
    ensures '\n' !in text ==> LineRest(text) == |text|
    ensures IsToken(BlockComment(text)) ==> BlockRest(text) == |text|
  {
    if text != [] {
      NoEnd(text[1..]);
      assert text == [text[0]] + text[1..];
    }
  }

  lemma {:induction false} UnitsAreAll(units: seq<Unit>)
    requires forall u :: u in units && u.Simple? ==> u.c != '"' && u.c != '\\'
    ensures LiteralRest(UnitsText(units)) == |UnitsText(units)|
  {
    if units != [] {
      var u := units[0];
      assert u in units;
      UnitsAreAll(units[1..]);
      var s, tail := UnitsText(units), UnitsText(units[1..]);
      assert s == UnitText(u) + tail;
      assert if u.Simple? then s[0] == u.c && s[1..] == tail else s[0] == '\\' && s[2..] == tail;
    }
  }

  /** A line comment, a block comment or a literal that is not closed goes on to the end of the text. */
  lemma UnclosedLineStripped(text: string)
    requires '\n' !in text
    ensures Strip("//" + text) == []
  {
    var s := "//" + text;
    NoEnd(text);
    assert s[0] == '/' && s[1] == '/' && s[2..] == text && s[2 + |text|..] == [];
  }

  lemma UnclosedBlockStripped(text: string)
    requires IsToken(BlockComment(text))
    ensures Strip("/*" + text) == seq(Count(text), _ => '\n')
  {
    var s := "/*" + text;
    NoEnd(text);
    NewlinesAreCounted(text);
    assert s[0] == '/' && s[1] == '*' && s[2..] == text && s[2..2 + |text|] == text && s[2 + |text|..] == [];
    assert Newlines(text) + [] == Newlines(text);
  }

  lemma UnclosedLiteralStripped(units: seq<Unit>)
    requires IsToken(Literal(units))
    ensures Strip("\"" + UnitsText(units)) == "\"" + UnitsText(units)
  {
    var s := "\"" + UnitsText(units);
    UnitsAreAll(units);
    assert s[0] == '"' && s[1..] == UnitsText(units) && s[..|s|] == s && s[|s|..] == [] && s + [] == s;
  }
}
