/** The comment stripper of the configuration loader: a four-flag character automaton, proved equal to a
    grammar of strings, line comments, block comments and plain text. */
module Jsonc {
  import opened Sequences

  // ----- the grammar -----

  /** The length of the rest of a string literal, its closing quote included if there is one (section 7 of
      RFC 8259; a backslash escapes the next character). */
  function LiteralRest(s: string): (n: nat)
    ensures n <= |s|
  {
    if s == [] then 0
    else if s[0] == '"' then 1
    else if s[0] == '\\' then (if |s| == 1 then 1 else 2 + LiteralRest(s[2..]))
    else 1 + LiteralRest(s[1..])
  }

  /** The length of the text of a line comment, up to but not including the newline. */
  function LineRest(s: string): (n: nat)
    ensures n <= |s|
  {
    if s == [] || s[0] == '\n' then 0 else 1 + LineRest(s[1..])
  }

  predicate Opens(s: string, second: char) {
    |s| >= 2 && s[0] == '/' && s[1] == second
  }

  predicate Closes(s: string) {
    |s| >= 2 && s[0] == '*' && s[1] == '/'
  }

  /** The length of the rest of a block comment, its closing mark included if there is one. */
  function BlockRest(s: string): (n: nat)
    ensures n <= |s|
  {
    if s == [] then 0 else if Closes(s) then 2 else 1 + BlockRest(s[1..])
  }

  function Newlines(s: string): string {
    if s == [] then [] else (if s[0] == '\n' then "\n" else "") + Newlines(s[1..])
  }

  /** The text without its comments: literals and plain characters kept, a line comment dropped up to its
      newline, a block comment replaced by the newlines in it. */
  function Strip(s: string): string
    decreases |s|
  {
    if s == [] then []
    else if s[0] == '"' then
      var n := 1 + LiteralRest(s[1..]);
      s[..n] + Strip(s[n..])
    else if Opens(s, '/') then Strip(s[2 + LineRest(s[2..])..])
    else if Opens(s, '*') then
      var n := BlockRest(s[2..]);
      Newlines(s[2..2 + n]) + Strip(s[2 + n..])
    else [s[0]] + Strip(s[1..])
  }

  // ----- the automaton -----

  datatype Mode = Plain | InString | Escaped | InLine | InBlock

  function Lookahead(s: string): string {
    if |s| >= 2 then [s[1]] else ""
  }

  /** One turn of the loop: the next mode, what is output, and how far the index moves. */
  function Next(mode: Mode, current: char, next: string): (Mode, string, nat) {
    match mode
    case Plain =>
      if current == '"' then (InString, [current], 1)
      else if current == '/' && next == "/" then (InLine, [], 2)
      else if current == '/' && next == "*" then (InBlock, [], 2)
      else (Plain, [current], 1)
    case InString => (if current == '\\' then Escaped else if current == '"' then Plain else InString, [current], 1)
    case Escaped => (InString, [current], 1)
    case InLine => if current == '\n' then (Plain, [current], 1) else (InLine, [], 1)
    case InBlock =>
      if current == '*' && next == "/" then (Plain, [], 2)
      else (InBlock, if current == '\n' then [current] else [], 1)
  }

  /** What the loop outputs from here on. */
  function Run(mode: Mode, s: string): string
    decreases |s|
  {
    if s == [] then []
    else
      var (after, output, moved) := Next(mode, s[0], Lookahead(s));
      output + Run(after, s[moved..])
  }

  /** The output so far and the output still to come make up the whole. */
  ghost predicate OnCourse(result: string, mode: Mode, text: string, index: nat) {
    index <= |text| && result + Run(mode, text[index..]) == Run(Plain, text)
  }

  lemma TurnKeeps(result: string, mode: Mode, text: string, index: nat)
    requires index < |text| && OnCourse(result, mode, text, index)
    ensures var (after, output, moved) := Next(mode, text[index], Lookahead(text[index..]));
            OnCourse(result + output, after, text, index + moved)
  {
    var s := text[index..];
    var (after, output, moved) := Next(mode, s[0], Lookahead(s));
    assert s[moved..] == text[index + moved..];
    assert (result + output) + Run(after, s[moved..]) == result + (output + Run(after, s[moved..]));
  }

  function ModeOf(inString: bool, escape: bool, lineComment: bool, blockComment: bool): Mode {
    if lineComment then InLine
    else if blockComment then InBlock
    else if inString then (if escape then Escaped else InString)
    else Plain
  }

  method StripComments(text: string) returns (result: string)
    ensures result == Strip(text)
  {
    result := [];
    var inString, escape, lineComment, blockComment := false, false, false, false;
    var index := 0;
    while index < |text|
      invariant escape ==> inString
      invariant !(lineComment && blockComment) && !(inString && (lineComment || blockComment))
      invariant OnCourse(result, ModeOf(inString, escape, lineComment, blockComment), text, index)
    {
      var current := text[index];
      var next := if index + 1 < |text| then [text[index + 1]] else "";
      ghost var turn := Next(ModeOf(inString, escape, lineComment, blockComment), current, next);
      ghost var result', index' := result + turn.1, index + turn.2;
      TurnKeeps(result, ModeOf(inString, escape, lineComment, blockComment), text, index);
      assert next == Lookahead(text[index..]);

      if lineComment {
        if current == '\n' {
          lineComment := false;
          result := result + [current];
        }
        index := index + 1;
      } else if blockComment {
        if current == '*' && next == "/" {
          blockComment := false;
          index := index + 2;
        } else {
          if current == '\n' {
            result := result + [current];
          }
          index := index + 1;
        }
      } else if inString {
        result := result + [current];
        if escape {
          escape := false;
        } else if current == '\\' {
          escape := true;
        } else if current == '"' {
          inString := false;
        }
        index := index + 1;
      } else if current == '"' {
        inString := true;
        result := result + [current];
        index := index + 1;
      } else if current == '/' && next == "/" {
        lineComment := true;
        index := index + 2;
      } else if current == '/' && next == "*" {
        blockComment := true;
        index := index + 2;
      } else {
        result := result + [current];
        index := index + 1;
      }
      assert ModeOf(inString, escape, lineComment, blockComment) == turn.0;
      assert result == result' && index == index';
    }
    RunIsStrip(text);
  }

  lemma Cut(s: string, m: nat, n: nat)
    requires m <= n <= |s|
    ensures s[..n] == s[..m] + s[m..][..n - m] && s[n..] == s[m..][n - m..] && s[m..n] == s[m..][..n - m]
  {
  }

  lemma {:induction false} RunLine(s: string)
    ensures Run(InLine, s) == Run(Plain, s[LineRest(s)..])
  {
    if s != [] && s[0] != '\n' {
      RunLine(s[1..]);
      Cut(s, 1, LineRest(s));
    }
  }

  lemma {:induction false} NewlinesConcat(a: string, b: string)
    ensures Newlines(a + b) == Newlines(a) + Newlines(b)
  {
    if a == [] {
      assert a + b == b;
    } else {
      NewlinesConcat(a[1..], b);
      assert (a + b)[1..] == a[1..] + b;
    }
  }

  lemma BlockStep(s: string)
    requires s != [] && !Closes(s)
    ensures Run(InBlock, s) == Newlines(s[..1]) + Run(InBlock, s[1..])
  {
    assert s[..1][1..] == [];
  }

  lemma BlockEnd(s: string)
    requires Closes(s)
    ensures Run(InBlock, s) == Newlines(s[..2]) + Run(Plain, s[2..])
  {
    assert s[..2][1..] == "/" && Newlines("/") == [];
  }

  lemma {:induction false} RunBlock(s: string)
    ensures var n := BlockRest(s);
            Run(InBlock, s) == Newlines(s[..n]) + Run(Plain, s[n..])
    decreases |s|
  {
    var n := BlockRest(s);
    if s == [] {
    } else if Closes(s) {
      BlockEnd(s);
    } else {
      BlockStep(s);
      RunBlock(s[1..]);
      Cut(s, 1, n);
      NewlinesConcat(s[..1], s[1..][..n - 1]);
      Associative(Newlines(s[..1]), Newlines(s[1..][..n - 1]), Run(Plain, s[n..]));
    }
  }

  lemma EscapeStep(s: string)
    requires |s| > 1 && s[0] == '\\'
    ensures Run(InString, s) == s[..2] + Run(InString, s[2..])
  {
    assert s[1..][1..] == s[2..];
    assert Run(Escaped, s[1..]) == [s[1]] + Run(InString, s[2..]);
    Associative([s[0]], [s[1]], Run(InString, s[2..]));
  }

  lemma CharStep(s: string)
    requires s != [] && s[0] != '\\'
    ensures Run(InString, s) == s[..1] + Run(if s[0] == '"' then Plain else InString, s[1..])
  {
  }

  lemma {:induction false} RunString(s: string)
    ensures var n := LiteralRest(s);
            Run(InString, s) == s[..n] + Run(Plain, s[n..])
    decreases |s|
  {
    var n := LiteralRest(s);
    if s == [] {
    } else if s[0] == '\\' {
      if |s| > 1 {
        EscapeStep(s);
        RunString(s[2..]);
        Cut(s, 2, n);
        Associative(s[..2], s[2..][..n - 2], Run(Plain, s[n..]));
      } else {
        assert Run(InString, s) == [s[0]] + Run(Escaped, s[1..]);
      }
    } else {
      CharStep(s);
      if s[0] != '"' {
        RunString(s[1..]);
        Cut(s, 1, n);
        Associative(s[..1], s[1..][..n - 1], Run(Plain, s[n..]));
      }
    }
  }

  lemma OpeningStep(s: string)
    requires s != [] && s[0] == '"'
    ensures Run(Plain, s) == s[..1] + Run(InString, s[1..])
  {
  }

  lemma LiteralIsStrip(s: string)
    requires s != [] && s[0] == '"'
    requires Run(Plain, s[1 + LiteralRest(s[1..])..]) == Strip(s[1 + LiteralRest(s[1..])..])
    ensures Run(Plain, s) == Strip(s)
  {
    var n := LiteralRest(s[1..]);
    OpeningStep(s);
    RunString(s[1..]);
    Cut(s, 1, 1 + n);
    Associative(s[..1], s[1..][..n], Strip(s[1 + n..]));
  }

  lemma CommentStep(s: string)
    requires Opens(s, '/') || Opens(s, '*')
    ensures Run(Plain, s) == Run(if s[1] == '/' then InLine else InBlock, s[2..])
  {
  }

  lemma BlockIsStrip(s: string)
    requires Opens(s, '*')
    requires Run(Plain, s[2 + BlockRest(s[2..])..]) == Strip(s[2 + BlockRest(s[2..])..])
    ensures Run(Plain, s) == Strip(s)
  {
    CommentStep(s);
    RunBlock(s[2..]);
    Cut(s, 2, 2 + BlockRest(s[2..]));
  }

  lemma LineIsStrip(s: string)
    requires Opens(s, '/')
    requires Run(Plain, s[2 + LineRest(s[2..])..]) == Strip(s[2 + LineRest(s[2..])..])
    ensures Run(Plain, s) == Strip(s)
  {
    CommentStep(s);
    RunLine(s[2..]);
    Cut(s, 2, 2 + LineRest(s[2..]));
  }

  lemma PlainIsStrip(s: string)
    requires s != [] && s[0] != '"' && !Opens(s, '/') && !Opens(s, '*')
    requires Run(Plain, s[1..]) == Strip(s[1..])
    ensures Run(Plain, s) == Strip(s)
  {
  }

  /** The automaton computes the grammar's meaning. */
  lemma {:induction false} RunIsStrip(s: string)
    ensures Run(Plain, s) == Strip(s)
    decreases |s|
  {
    if s == [] {
    } else if s[0] == '"' {
      RunIsStrip(s[1 + LiteralRest(s[1..])..]);
      LiteralIsStrip(s);
    } else if Opens(s, '/') {
      RunIsStrip(s[2 + LineRest(s[2..])..]);
      LineIsStrip(s);
    } else if Opens(s, '*') {
      RunIsStrip(s[2 + BlockRest(s[2..])..]);
      BlockIsStrip(s);
    } else {
      RunIsStrip(s[1..]);
      PlainIsStrip(s);
    }
  }

  // ----- what stripping guarantees -----

  /** Reading from plain text, no comment opens anywhere outside a string literal. */
  predicate Clean(s: string)
    decreases |s|
  {
    if s == [] then true
    else if s[0] == '"' then Clean(s[1 + LiteralRest(s[1..])..])
    else !Opens(s, '/') && !Opens(s, '*') && Clean(s[1..])
  }

  /** The string literals outside comments, character for character and in order. */
  function Literals(s: string): seq<string>
    decreases |s|
  {
    if s == [] then []
    else if s[0] == '"' then
      var n := 1 + LiteralRest(s[1..]);
      [s[..n]] + Literals(s[n..])
    else if Opens(s, '/') then Literals(s[2 + LineRest(s[2..])..])
    else if Opens(s, '*') then Literals(s[2 + BlockRest(s[2..])..])
    else Literals(s[1..])
  }

  lemma TailDropsTwo(s: string, n: nat, tail: string)
    requires 2 <= n <= |s|
    ensures var t := s[..n] + tail;
            |t| > 1 && t[0] == s[0] && t[2..] == s[2..][..n - 2] + tail
  {
  }

  /** A literal that was closed stays the same literal whatever follows it. */
  lemma {:induction false} LiteralFollowed(s: string, tail: string)
    requires LiteralRest(s) < |s| || tail == []
    ensures LiteralRest(s[..LiteralRest(s)] + tail) == LiteralRest(s)
    decreases |s|
  {
    var n := LiteralRest(s);
    if s == [] {
    } else if s[0] == '"' {
      FrontAndTail(s, n, tail);
    } else if s[0] == '\\' && |s| > 1 {
      LiteralFollowed(s[2..], tail);
      TailDropsTwo(s, n, tail);
    } else {
      if s[0] != '\\' {
        LiteralFollowed(s[1..], tail);
      }
      FrontAndTail(s, n, tail);
    }
  }

  lemma FrontAndTail(s: string, n: nat, tail: string)
    requires 0 < n <= |s|
    ensures var t := s[..n] + tail;
            t[0] == s[0] && t[1..] == s[1..][..n - 1] + tail && t[..n] == s[..n] && t[n..] == tail
  {
  }

  /** Where the literal at the front of `s` ends when only stripped text follows it. */
  lemma LiteralThenTail(s: string, tail: string)
    requires s != [] && s[0] == '"'
    requires LiteralRest(s[1..]) < |s| - 1 || tail == []
    ensures var n := 1 + LiteralRest(s[1..]);
            var t := s[..n] + tail;
            t[0] == '"' && 1 + LiteralRest(t[1..]) == n && t[..n] == s[..n] && t[n..] == tail
  {
    LiteralFollowed(s[1..], tail);
    FrontAndTail(s, 1 + LiteralRest(s[1..]), tail);
  }

  /** Where the literal at the front of `s` ends, after the rest has been stripped as well. */
  lemma LiteralStays(s: string)
    requires s != [] && s[0] == '"'
    ensures var n := 1 + LiteralRest(s[1..]);
            && Strip(s) == s[..n] + Strip(s[n..])
            && Strip(s)[0] == '"'
            && 1 + LiteralRest(Strip(s)[1..]) == n
            && Strip(s)[..n] == s[..n] && Strip(s)[n..] == Strip(s[n..])
  {
    var n := 1 + LiteralRest(s[1..]);
    LiteralThenTail(s, Strip(s[n..]));
  }

  lemma AfterNewline(s: string)
    ensures Clean("\n" + s) == Clean(s) && Literals("\n" + s) == Literals(s)
  {
    assert ("\n" + s)[1..] == s;
  }

  lemma {:induction false} CleanAfterNewlines(comment: string, s: string)
    ensures Clean(Newlines(comment) + s) == Clean(s)
    ensures Literals(Newlines(comment) + s) == Literals(s)
  {
    if comment == [] {
      assert Newlines(comment) + s == s;
    } else {
      CleanAfterNewlines(comment[1..], s);
      if comment[0] == '\n' {
        AfterNewline(Newlines(comment[1..]) + s);
        Associative("\n", Newlines(comment[1..]), s);
      } else {
        assert Newlines(comment) == Newlines(comment[1..]);
      }
    }
  }

  lemma PlainStays(s: string)
    requires s != [] && s[0] != '"' && !Opens(s, '/') && !Opens(s, '*')
    ensures Strip(s) == [s[0]] + Strip(s[1..]) && !Opens(Strip(s), '/') && !Opens(Strip(s), '*')
    ensures Strip(s)[1..] == Strip(s[1..])
  {
    if s[0] == '/' && |s| > 1 {
      assert Strip(s[1..])[0] == s[1];
    }
  }

  /** No comment opens outside a string in the output. */
  lemma {:induction false} StrippedIsClean(s: string)
    ensures Clean(Strip(s))
    decreases |s|
  {
    if s == [] {
    } else if s[0] == '"' {
      StrippedIsClean(s[1 + LiteralRest(s[1..])..]);
      LiteralStays(s);
    } else if Opens(s, '/') {
      StrippedIsClean(s[2 + LineRest(s[2..])..]);
    } else if Opens(s, '*') {
      var n := BlockRest(s[2..]);
      StrippedIsClean(s[2 + n..]);
      CleanAfterNewlines(s[2..2 + n], Strip(s[2 + n..]));
    } else {
      StrippedIsClean(s[1..]);
      PlainStays(s);
    }
  }

  lemma {:induction false} CleanStays(s: string)
    requires Clean(s)
    ensures Strip(s) == s
    decreases |s|
  {
    if s == [] {
    } else if s[0] == '"' {
      var n := 1 + LiteralRest(s[1..]);
      CleanStays(s[n..]);
      assert s == s[..n] + s[n..];
    } else {
      CleanStays(s[1..]);
    }
  }

  /** Text is left alone exactly when it has no comment; so stripping twice is stripping once. */
  lemma StripTwice(s: string)
    ensures Strip(s) == s <==> Clean(s)
    ensures Strip(Strip(s)) == Strip(s)
  {
    StrippedIsClean(s);
    CleanStays(Strip(s));
    if Clean(s) {
      CleanStays(s);
    }
  }

  /** String literals are kept, character for character and in order; comment marks inside them too. */
  lemma {:induction false} LiteralsKept(s: string)
    ensures Literals(Strip(s)) == Literals(s)
    decreases |s|
  {
    if s == [] {
    } else if s[0] == '"' {
      LiteralsKept(s[1 + LiteralRest(s[1..])..]);
      LiteralStays(s);
    } else if Opens(s, '/') {
      LiteralsKept(s[2 + LineRest(s[2..])..]);
    } else if Opens(s, '*') {
      var n := BlockRest(s[2..]);
      LiteralsKept(s[2 + n..]);
      CleanAfterNewlines(s[2..2 + n], Strip(s[2 + n..]));
    } else {
      LiteralsKept(s[1..]);
      PlainStays(s);
    }
  }

  // ----- line numbers -----

  lemma {:induction false} NewlinesTwice(s: string)
    ensures Newlines(Newlines(s)) == Newlines(s)
  {
    if s != [] {
      NewlinesTwice(s[1..]);
      NewlinesConcat(if s[0] == '\n' then "\n" else "", Newlines(s[1..]));
    }
  }

  lemma {:induction false} NoNewlineInLine(s: string)
    ensures Newlines(s[LineRest(s)..]) == Newlines(s)
  {
    if s != [] && s[0] != '\n' {
      NoNewlineInLine(s[1..]);
      Cut(s, 1, LineRest(s));
    }
  }

  lemma MarkHasNoNewline(s: string)
    requires Opens(s, '/') || Opens(s, '*')
    ensures Newlines(s) == Newlines(s[2..])
  {
    assert s[1..][1..] == s[2..];
  }

  lemma NewlinesOfLiteral(s: string, n: nat)
    requires n <= |s| && Newlines(Strip(s[n..])) == Newlines(s[n..])
    ensures Newlines(s[..n] + Strip(s[n..])) == Newlines(s)
  {
    NewlinesConcat(s[..n], Strip(s[n..]));
    NewlinesConcat(s[..n], s[n..]);
    assert s == s[..n] + s[n..];
  }

  lemma NewlinesOfBlock(s: string, n: nat)
    requires n <= |s| && Newlines(Strip(s[n..])) == Newlines(s[n..])
    ensures Newlines(Newlines(s[..n]) + Strip(s[n..])) == Newlines(s)
  {
    NewlinesConcat(Newlines(s[..n]), Strip(s[n..]));
    NewlinesTwice(s[..n]);
    NewlinesConcat(s[..n], s[n..]);
    assert s == s[..n] + s[n..];
  }

  lemma LineKeepsNewlines(s: string, n: nat)
    requires Opens(s, '/') && n == LineRest(s[2..]) && Newlines(Strip(s[2 + n..])) == Newlines(s[2 + n..])
    ensures Newlines(Strip(s)) == Newlines(s)
  {
    NoNewlineInLine(s[2..]);
    Cut(s, 2, 2 + n);
    MarkHasNoNewline(s);
  }

  lemma BlockKeepsNewlines(s: string, n: nat)
    requires Opens(s, '*') && n == BlockRest(s[2..]) && Newlines(Strip(s[2 + n..])) == Newlines(s[2 + n..])
    ensures Newlines(Strip(s)) == Newlines(s)
  {
    Cut(s, 2, 2 + n);
    NewlinesOfBlock(s[2..], n);
    MarkHasNoNewline(s);
  }

  /** The number of newlines is unchanged, so every error position keeps its line. */
  lemma {:induction false} NewlinesKept(s: string)
    ensures Newlines(Strip(s)) == Newlines(s)
    decreases |s|
  {
    if s == [] {
    } else if s[0] == '"' {
      var n := 1 + LiteralRest(s[1..]);
      NewlinesKept(s[n..]);
      NewlinesOfLiteral(s, n);
    } else if Opens(s, '/') {
      var n := LineRest(s[2..]);
      NewlinesKept(s[2 + n..]);
      LineKeepsNewlines(s, n);
    } else if Opens(s, '*') {
      var n := BlockRest(s[2..]);
      NewlinesKept(s[2 + n..]);
      BlockKeepsNewlines(s, n);
    } else {
      NewlinesKept(s[1..]);
      assert s[..1] == [s[0]];
      NewlinesOfLiteral(s, 1);
    }
  }
}
