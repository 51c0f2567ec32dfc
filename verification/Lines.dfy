/** Python's `str.splitlines`, and the text made of newline-terminated lines. */
module Lines {
  import opened Sequences

  /** The line boundaries of `splitlines`; only the first is one to a file reader. */
  predicate IsBreak(c: char) {
    || c == '\n' || c == '\r' || c == '\U{0B}' || c == '\U{0C}' || '\U{1C}' <= c <= '\U{1E}'
    || c == '\U{85}' || c == '\U{2028}' || c == '\U{2029}'
  }

  predicate IsLine(s: string) {
    forall i :: 0 <= i < |s| ==> !IsBreak(s[i])
  }

  predicate AreLines(lines: seq<string>) {
    forall i :: 0 <= i < |lines| ==> IsLine(lines[i])
  }

  /** How many characters come before the first boundary. */
  function BreakAt(s: string): (n: nat)
    ensures n <= |s| && IsLine(s[..n]) && (n < |s| ==> IsBreak(s[n]))
  {
    if s == [] || IsBreak(s[0]) then 0
    else
      var n := BreakAt(s[1..]);
      assert s[..1 + n] == [s[0]] + s[1..][..n];
      1 + n
  }

  function SplitLines(s: string): (lines: seq<string>)
    ensures AreLines(lines)
  {
    if s == [] then []
    else
      var n := BreakAt(s);
      if n == |s| then assert s[..n] == s; [s]
      else
        var next := if s[n] == '\r' && n + 1 < |s| && s[n + 1] == '\n' then n + 2 else n + 1;
        [s[..n]] + SplitLines(s[next..])
  }

  function Unlines(lines: seq<string>): string {
    if lines == [] then "" else lines[0] + "\n" + Unlines(lines[1..])
  }

  lemma {:induction false} BreakAfterLine(line: string, rest: string)
    requires IsLine(line)
    ensures BreakAt(line + "\n" + rest) == |line|
  {
    if line != [] {
      BreakAfterLine(line[1..], rest);
      assert (line + "\n" + rest)[1..] == line[1..] + "\n" + rest;
    }
  }

  lemma {:induction false} LinesComeBack(lines: seq<string>)
    requires AreLines(lines)
    ensures SplitLines(Unlines(lines)) == lines
  {
    if lines != [] {
      var line, s := lines[0], Unlines(lines);
      LinesComeBack(lines[1..]);
      BreakAfterLine(line, Unlines(lines[1..]));
      assert s[..|line|] == line && s[|line| + 1..] == Unlines(lines[1..]);
    }
  }

  /** Splitting gives back the lines of a file exactly when none of them holds a further boundary character:
      a form feed, say, cuts a source line in two. */
  lemma LinesComeBackIff(lines: seq<string>)
    ensures SplitLines(Unlines(lines)) == lines <==> AreLines(lines)
  {
    if AreLines(lines) {
      LinesComeBack(lines);
    }
  }

  lemma {:induction false} UnlinesConcat(a: seq<string>, b: seq<string>)
    ensures Unlines(a + b) == Unlines(a) + Unlines(b)
  {
    if a == [] {
      assert a + b == b;
    } else {
      UnlinesConcat(a[1..], b);
      assert (a + b)[1..] == a[1..] + b;
    }
  }

  // ----- lines with further boundary characters -----

  /** What the splitter makes of one newline-terminated line. */
  function Pieces(line: string): seq<string> {
    SplitLines(line + "\n")
  }

  function AllPieces(lines: seq<string>): seq<string> {
    if lines == [] then [] else Pieces(lines[0]) + AllPieces(lines[1..])
  }

  lemma {:induction false} BreakAfterText(line: string, rest: string)
    requires IsLine(line)
    ensures BreakAt(line + rest) == |line| + BreakAt(rest)
  {
    if line == [] {
      assert line + rest == rest;
    } else {
      BreakAfterText(line[1..], rest);
      assert (line + rest)[1..] == line[1..] + rest;
    }
  }

  lemma {:induction false} BreakBefore(s: string, rest: string)
    requires BreakAt(s) < |s|
    ensures BreakAt(s + rest) == BreakAt(s)
  {
    var n := BreakAt(s);
    BreakAfterText(s[..n], s[n..] + rest);
    assert s + rest == s[..n] + (s[n..] + rest);
  }

  /** Where the line after the boundary at `n` begins; CR LF is one boundary. */
  function AfterBreak(s: string, n: nat): (next: nat)
    requires n < |s|
    ensures n < next <= |s|
  {
    if s[n] == '\r' && n + 1 < |s| && s[n + 1] == '\n' then n + 2 else n + 1
  }

  lemma SplitOnce(s: string)
    requires BreakAt(s) < |s|
    ensures SplitLines(s) == [s[..BreakAt(s)]] + SplitLines(s[AfterBreak(s, BreakAt(s))..])
  {
  }

  lemma AfterBreakStays(s: string, rest: string, n: nat)
    requires n < |s| && s[|s| - 1] == '\n'
    ensures AfterBreak(s + rest, n) == AfterBreak(s, n)
  {
  }

  lemma SplitLonger(s: string, rest: string)
    requires BreakAt(s) < |s| && s[|s| - 1] == '\n'
    ensures var n := BreakAt(s);
            SplitLines(s + rest) == [s[..n]] + SplitLines(s[AfterBreak(s, n)..] + rest)
  {
    BreakBefore(s, rest);
    SplitOnce(s + rest);
    AfterBreakStays(s, rest, BreakAt(s));
    Longer(s, rest, BreakAt(s));
    Longer(s, rest, AfterBreak(s, BreakAt(s)));
  }

  /** A newline cuts the text for good: what follows it is split on its own. */
  lemma {:induction false} SplitAtNewline(s: string, rest: string)
    requires s != [] ==> s[|s| - 1] == '\n'
    ensures SplitLines(s + rest) == SplitLines(s) + SplitLines(rest)
    decreases |s|
  {
    if s == [] {
      assert s + rest == rest;
    } else {
      BreakExists(s);
      var n := BreakAt(s);
      var tail := s[AfterBreak(s, n)..];
      SplitOnce(s);
      SplitLonger(s, rest);
      SplitAtNewline(tail, rest);
      Associative([s[..n]], SplitLines(tail), SplitLines(rest));
    }
  }

  lemma {:induction false} BreakExists(s: string)
    requires s != [] && s[|s| - 1] == '\n'
    ensures BreakAt(s) < |s|
  {
    if |s| > 1 {
      BreakExists(s[1..]);
    }
  }

  lemma {:induction false} SplitIsAllPieces(lines: seq<string>)
    ensures SplitLines(Unlines(lines)) == AllPieces(lines)
  {
    if lines != [] {
      SplitAtNewline(lines[0] + "\n", Unlines(lines[1..]));
      SplitIsAllPieces(lines[1..]);
    }
  }

  lemma {:induction false} AllPiecesConcat(a: seq<string>, b: seq<string>)
    ensures AllPieces(a + b) == AllPieces(a) + AllPieces(b)
  {
    if a == [] {
      assert a + b == b;
    } else {
      AllPiecesConcat(a[1..], b);
      assert (a + b)[1..] == a[1..] + b;
      Associative(Pieces(a[0]), AllPieces(a[1..]), AllPieces(b));
    }
  }

  /** A line's first piece reaches up to the first boundary. */
  lemma FirstPiece(line: string)
    ensures var n := BreakAt(line + "\n");
            && n <= |line| && Pieces(line) != [] && Pieces(line)[0] == line[..n]
            && (n == |line| ==> IsLine(line))
  {
    BreakExists(line + "\n");
    SplitOnce(line + "\n");
    assert (line + "\n")[..BreakAt(line + "\n")] == line[..BreakAt(line + "\n")];
    assert line[..|line|] == line;
  }

  lemma BreakInRest(front: string, text: string)
    requires IsLine(front)
    ensures BreakAt(front + text + "\n") == |front| + BreakAt(text + "\n")
  {
    Associative(front, text, "\n");
    BreakAfterText(front, text + "\n");
  }

  /** The first piece holds a front without boundaries whole. */
  lemma FirstPieceAfter(front: string, text: string)
    requires IsLine(front)
    ensures var n := BreakAt(text + "\n");
            && n <= |text| && (n == |text| ==> IsLine(text))
            && Pieces(front + text) != [] && Pieces(front + text)[0] == front + text[..n]
  {
    FirstPiece(front + text);
    FirstPiece(text);
    BreakInRest(front, text);
    TakeBeyond(front, text, BreakAt(text + "\n"));
  }

  /** A line without a boundary is its only piece. */
  lemma OnlyPiece(line: string)
    requires IsLine(line)
    ensures Pieces(line) == [line]
  {
    LinesComeBack([line]);
    assert [line][1..] == [] && line + "\n" + "" == line + "\n";
  }

  lemma CutAt(front: string, boundary: char, tail: string)
    requires IsLine(front) && IsBreak(boundary)
    requires boundary == '\r' && tail != [] ==> tail[0] != '\n'
    ensures SplitLines(front + ([boundary] + tail)) == [front] + SplitLines(tail)
  {
    var s := front + ([boundary] + tail);
    BreakAfterText(front, [boundary] + tail);
    SplitOnce(s);
    assert s[|front|] == boundary && s[..|front|] == front && s[|front| + 1..] == tail;
    assert tail != [] ==> s[|front| + 1] == tail[0];
  }

  /** A boundary cuts a line in two, except that a last carriage return joins the newline after it. */
  lemma TwoPieces(front: string, boundary: char, rest: string)
    requires IsLine(front) && IsLine(rest) && IsBreak(boundary) && (boundary == '\r' ==> rest != [])
    ensures Pieces(front + [boundary] + rest) == [front, rest]
  {
    Associative(front, [boundary], rest);
    Associative(front, [boundary] + rest, "\n");
    Associative([boundary], rest, "\n");
    assert rest != [] ==> (rest + "\n")[0] == rest[0];
    CutAt(front, boundary, rest + "\n");
    OnlyPiece(rest);
  }

  lemma ThreePieces(first: string, boundary: char, second: string, third: string)
    requires IsLine(first) && IsLine(second) && IsLine(third) && IsBreak(boundary) && boundary != '\r'
    ensures Pieces(first + ([boundary] + (second + ([boundary] + third)))) == [first] + [second] + [third]
  {
    var rest := second + ([boundary] + third);
    Associative(first, [boundary] + rest, "\n");
    Associative([boundary], rest, "\n");
    CutAt(first, boundary, rest + "\n");
    Associative(second, [boundary] + third, "\n");
    Associative([boundary], third, "\n");
    CutAt(second, boundary, third + "\n");
    OnlyPiece(third);
    Associative([first], [second], [third]);
  }

  // ----- the boundaries, one by one -----

  /** Line feed, carriage return, line tabulation, form feed, file, group and record separator, next line, line and
      paragraph separator. */
  const BOUNDARIES: string :=
    ['\n', '\r', '\U{0B}', '\U{0C}', '\U{1C}', '\U{1D}', '\U{1E}', '\U{85}', '\U{2028}', '\U{2029}']

  predicate Unbroken(s: string) {
    forall i :: 0 <= i < |s| ==> s[i] !in BOUNDARIES
  }

  lemma BreakIff(c: char)
    ensures IsBreak(c) <==> c in BOUNDARIES
  {
    assert BOUNDARIES[0] == '\n' && BOUNDARIES[1] == '\r' && BOUNDARIES[2] == '\U{0B}' && BOUNDARIES[3] == '\U{0C}';
    assert BOUNDARIES[4] == '\U{1C}' && BOUNDARIES[5] == '\U{1D}' && BOUNDARIES[6] == '\U{1E}';
    assert BOUNDARIES[7] == '\U{85}' && BOUNDARIES[8] == '\U{2028}' && BOUNDARIES[9] == '\U{2029}';
  }

  lemma UnbrokenIff(s: string)
    ensures Unbroken(s) <==> IsLine(s)
  {
    forall i | 0 <= i < |s|
      ensures IsBreak(s[i]) <==> s[i] in BOUNDARIES
    {
      BreakIff(s[i]);
    }
  }

  /** Unbroken text is one line, and a character in it cuts it in two exactly when it is a boundary. */
  lemma CutsIff(a: string, c: char, b: string)
    requires Unbroken(a) && Unbroken(b) && b != []
    ensures SplitLines(a + ([c] + b)) == (if c in BOUNDARIES then [a] + [b] else [a + ([c] + b)])
  {
    BreakIff(c);
    UnbrokenIff(a);
    UnbrokenIff(b);
    OneLineSplit(b);
    if c in BOUNDARIES {
      UnbrokenIff(b);
      CutAt(a, c, b);
    } else {
      UnbrokenIff(a + ([c] + b));
      OneLineSplit(a + ([c] + b));
    }
  }

  lemma OneLineSplit(s: string)
    requires IsLine(s) && s != []
    ensures SplitLines(s) == [s]
  {
  }

  lemma PairFirst(a: string, pair: string, b: string)
    requires |pair| == 2
    ensures var s := a + (pair + b);
            s[|a|] == pair[0] && s[|a| + 1] == pair[1] && s[..|a|] == a && s[|a| + 2..] == b
  {
  }

  lemma ReturnAndFeed(a: string, b: string)
    requires IsLine(a) && IsLine(b) && b != []
    ensures SplitLines(a + (['\r'] + (['\n'] + b))) == [a] + [b]
  {
    var tail := ['\r'] + (['\n'] + b);
    assert tail[0] == '\r' && BreakAt(tail) == 0;
    assert tail == (['\r'] + ['\n']) + b;
    BreakAfterText(a, tail);
    PairFirst(a, ['\r'] + ['\n'], b);
    SplitOnce(a + tail);
    OneLineSplit(b);
  }

  lemma TwoCuts(a: string, c: char, d: char, b: string)
    requires IsLine(a) && IsLine(b) && b != [] && IsBreak(c) && IsBreak(d) && !(c == '\r' && d == '\n')
    ensures SplitLines(a + ([c] + ([d] + b))) == [a] + ([""] + [b])
  {
    CutAt(a, c, [d] + b);
    var rest := [d] + b;
    assert "" + rest == rest && !IsBreak(b[0]);
    CutAt("", d, b);
    OneLineSplit(b);
  }

  /** A carriage return and the line feed after it are one boundary; every other pair is two. */
  lemma PairCutsIff(a: string, c: char, d: char, b: string)
    requires Unbroken(a) && Unbroken(b) && b != [] && c in BOUNDARIES && d in BOUNDARIES
    ensures SplitLines(a + ([c] + ([d] + b))) == if c == '\r' && d == '\n' then [a] + [b] else [a] + ([""] + [b])
  {
    BreakIff(c);
    BreakIff(d);
    UnbrokenIff(a);
    UnbrokenIff(b);
    if c == '\r' && d == '\n' {
      ReturnAndFeed(a, b);
    } else {
      TwoCuts(a, c, d, b);
    }
  }

  predicate NewlineFree(lines: seq<string>) {
    forall i :: 0 <= i < |lines| ==> '\n' !in lines[i]
  }

  lemma {:induction false} UnlinesInjective(a: seq<string>, b: seq<string>)
    requires NewlineFree(a) && NewlineFree(b) && Unlines(a) == Unlines(b)
    ensures a == b
  {
    if a != [] && b != [] {
      SameFirstLine(a[0], Unlines(a[1..]), b[0], Unlines(b[1..]));
      UnlinesInjective(a[1..], b[1..]);
      assert a == [a[0]] + a[1..] && b == [b[0]] + b[1..];
    }
  }

  lemma SameFirstLine(a: string, rest: string, b: string, rest': string)
    requires '\n' !in a && '\n' !in b && a + "\n" + rest == b + "\n" + rest'
    ensures a == b && rest == rest'
  {
    var s, s' := a + "\n" + rest, b + "\n" + rest';
    assert s[|a|] == '\n' && s'[|b|] == '\n';
    assert forall i :: 0 <= i < |a| ==> s[i] == a[i];
    assert forall i :: 0 <= i < |b| ==> s'[i] == b[i];
    assert |a| == |b|;
    assert s[..|a|] == a && s'[..|b|] == b;
    assert s[|a| + 1..] == rest && s'[|b| + 1..] == rest';
  }
}
