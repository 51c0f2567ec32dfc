/** What the architecture agent's loop rules mean: a line breaks one when it lies inside a loop body. */
module LoopRules {

  datatype Rule = ARCH001 | ARCH002

  /** What the scanner looks at in a source line; blank lines and comments are not `significant`. */
  datatype Line = Line(significant: bool, indent: nat, loopHeader: bool, usesIo: bool, plainImport: bool)

  predicate Breaks(line: Line, rule: Rule) {
    match rule
    case ARCH001 => line.usesIo
    case ARCH002 => line.plainImport
  }

  // ----- the meaning -----

  predicate IsHeader(line: Line) {
    line.significant && line.loopHeader
  }

  /** Line `j` lies in the body of the loop at `i`: every significant line after the header, up to `j`, is indented
      deeper. */
  predicate Encloses(lines: seq<Line>, i: nat, j: nat) {
    && i < j < |lines| && IsHeader(lines[i]) && lines[j].significant
    && forall k :: i < k <= j && lines[k].significant ==> lines[i].indent < lines[k].indent
  }

  ghost predicate Broken(lines: seq<Line>, rule: Rule) {
    exists i: nat, j: nat :: Encloses(lines, i, j) && Breaks(lines[j], rule)
  }

  // ----- the scan -----

  /** `pops` counts the work of the inner loop. */
  datatype State = State(stack: seq<nat>, found: set<Rule>, pops: nat)

  const INITIAL := State([], {}, 0)

  function Popped(stack: seq<nat>, indent: nat): (rest: seq<nat>)
    ensures rest <= stack
  {
    if stack != [] && indent <= stack[|stack| - 1] then Popped(stack[..|stack| - 1], indent) else stack
  }

  function Found(line: Line): set<Rule> {
    (if line.usesIo then {ARCH001} else {}) + (if line.plainImport then {ARCH002} else {})
  }

  function Step(s: State, line: Line): State {
    if !line.significant then s
    else
      var rest := Popped(s.stack, line.indent);
      State(if line.loopHeader then rest + [line.indent] else rest,
            if rest != [] then s.found + Found(line) else s.found,
            s.pops + |s.stack| - |rest|)
  }

  function Scan(lines: seq<Line>): State {
    if lines == [] then INITIAL else Step(Scan(lines[..|lines| - 1]), lines[|lines| - 1])
  }

  // ----- the stack holds the indents of the open headers -----

  predicate Increasing(stack: seq<nat>) {
    forall a, b :: 0 <= a < b < |stack| ==> stack[a] < stack[b]
  }

  /** The loop at `i` has not been left by the end of `lines`. */
  predicate Open(lines: seq<Line>, i: nat) {
    && i < |lines| && IsHeader(lines[i])
    && forall k :: i < k < |lines| && lines[k].significant ==> lines[i].indent < lines[k].indent
  }

  ghost predicate OpenAt(lines: seq<Line>, indent: nat) {
    exists i: nat :: Open(lines, i) && lines[i].indent == indent
  }

  ghost predicate HoldsOpenHeaders(stack: seq<nat>, lines: seq<Line>) {
    Increasing(stack) && forall x: nat :: x in stack <==> OpenAt(lines, x)
  }

  lemma {:induction false} PoppedKeepsShallower(stack: seq<nat>, indent: nat)
    requires Increasing(stack)
    ensures Increasing(Popped(stack, indent))
    ensures forall x :: x in Popped(stack, indent) <==> x in stack && x < indent
  {
    if stack != [] && indent <= stack[|stack| - 1] {
      var front := stack[..|stack| - 1];
      PoppedKeepsShallower(front, indent);
      assert stack == front + [stack[|stack| - 1]];
    }
  }

  lemma OpenAfterLine(lines: seq<Line>, line: Line, i: nat)
    ensures Open(lines + [line], i)
        <==> (Open(lines, i) && (line.significant ==> lines[i].indent < line.indent))
             || (i == |lines| && IsHeader(line))
  {
    var longer := lines + [line];
    assert longer[|lines|] == line;
    assert forall k :: 0 <= k < |lines| ==> longer[k] == lines[k];
  }

  lemma OpenAtAfterLine(lines: seq<Line>, line: Line, x: nat)
    ensures OpenAt(lines + [line], x)
        <==> (OpenAt(lines, x) && (line.significant ==> x < line.indent))
             || (IsHeader(line) && x == line.indent)
  {
    var longer := lines + [line];
    if OpenAt(longer, x) {
      var i: nat :| Open(longer, i) && longer[i].indent == x;
      OpenAfterLine(lines, line, i);
    }
    if OpenAt(lines, x) && (line.significant ==> x < line.indent) {
      var i: nat :| Open(lines, i) && lines[i].indent == x;
      OpenAfterLine(lines, line, i);
      assert longer[i].indent == x;
    }
    if IsHeader(line) && x == line.indent {
      OpenAfterLine(lines, line, |lines|);
      assert longer[|lines|].indent == x;
    }
  }

  lemma StackAfterLine(s: State, lines: seq<Line>, line: Line)
    requires HoldsOpenHeaders(s.stack, lines)
    ensures HoldsOpenHeaders(Step(s, line).stack, lines + [line])
  {
    PoppedKeepsShallower(s.stack, line.indent);
    var rest := Popped(s.stack, line.indent);
    assert forall a :: 0 <= a < |rest| ==> rest[a] in rest;
    forall x: nat
      ensures x in Step(s, line).stack <==> OpenAt(lines + [line], x)
    {
      OpenAtAfterLine(lines, line, x);
    }
  }

  /** At every point of the scan the stack is strictly increasing and holds exactly the indents of the loops that
      are still open. */
  lemma {:induction false} StackIsOpenHeaders(lines: seq<Line>)
    ensures HoldsOpenHeaders(Scan(lines).stack, lines)
  {
    if lines != [] {
      var front, last := lines[..|lines| - 1], lines[|lines| - 1];
      StackIsOpenHeaders(front);
      StackAfterLine(Scan(front), front, last);
      assert front + [last] == lines;
    }
  }

  // ----- what is reported -----

  lemma EnclosesAfterLine(lines: seq<Line>, line: Line, i: nat, j: nat)
    ensures Encloses(lines + [line], i, j)
        <==> Encloses(lines, i, j)
             || (j == |lines| && line.significant && Open(lines, i) && lines[i].indent < line.indent)
  {
    var longer := lines + [line];
    assert longer[|lines|] == line;
    assert forall k :: 0 <= k < |lines| ==> longer[k] == lines[k];
  }

  lemma BrokenAfterLine(lines: seq<Line>, line: Line, rule: Rule)
    ensures Broken(lines + [line], rule)
        <==> Broken(lines, rule)
             || (line.significant && Breaks(line, rule) && exists x: nat :: OpenAt(lines, x) && x < line.indent)
  {
    var longer := lines + [line];
    if Broken(longer, rule) {
      var i: nat, j: nat :| Encloses(longer, i, j) && Breaks(longer[j], rule);
      EnclosesAfterLine(lines, line, i, j);
      if !Encloses(lines, i, j) {
        assert OpenAt(lines, lines[i].indent);
      }
    }
    if Broken(lines, rule) {
      var i: nat, j: nat :| Encloses(lines, i, j) && Breaks(lines[j], rule);
      EnclosesAfterLine(lines, line, i, j);
      assert longer[j] == lines[j];
    }
    if line.significant && Breaks(line, rule) && exists x: nat :: OpenAt(lines, x) && x < line.indent {
      var x: nat :| OpenAt(lines, x) && x < line.indent;
      var i: nat :| Open(lines, i) && lines[i].indent == x;
      EnclosesAfterLine(lines, line, i, |lines|);
      assert longer[|lines|] == line;
    }
  }

  lemma FoundAfterLine(lines: seq<Line>, line: Line, rule: Rule)
    requires rule in Scan(lines).found <==> Broken(lines, rule)
    ensures rule in Step(Scan(lines), line).found <==> Broken(lines + [line], rule)
  {
    StackIsOpenHeaders(lines);
    BrokenAfterLine(lines, line, rule);
    var stack := Scan(lines).stack;
    PoppedKeepsShallower(stack, line.indent);
    var rest := Popped(stack, line.indent);
    if rest != [] {
      assert rest[0] in stack && OpenAt(lines, rest[0]);
    }
    assert rule in Found(line) <==> Breaks(line, rule);
  }

  /** The scanner reports a rule exactly when some line in the body of some loop breaks it. */
  lemma {:induction false} ReportedIffBroken(lines: seq<Line>, rule: Rule)
    ensures rule in Scan(lines).found <==> Broken(lines, rule)
  {
    if lines != [] {
      var front, last := lines[..|lines| - 1], lines[|lines| - 1];
      ReportedIffBroken(front, rule);
      FoundAfterLine(front, last, rule);
      assert front + [last] == lines;
    }
  }

  // ----- what it costs -----

  function Headers(lines: seq<Line>): (n: nat)
    ensures n <= |lines|
  {
    if lines == [] then 0
    else Headers(lines[..|lines| - 1]) + (if IsHeader(lines[|lines| - 1]) then 1 else 0)
  }

  /** Every header is pushed once and popped at most once, so the inner loop never runs more often than there are
      lines. */
  lemma {:induction false} PopsAreBounded(lines: seq<Line>)
    ensures Scan(lines).pops + |Scan(lines).stack| == Headers(lines) && Scan(lines).pops <= |lines|
  {
    if lines != [] {
      PopsAreBounded(lines[..|lines| - 1]);
    }
  }
}
