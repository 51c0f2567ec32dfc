/** The loop-rule part of the architecture agent's diff scan: the added lines of a diff, hunk by hunk. */
module ArchitectureScan {
  import opened LoopRules
  import opened LoopRuleScanner
  import Lines
  import Text

  datatype DiffLine = HunkHeader | AddedLine(text: string) | OtherLine

  /** `^@@.*?@@` opens a hunk; `+` but not `+++` adds a line. */
  function Read(line: string): DiffLine {
    if Text.StartsWith(line, "@@") && Text.Contains(line[2..], "@@") then HunkHeader
    else if Text.StartsWith(line, "+") && !Text.StartsWith(line, "+++") then AddedLine(line[1..])
    else OtherLine
  }

  function ReadAll(lines: seq<string>): (read: seq<DiffLine>)
    ensures |read| == |lines| && forall i :: 0 <= i < |lines| ==> read[i] == Read(lines[i])
  {
    seq(|lines|, i requires 0 <= i < |lines| => Read(lines[i]))
  }

  // ----- the hunks of a diff -----

  function HeaderAt(lines: seq<DiffLine>): (n: nat)
    ensures n <= |lines|
  {
    if lines == [] || lines[0].HunkHeader? then 0 else 1 + HeaderAt(lines[1..])
  }

  function Added(lines: seq<DiffLine>): seq<string> {
    if lines == [] then [] else (if lines[0].AddedLine? then [lines[0].text] else []) + Added(lines[1..])
  }

  /** One hunk per header, with the lines added before the next header. */
  function Sections(lines: seq<DiffLine>): seq<seq<string>>
    decreases |lines|
  {
    if lines == [] then []
    else if lines[0].HunkHeader? then
      var body := lines[1..];
      var n := HeaderAt(body);
      [Added(body[..n])] + Sections(body[n..])
    else Sections(lines[1..])
  }

  /** A diff without headers is one hunk if it adds a line; otherwise what comes before the first header is
      dropped. */
  function AddedHunks(lines: seq<DiffLine>): seq<seq<string>> {
    if HeaderAt(lines) < |lines| then Sections(lines)
    else if Added(lines) == [] then []
    else [Added(lines)]
  }

  // ----- the loop -----

  function Finish(current: seq<string>, sawHunk: bool, rest: seq<DiffLine>): seq<seq<string>> {
    var n := HeaderAt(rest);
    var hunk := current + Added(rest[..n]);
    if sawHunk then [hunk] + Sections(rest[n..])
    else if n < |rest| then Sections(rest)
    else if hunk == [] then []
    else [hunk]
  }

  /** The hunks yielded so far, the open one and the lines still to come make up the whole. */
  ghost predicate OnCourse(hunks: seq<seq<string>>, current: seq<string>, sawHunk: bool, lines: seq<DiffLine>, at: nat)
  {
    at <= |lines| && hunks + Finish(current, sawHunk, lines[at..]) == AddedHunks(lines)
  }

  lemma FirstTurn(lines: seq<DiffLine>)
    ensures OnCourse([], [], false, lines, 0)
  {
    assert lines[0..] == lines && lines[..|lines|] == lines;
    assert [] + Added(lines) == Added(lines);
  }

  lemma HeaderTurn(hunks: seq<seq<string>>, current: seq<string>, sawHunk: bool, lines: seq<DiffLine>, at: nat)
    requires at < |lines| && lines[at].HunkHeader? && OnCourse(hunks, current, sawHunk, lines, at)
    ensures OnCourse(if sawHunk then hunks + [current] else hunks, [], true, lines, at + 1)
  {
    var rest, body := lines[at..], lines[at + 1..];
    assert rest[1..] == body && rest[..0] == [] && rest[0..] == rest;
    assert current + [] == current;
    assert [] + Added(body[..HeaderAt(body)]) == Added(body[..HeaderAt(body)]);
  }

  lemma LineTurn(hunks: seq<seq<string>>, current: seq<string>, sawHunk: bool, lines: seq<DiffLine>, at: nat)
    requires at < |lines| && !lines[at].HunkHeader? && OnCourse(hunks, current, sawHunk, lines, at)
    ensures OnCourse(hunks, if lines[at].AddedLine? then current + [lines[at].text] else current, sawHunk, lines,
                     at + 1)
  {
    var rest, body := lines[at..], lines[at + 1..];
    var n := HeaderAt(body);
    assert rest[1..] == body && rest[..1 + n][1..] == body[..n] && rest[1 + n..] == body[n..];
    if rest[0].AddedLine? {
      assert current + ([rest[0].text] + Added(body[..n])) == (current + [rest[0].text]) + Added(body[..n]);
    } else {
      assert Added(rest[..1 + n]) == Added(body[..n]);
    }
  }

  lemma LastTurn(hunks: seq<seq<string>>, current: seq<string>, sawHunk: bool, lines: seq<DiffLine>)
    requires OnCourse(hunks, current, sawHunk, lines, |lines|)
    ensures AddedHunks(lines) == if sawHunk || current != [] then hunks + [current] else hunks
  {
    assert lines[|lines|..] == [] && current + [] == current;
  }

  /** The generator's loop, over lines whose patterns have been matched. */
  method CollectHunks(lines: seq<DiffLine>) returns (hunks: seq<seq<string>>)
    ensures hunks == AddedHunks(lines)
  {
    hunks := [];
    var currentHunk: seq<string> := [];
    var sawHunk := false;
    FirstTurn(lines);
    for i := 0 to |lines|
      invariant OnCourse(hunks, currentHunk, sawHunk, lines, i)
    {
      if lines[i].HunkHeader? {
        HeaderTurn(hunks, currentHunk, sawHunk, lines, i);
        if sawHunk {
          hunks := hunks + [currentHunk];
        }
        currentHunk := [];
        sawHunk := true;
      } else {
        LineTurn(hunks, currentHunk, sawHunk, lines, i);
        if lines[i].AddedLine? {
          currentHunk := currentHunk + [lines[i].text];
        }
      }
    }
    LastTurn(hunks, currentHunk, sawHunk, lines);
    if sawHunk || currentHunk != [] {
      hunks := hunks + [currentHunk];
    }
  }

  method IterAddedHunks(diffText: string) returns (hunks: seq<seq<string>>)
    ensures hunks == AddedHunks(ReadAll(Lines.SplitLines(diffText)))
  {
    hunks := CollectHunks(ReadAll(Lines.SplitLines(diffText)));
  }

  // ----- the findings -----

  ghost predicate Reported(hunks: seq<seq<string>>, rule: Rule) {
    exists i :: 0 <= i < |hunks| && Broken(ClassifyAll(hunks[i]), rule)
  }

  method ScanHunk(hunk: seq<string>) returns (codes: set<Rule>)
    ensures forall rule :: rule in codes <==> Broken(ClassifyAll(hunk), rule)
  {
    var scanner := new Scanner();
    assert hunk[..0] == [] && ClassifyAll([]) == [];
    for i := 0 to |hunk|
      invariant scanner.Valid() && scanner.scanned == ClassifyAll(hunk[..i])
      invariant fresh(scanner)
    {
      scanner.ScanLine(hunk[i]);
      assert ClassifyAll(hunk[..i + 1]) == ClassifyAll(hunk[..i]) + [Classify(hunk[i])];
    }
    assert hunk[..|hunk|] == hunk;
    codes := scanner.foundCodes;
    forall rule
      ensures rule in codes <==> Broken(ClassifyAll(hunk), rule)
    {
      ReportedIffBroken(scanner.scanned, rule);
    }
  }

  /** The loop findings of a diff, in the order of the codes. */
  method ScanDiff(diffText: string) returns (findings: seq<Rule>)
    ensures var hunks := AddedHunks(ReadAll(Lines.SplitLines(diffText)));
            findings == (if Reported(hunks, ARCH001) then [ARCH001] else [])
                        + (if Reported(hunks, ARCH002) then [ARCH002] else [])
  {
    var hunks := IterAddedHunks(diffText);
    var loopCodes: set<Rule> := {};
    for i := 0 to |hunks|
      invariant forall rule :: rule in loopCodes <==> Reported(hunks[..i], rule)
    {
      var codes := ScanHunk(hunks[i]);
      assert hunks[..i + 1] == hunks[..i] + [hunks[i]];
      forall rule
        ensures Reported(hunks[..i + 1], rule) <==> Reported(hunks[..i], rule) || rule in codes
      {
        OneMoreHunk(hunks[..i], hunks[i], rule);
      }
      loopCodes := loopCodes + codes;
    }
    assert hunks[..|hunks|] == hunks;
    findings := [];
    if ARCH001 in loopCodes {
      findings := findings + [ARCH001];
    }
    if ARCH002 in loopCodes {
      findings := findings + [ARCH002];
    }
  }

  lemma OneMoreHunk(hunks: seq<seq<string>>, hunk: seq<string>, rule: Rule)
    ensures Reported(hunks + [hunk], rule) <==> Reported(hunks, rule) || Broken(ClassifyAll(hunk), rule)
  {
    var longer := hunks + [hunk];
    if Reported(hunks, rule) {
      var i :| 0 <= i < |hunks| && Broken(ClassifyAll(hunks[i]), rule);
      assert longer[i] == hunks[i];
    }
    if Broken(ClassifyAll(hunk), rule) {
      assert longer[|hunks|] == hunk;
    }
  }
}
