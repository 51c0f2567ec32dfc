/** The feedback service's patch reader: hunk headers become line-range replacements. */
module FeedbackService {
  import opened LineEdits
  import opened Outcomes
  import opened UnifiedDiff
  import Decimal
  import Lines

  /** `start_line`, `end_line` (0-based, end excluded) and `new_lines`. */
  type LineEdit = Edit<string>

  // ----- the header pattern -----

  /** The length of the longest run of digits at the front. */
  function DigitRun(s: string): (n: nat)
    ensures n <= |s|
    ensures forall i :: 0 <= i < n ==> Decimal.IsDigit(s[i])
  {
    if s == [] || !Decimal.IsDigit(s[0]) then 0 else 1 + DigitRun(s[1..])
  }

  /** `(\d+)`: the number and the text after it. What follows in the pattern is never a digit, so the longest run
      is the only one that can match. */
  function TakeNumber(s: string): Option<(nat, string)> {
    var n := DigitRun(s);
    match Decimal.Digits(s[..n])
    case None => None
    case Some(value) => Some((value, s[n..]))
  }

  /** `(\d+)(?:,(\d+))?`: start, length (one when absent) and the text after them. */
  function TakeRange(s: string): Option<(nat, nat, string)> {
    match TakeNumber(s)
    case None => None
    case Some((start, rest)) =>
      if rest != [] && rest[0] == ',' && TakeNumber(rest[1..]).Some? then
        var (length, after) := TakeNumber(rest[1..]).value;
        Some((start, length, after))
      else
        Some((start, 1, rest))
  }

  function Literal(expected: string, s: string): Option<string> {
    if expected <= s then Some(s[|expected|..]) else None
  }

  /** `^@@ -range \+range @@`: the old range. */
  function MatchHeader(line: string): Option<(nat, nat)> {
    match Literal("@@ -", line)
    case None => None
    case Some(afterOpen) =>
      match TakeRange(afterOpen)
      case None => None
      case Some((start, length, afterOld)) =>
        match Literal(" +", afterOld)
        case None => None
        case Some(afterPlus) =>
          match TakeRange(afterPlus)
          case None => None
          case Some((_, _, afterNew)) =>
            if Literal(" @@", afterNew).Some? then Some((start, length)) else None
  }

  // ----- the specification of the parser -----

  datatype DiffLine = Header(start: nat, length: nat) | Other(text: string)

  function Read(line: string): DiffLine {
    match MatchHeader(line)
    case Some((start, length)) => Header(start, length)
    case None => Other(line)
  }

  function ReadAll(lines: seq<string>): seq<DiffLine> {
    if lines == [] then [] else [Read(lines[0])] + ReadAll(lines[1..])
  }

  /** What a line of a hunk adds to its replacement text. */
  function NewLine(line: DiffLine): seq<string> {
    match line
    case Header(_, _) => []
    case Other(text) => if text != [] && (text[0] == '+' || text[0] == ' ') then [text[1..]] else []
  }

  /** Text lines belong to the edit opened last. */
  function Extended(edits: seq<LineEdit>, more: seq<string>): (extended: seq<LineEdit>)
    ensures |extended| == |edits|
  {
    if edits == [] then []
    else
      var n := |edits| - 1;
      edits[..n] + [edits[n].(content := edits[n].content + more)]
  }

  function Opened(header: DiffLine): LineEdit
    requires header.Header?
  {
    Edit(header.start - 1, header.start - 1 + header.length, [])
  }

  /** Each header opens an edit; every other line extends the last one, and is dropped if there is none. */
  function Parse(lines: seq<DiffLine>): seq<LineEdit> {
    if lines == [] then []
    else
      var n := |lines| - 1;
      var before := Parse(lines[..n]);
      if lines[n].Header? then before + [Opened(lines[n])] else Extended(before, NewLine(lines[n]))
  }

  lemma ParseSnoc(lines: seq<DiffLine>, line: DiffLine)
    ensures Parse(lines + [line])
         == if line.Header? then Parse(lines) + [Opened(line)] else Extended(Parse(lines), NewLine(line))
  {
    assert (lines + [line])[..|lines|] == lines;
  }

  // ----- the loop -----

  /** The edits collected so far, with the open one. */
  function Collected(hunks: seq<LineEdit>, current: Option<LineEdit>): seq<LineEdit> {
    match current
    case None => hunks
    case Some(edit) => hunks + [edit]
  }

  ghost predicate OnCourse(hunks: seq<LineEdit>, current: Option<LineEdit>, lines: seq<DiffLine>, at: nat) {
    && at <= |lines| && Parse(lines[..at]) == Collected(hunks, current)
    && (current.None? ==> hunks == [])
  }

  lemma HeaderTurn(hunks: seq<LineEdit>, current: Option<LineEdit>, lines: seq<DiffLine>, at: nat)
    requires at < |lines| && lines[at].Header? && OnCourse(hunks, current, lines, at)
    ensures OnCourse(Collected(hunks, current), Some(Opened(lines[at])), lines, at + 1)
  {
    assert lines[..at + 1] == lines[..at] + [lines[at]];
    ParseSnoc(lines[..at], lines[at]);
  }

  lemma TextTurn(hunks: seq<LineEdit>, current: Option<LineEdit>, lines: seq<DiffLine>, at: nat)
    requires at < |lines| && lines[at].Other? && OnCourse(hunks, current, lines, at)
    ensures var more := NewLine(lines[at]);
            OnCourse(hunks, match current
                            case None => None
                            case Some(edit) => Some(edit.(content := edit.content + more)), lines, at + 1)
  {
    assert lines[..at + 1] == lines[..at] + [lines[at]];
    ParseSnoc(lines[..at], lines[at]);
    if current.Some? {
      assert (hunks + [current.value])[..|hunks|] == hunks;
    }
  }

  method Extend(edit: LineEdit, rawLine: string) returns (extended: LineEdit)
    ensures extended == edit.(content := edit.content + NewLine(Other(rawLine)))
  {
    extended := edit;
    if rawLine != [] && rawLine[0] == '-' {
      // A removed line is already covered by the range.
    } else if rawLine != [] && rawLine[0] == '+' {
      extended := edit.(content := edit.content + [rawLine[1..]]);
    } else if rawLine != [] && rawLine[0] == ' ' {
      extended := edit.(content := edit.content + [rawLine[1..]]);
    }
    assert edit.content + [] == edit.content;
  }

  /** The loop, over lines whose header pattern has been matched. */
  method CollectHunks(lines: seq<DiffLine>) returns (hunks: seq<LineEdit>)
    ensures hunks == Parse(lines)
  {
    hunks := [];
    var currentHunk: Option<LineEdit> := None;
    assert lines[..0] == [];
    for i := 0 to |lines|
      invariant OnCourse(hunks, currentHunk, lines, i)
    {
      match lines[i] {
        case Header(oldStart, oldLength) =>
          HeaderTurn(hunks, currentHunk, lines, i);
          if currentHunk.Some? {
            hunks := hunks + [currentHunk.value];
          }
          currentHunk := Some(Edit(oldStart - 1, oldStart - 1 + oldLength, []));
        case Other(rawLine) =>
          TextTurn(hunks, currentHunk, lines, i);
          if currentHunk.Some? {
            var extended := Extend(currentHunk.value, rawLine);
            currentHunk := Some(extended);
          }
      }
    }
    assert lines[..|lines|] == lines;
    if currentHunk.Some? {
      hunks := hunks + [currentHunk.value];
    }
  }

  method ParseHunkRanges(unifiedDiff: string) returns (hunks: seq<LineEdit>)
    ensures hunks == Parse(ReadAll(Lines.SplitLines(unifiedDiff)))
  {
    hunks := CollectHunks(ReadAll(Lines.SplitLines(unifiedDiff)));
  }

  // ----- a rendered patch is read back -----

  lemma {:induction false} RunOfDigits(digits: string, rest: string)
    requires forall i :: 0 <= i < |digits| ==> Decimal.IsDigit(digits[i])
    requires rest == [] || !Decimal.IsDigit(rest[0])
    ensures DigitRun(digits + rest) == |digits|
  {
    if digits == [] {
      assert digits + rest == rest;
    } else {
      RunOfDigits(digits[1..], rest);
      assert (digits + rest)[1..] == digits[1..] + rest;
    }
  }

  lemma NumberComesBack(n: nat, rest: string)
    requires rest == [] || !Decimal.IsDigit(rest[0])
    ensures TakeNumber(Decimal.Print(n) + rest) == Some((n, rest))
  {
    var digits := Decimal.Print(n);
    RunOfDigits(digits, rest);
    assert (digits + rest)[..|digits|] == digits && (digits + rest)[|digits|..] == rest;
    Decimal.DigitsOfPrint(n);
  }

  lemma RangeComesBack(start: nat, length: nat, short: bool, rest: string)
    requires rest != [] && rest[0] == ' '
    ensures TakeRange(RenderRange(start, length, short) + rest) == Some((start, length, rest))
  {
    if short && length == 1 {
      NumberComesBack(start, rest);
      assert RenderRange(start, length, short) + rest == Decimal.Print(start) + rest;
    } else {
      var more := "," + (Decimal.Print(length) + rest);
      assert RenderRange(start, length, short) + rest == Decimal.Print(start) + more;
      NumberComesBack(start, more);
      assert more[1..] == Decimal.Print(length) + rest;
      NumberComesBack(length, rest);
    }
  }

  lemma LiteralComesBack(expected: string, rest: string)
    ensures Literal(expected, expected + rest) == Some(rest)
  {
  }

  lemma HeaderComesBack(h: Hunk)
    ensures MatchHeader(RenderHeader(h)) == Some((h.oldStart, |OldSide(h.body)|))
  {
    var old' := RenderRange(h.oldStart, |OldSide(h.body)|, h.oldShort);
    var new' := RenderRange(h.newStart, |NewSide(h.body)|, h.newShort);
    var close := " @@" + h.heading;
    var afterPlus := new' + close;
    var afterOld := " +" + afterPlus;
    assert RenderHeader(h) == "@@ -" + (old' + afterOld);
    LiteralComesBack("@@ -", old' + afterOld);
    RangeComesBack(h.oldStart, |OldSide(h.body)|, h.oldShort, afterOld);
    LiteralComesBack(" +", afterPlus);
    RangeComesBack(h.newStart, |NewSide(h.body)|, h.newShort, close);
    LiteralComesBack(" @@", h.heading);
  }

  lemma BodyLineComesBack(line: BodyLine)
    ensures Read(RenderLine(line)) == Other(RenderLine(line))
  {
    assert !("@@ -" <= RenderLine(line)) by {
      assert RenderLine(line)[0] != '@' && "@@ -"[0] == '@';
    }
  }

  lemma {:induction false} ReadConcat(a: seq<string>, b: seq<string>)
    ensures ReadAll(a + b) == ReadAll(a) + ReadAll(b)
  {
    if a == [] {
      assert a + b == b;
    } else {
      ReadConcat(a[1..], b);
      assert (a + b)[1..] == a[1..] + b;
    }
  }

  lemma ReadOne(line: string)
    ensures ReadAll([line]) == [Read(line)]
  {
    assert [line][1..] == [];
  }

  lemma NewSideLine(line: BodyLine)
    ensures NewLine(Other(RenderLine(line))) == if line.Context? || line.Add? then [line.text] else []
  {
    assert RenderLine(line)[1..] == line.text;
  }

  /** The edit the reader makes of a hunk. */
  function EditOf(h: Hunk): LineEdit {
    var start := h.oldStart - 1;
    Edit(start, start + |OldSide(h.body)|, NewSide(h.body))
  }

  function EditsOf(hunks: seq<Hunk>): seq<LineEdit> {
    if hunks == [] then [] else [EditOf(hunks[0])] + EditsOf(hunks[1..])
  }

  function HunkHeader(h: Hunk): DiffLine {
    Header(h.oldStart, |OldSide(h.body)|)
  }

  lemma HeaderIsRead(h: Hunk)
    ensures Read(RenderHeader(h)) == HunkHeader(h)
  {
    HeaderComesBack(h);
  }

  lemma ExtendedTwice(edits: seq<LineEdit>, more: seq<string>, rest: seq<string>)
    ensures Extended(Extended(edits, more), rest) == Extended(edits, more + rest)
    ensures Extended(edits, []) == edits
  {
    if edits != [] {
      var n := |edits| - 1;
      assert Extended(edits, more)[..n] == edits[..n];
      assert (edits[n].content + more) + rest == edits[n].content + (more + rest);
      assert edits[n].content + [] == edits[n].content && edits == edits[..n] + [edits[n]];
    }
  }

  lemma LastExtended(edits: seq<LineEdit>, start: int, end: int, more: seq<string>)
    ensures Extended(edits + [Edit(start, end, [])], more) == edits + [Edit(start, end, more)]
  {
    assert (edits + [Edit(start, end, [])])[..|edits|] == edits && [] + more == more;
  }

  lemma HeaderThenText(before: seq<DiffLine>, header: DiffLine, more: seq<string>)
    requires header.Header?
    ensures Extended(Parse(before + [header]), more)
         == Parse(before) + [Edit(header.start - 1, header.start - 1 + header.length, more)]
  {
    ParseSnoc(before, header);
    LastExtended(Parse(before), header.start - 1, header.start - 1 + header.length, more);
  }
}
