/** Reading back the text of a patch, and exactly when that gives one edit per hunk. The reader splits at every
    boundary of `splitlines`, so a patch line that holds a further boundary falls into pieces. */
module PatchReading {
  import Decimal
  import opened FeedbackService
  import opened LineEdits
  import opened Lines
  import opened Outcomes
  import opened Sequences
  import opened UnifiedDiff

  // ----- which patches are legible -----

  /** Neither a header nor a line of text. */
  predicate Silent(piece: string) {
    MatchHeader(piece).None? && (piece == [] || (piece[0] != '+' && piece[0] != ' '))
  }

  predicate AllSilent(pieces: seq<string>) {
    forall i :: 0 <= i < |pieces| ==> Silent(pieces[i])
  }

  /** Kept and added lines must be whole; the later pieces of other lines must say nothing. */
  predicate LegibleLine(line: BodyLine) {
    if line.Context? || line.Add? then IsLine(line.text) else AllSilent(Pieces(RenderLine(line))[1..])
  }

  predicate LegibleHunk(h: Hunk) {
    && AllSilent(Pieces(RenderHeader(h))[1..])
    && forall i :: 0 <= i < |h.body| ==> LegibleLine(h.body[i])
  }

  predicate LegibleHunks(hunks: seq<Hunk>) {
    forall i :: 0 <= i < |hunks| ==> LegibleHunk(hunks[i])
  }

  predicate LegiblePreamble(preamble: seq<string>) {
    forall i :: 0 <= i < |AllPieces(preamble)| ==> MatchHeader(AllPieces(preamble)[i]).None?
  }

  predicate Legible(patch: Patch) {
    LegiblePreamble(patch.preamble) && LegibleHunks(patch.hunks)
  }

  // ----- lines between two headers -----

  function Texts(lines: seq<DiffLine>): seq<string> {
    if lines == [] then [] else NewLine(lines[0]) + Texts(lines[1..])
  }

  function Headers(lines: seq<DiffLine>): nat {
    if lines == [] then 0 else (if lines[0].Header? then 1 else 0) + Headers(lines[1..])
  }

  lemma {:induction false} HeadersConcat(a: seq<DiffLine>, b: seq<DiffLine>)
    ensures Headers(a + b) == Headers(a) + Headers(b)
  {
    if a == [] {
      assert a + b == b;
    } else {
      HeadersConcat(a[1..], b);
      assert (a + b)[1..] == a[1..] + b;
    }
  }

  lemma {:induction false} TextsConcat(a: seq<DiffLine>, b: seq<DiffLine>)
    ensures Texts(a + b) == Texts(a) + Texts(b)
  {
    if a == [] {
      assert a + b == b;
    } else {
      TextsConcat(a[1..], b);
      assert (a + b)[1..] == a[1..] + b;
      Associative(NewLine(a[0]), Texts(a[1..]), Texts(b));
    }
  }

  lemma {:induction false} AsManyEditsAsHeaders(lines: seq<DiffLine>)
    ensures |Parse(lines)| == Headers(lines)
  {
    if lines != [] {
      var n := |lines| - 1;
      AsManyEditsAsHeaders(lines[..n]);
      HeadersConcat(lines[..n], [lines[n]]);
      assert lines == lines[..n] + [lines[n]];
      assert [lines[n]][1..] == [];
    }
  }

  /** Lines without a header extend the last edit by their texts. */
  lemma {:induction false} TextExtends(before: seq<DiffLine>, lines: seq<DiffLine>)
    requires Headers(lines) == 0
    ensures Parse(before + lines) == Extended(Parse(before), Texts(lines))
    decreases |lines|
  {
    if lines == [] {
      assert before + lines == before;
      ExtendedTwice(Parse(before), [], []);
    } else {
      assert before + lines == (before + [lines[0]]) + lines[1..];
      TextExtends(before + [lines[0]], lines[1..]);
      ParseSnoc(before, lines[0]);
      ExtendedTwice(Parse(before), NewLine(lines[0]), Texts(lines[1..]));
    }
  }

  // ----- one line of the patch -----

  lemma {:induction false} SilentIff(pieces: seq<string>)
    ensures AllSilent(pieces) <==> Headers(ReadAll(pieces)) == 0 && Texts(ReadAll(pieces)) == []
  {
    if pieces != [] {
      SilentIff(pieces[1..]);
      assert AllSilent(pieces) <==> Silent(pieces[0]) && AllSilent(pieces[1..]) by {
        assert forall i :: 0 <= i < |pieces[1..]| ==> pieces[1..][i] == pieces[i + 1];
      }
      assert Silent(pieces[0]) <==> Read(pieces[0]).Other? && NewLine(Read(pieces[0])) == [];
    }
  }

  function Rest(pieces: seq<string>): seq<DiffLine>
    requires pieces != []
  {
    ReadAll(pieces[1..])
  }

  lemma FirstIsRead(pieces: seq<string>)
    requires pieces != []
    ensures ReadAll(pieces) == [Read(pieces[0])] + Rest(pieces)
  {
  }

  function Cut(line: BodyLine, n: nat): BodyLine
    requires n <= |line.text|
  {
    match line
    case Context(text) => Context(text[..n])
    case Remove(text) => Remove(text[..n])
    case Add(text) => Add(text[..n])
    case Marker(text) => Marker(text[..n])
  }

  lemma RenderedCut(line: BodyLine, n: nat)
    requires n <= |line.text|
    ensures RenderLine(line) == [RenderLine(line)[0]] + line.text && !IsBreak(RenderLine(line)[0])
    ensures RenderLine(Cut(line, n)) == [RenderLine(line)[0]] + line.text[..n]
  {
  }

  /** The first piece of a body line is the line cut at the first boundary, so it is no header and adds what it
      should, cut there. */
  lemma FirstPieceOfLine(line: BodyLine)
    ensures var pieces, n := Pieces(RenderLine(line)), BreakAt(line.text + "\n");
            && n <= |line.text| && (n == |line.text| ==> IsLine(line.text))
            && pieces != [] && Read(pieces[0]).Other?
            && NewLine(Read(pieces[0])) == NewSideOf(Cut(line, n))
  {
    var n := BreakAt(line.text + "\n");
    FirstPiece(line.text);
    RenderedCut(line, n);
    FirstPieceAfter([RenderLine(line)[0]], line.text);
    BodyLineComesBack(Cut(line, n));
    NewSideLine(Cut(line, n));
  }

  function NewSideOf(line: BodyLine): seq<string> {
    if line.Context? || line.Add? then [line.text] else []
  }

  function LineRead(line: BodyLine): seq<DiffLine> {
    ReadAll(Pieces(RenderLine(line)))
  }

  lemma WholeLine(line: BodyLine)
    requires IsLine(line.text)
    ensures LineRead(line) == [Other(RenderLine(line))]
  {
    OnlyPiece(RenderLine(line));
    ReadOne(RenderLine(line));
    BodyLineComesBack(line);
  }

  /** A legible line opens no edit and adds exactly what it should; a line that opens no edit adds at least as many
      lines as it should, and exactly those only if it is legible. */
  lemma LineIff(line: BodyLine)
    ensures LegibleLine(line) ==> Headers(LineRead(line)) == 0
    ensures Headers(LineRead(line)) == 0 ==>
              && |Texts(LineRead(line))| >= |NewSideOf(line)|
              && (Texts(LineRead(line)) == NewSideOf(line) <==> LegibleLine(line))
  {
    if line.Context? || line.Add? {
      KeptLineIff(line);
    } else {
      OtherLineIff(line);
    }
  }

  lemma TextsCons(line: DiffLine, rest: seq<DiffLine>)
    ensures Texts([line] + rest) == NewLine(line) + Texts(rest)
    ensures Headers([line] + rest) == (if line.Header? then 1 else 0) + Headers(rest)
  {
    assert ([line] + rest)[1..] == rest;
  }

  lemma KeptLineIff(line: BodyLine)
    requires line.Context? || line.Add?
    ensures LegibleLine(line) ==> Headers(LineRead(line)) == 0
    ensures |Texts(LineRead(line))| >= 1 && (Texts(LineRead(line)) == [line.text] <==> LegibleLine(line))
  {
    var pieces, n := Pieces(RenderLine(line)), BreakAt(line.text + "\n");
    FirstPieceOfLine(line);
    FirstIsRead(pieces);
    TextsCons(Read(pieces[0]), Rest(pieces));
    if IsLine(line.text) {
      WholeLine(line);
      TextsCons(Other(RenderLine(line)), []);
      NewSideLine(line);
      assert [Other(RenderLine(line))] + [] == [Other(RenderLine(line))];
    } else {
      assert Texts(LineRead(line))[0] == line.text[..n] != line.text;
    }
  }

  lemma OtherLineIff(line: BodyLine)
    requires line.Remove? || line.Marker?
    ensures LegibleLine(line) <==> Headers(LineRead(line)) == 0 && Texts(LineRead(line)) == []
  {
    var pieces := Pieces(RenderLine(line));
    FirstPieceOfLine(line);
    FirstIsRead(pieces);
    TextsCons(Read(pieces[0]), Rest(pieces));
    SilentIff(pieces[1..]);
  }

  // ----- one hunk -----

  lemma RangeIsLine(start: nat, length: nat, short: bool)
    ensures IsLine(RenderRange(start, length, short))
  {
    var digits, more := Decimal.Print(start), Decimal.Print(length);
    assert forall i :: 0 <= i < |digits| ==> Decimal.IsDigit(digits[i]);
    assert forall i :: 0 <= i < |more| ==> Decimal.IsDigit(more[i]);
  }

  lemma FrontIsLine(h: Hunk)
    ensures IsLine(HeaderFront(h))
  {
    RangeIsLine(h.oldStart, |OldSide(h.body)|, h.oldShort);
    RangeIsLine(h.newStart, |NewSide(h.body)|, h.newShort);
  }

  lemma CutHeaderIsRead(h: Hunk, heading: string)
    ensures Read(HeaderFront(h) + heading) == HunkHeader(h)
  {
    HeaderIsRead(h.(heading := heading));
  }

  /** A heading with a boundary in it is cut there; the header before it is read all the same. */
  lemma FirstPieceOfHeader(h: Hunk)
    ensures var pieces := Pieces(RenderHeader(h));
            pieces != [] && Read(pieces[0]) == HunkHeader(h)
  {
    FrontIsLine(h);
    FirstPieceAfter(HeaderFront(h), h.heading);
    CutHeaderIsRead(h, h.heading[..BreakAt(h.heading + "\n")]);
  }

  function BodyRead(body: seq<BodyLine>): seq<DiffLine> {
    ReadAll(AllPieces(RenderBody(body)))
  }

  lemma BodyReadCons(body: seq<BodyLine>)
    requires body != []
    ensures BodyRead(body) == LineRead(body[0]) + BodyRead(body[1..])
  {
    ReadConcat(Pieces(RenderLine(body[0])), AllPieces(RenderBody(body[1..])));
  }

  lemma {:induction false} BodyIff(body: seq<BodyLine>)
    ensures (forall i :: 0 <= i < |body| ==> LegibleLine(body[i])) ==> Headers(BodyRead(body)) == 0
    ensures Headers(BodyRead(body)) == 0 ==>
              && |Texts(BodyRead(body))| >= |NewSide(body)|
              && (Texts(BodyRead(body)) == NewSide(body) <==> forall i :: 0 <= i < |body| ==> LegibleLine(body[i]))
  {
    if body != [] {
      BodyIff(body[1..]);
      LineIff(body[0]);
      BodyReadCons(body);
      HeadersConcat(LineRead(body[0]), BodyRead(body[1..]));
      TextsConcat(LineRead(body[0]), BodyRead(body[1..]));
      LegibleCons(body);
      if Headers(BodyRead(body)) == 0 {
        SameParts(Texts(LineRead(body[0])), Texts(BodyRead(body[1..])), NewSideOf(body[0]), NewSide(body[1..]));
      }
    }
  }

  lemma LegibleCons(body: seq<BodyLine>)
    requires body != []
    ensures (forall i :: 0 <= i < |body| ==> LegibleLine(body[i]))
        <==> LegibleLine(body[0]) && forall i :: 0 <= i < |body[1..]| ==> LegibleLine(body[1..][i])
    ensures NewSide(body) == NewSideOf(body[0]) + NewSide(body[1..])
  {
    assert forall i :: 0 <= i < |body[1..]| ==> body[1..][i] == body[i + 1];
  }

  /** What is read after a hunk's header, up to the next hunk. */
  function HunkTail(h: Hunk): seq<DiffLine> {
    FirstPieceOfHeader(h);
    Rest(Pieces(RenderHeader(h))) + BodyRead(h.body)
  }

  lemma {:induction false} WholeBodyIsLegible(body: seq<BodyLine>)
    requires Headers(BodyRead(body)) == 0 && |Texts(BodyRead(body))| == |NewSide(body)| && AreLines(NewSide(body))
    ensures forall i :: 0 <= i < |body| ==> LegibleLine(body[i])
  {
    if body != [] {
      BodyReadCons(body);
      HeadersConcat(LineRead(body[0]), BodyRead(body[1..]));
      TextsConcat(LineRead(body[0]), BodyRead(body[1..]));
      LegibleCons(body);
      LineIff(body[0]);
      BodyIff(body[1..]);
      LinesOfParts(NewSideOf(body[0]), NewSide(body[1..]));
      WholeBodyIsLegible(body[1..]);
      WholeLineIsLegible(body[0]);
    }
  }

  lemma LinesOfParts(a: seq<string>, b: seq<string>)
    requires AreLines(a + b)
    ensures AreLines(a) && AreLines(b)
  {
    assert forall i :: 0 <= i < |a| ==> a[i] == (a + b)[i];
    assert forall i :: 0 <= i < |b| ==> b[i] == (a + b)[|a| + i];
  }

  lemma WholeLineIsLegible(line: BodyLine)
    requires Headers(LineRead(line)) == 0 && |Texts(LineRead(line))| == |NewSideOf(line)| && AreLines(NewSideOf(line))
    ensures LegibleLine(line)
  {
    LineIff(line);
    if line.Context? || line.Add? {
      assert NewSideOf(line)[0] == line.text;
    }
  }

  lemma JoinedIff(front: seq<DiffLine>, body: seq<DiffLine>, expected: seq<string>)
    requires |Texts(body)| >= |expected|
    ensures Headers(front + body) == Headers(front) + Headers(body)
    ensures |Texts(front + body)| >= |expected|
    ensures Texts(front + body) == expected <==> Texts(front) == [] && Texts(body) == expected
  {
    HeadersConcat(front, body);
    TextsConcat(front, body);
    SameParts(Texts(front), Texts(body), [], expected);
    assert [] + expected == expected;
  }

  /** A legible hunk opens no further edit and adds exactly its new side; one that opens no further edit adds at
      least as many lines, and exactly its new side only if it is legible. */
  lemma HunkIff(h: Hunk)
    ensures LegibleHunk(h) ==> Headers(HunkTail(h)) == 0
    ensures Headers(HunkTail(h)) == 0 ==>
              && |Texts(HunkTail(h))| >= |NewSide(h.body)|
              && (Texts(HunkTail(h)) == NewSide(h.body) <==> LegibleHunk(h))
  {
    FirstPieceOfHeader(h);
    var front, body := Rest(Pieces(RenderHeader(h))), BodyRead(h.body);
    SilentIff(Pieces(RenderHeader(h))[1..]);
    BodyIff(h.body);
    HeadersConcat(front, body);
    if Headers(body) == 0 {
      JoinedIff(front, body, NewSide(h.body));
    }
  }

  /** A hunk that opens no further edit and adds as many lines as its new side, which are all whole, is legible. */
  lemma WholeHunkIsLegible(h: Hunk)
    requires Headers(HunkTail(h)) == 0 && |Texts(HunkTail(h))| == |NewSide(h.body)| && AreLines(NewSide(h.body))
    ensures LegibleHunk(h)
  {
    FirstPieceOfHeader(h);
    var front, body := Rest(Pieces(RenderHeader(h))), BodyRead(h.body);
    HeadersConcat(front, body);
    TextsConcat(front, body);
    BodyIff(h.body);
    WholeBodyIsLegible(h.body);
    SilentIff(Pieces(RenderHeader(h))[1..]);
  }

  // ----- all hunks -----

  /** A hunk as it is read: its header, and the lines up to the next hunk. */
  datatype ReadHunk = ReadHunk(header: DiffLine, tail: seq<DiffLine>)

  function AsRead(hunks: seq<Hunk>): (read: seq<ReadHunk>)
    ensures |read| == |hunks| && HeadersOnly(read)
  {
    if hunks == [] then [] else [ReadHunk(HunkHeader(hunks[0]), HunkTail(hunks[0]))] + AsRead(hunks[1..])
  }

  lemma {:induction false} EditsOfCount(hunks: seq<Hunk>)
    ensures |EditsOf(hunks)| == |hunks|
  {
    if hunks != [] {
      EditsOfCount(hunks[1..]);
    }
  }

  lemma {:induction false} AsReadAt(hunks: seq<Hunk>, i: nat)
    requires i < |hunks|
    ensures AsRead(hunks)[i] == ReadHunk(HunkHeader(hunks[i]), HunkTail(hunks[i]))
    ensures |EditsOf(hunks)| == |hunks| && EditsOf(hunks)[i] == EditOf(hunks[i])
  {
    EditsOfCount(hunks);
    if i > 0 {
      AsReadAt(hunks[1..], i - 1);
    }
  }

  function LinesOf(read: seq<ReadHunk>): seq<DiffLine> {
    if read == [] then [] else [read[0].header] + read[0].tail + LinesOf(read[1..])
  }

  ghost predicate HeadersOnly(read: seq<ReadHunk>) {
    forall i :: 0 <= i < |read| ==> read[i].header.Header?
  }

  /** No line but the first of each hunk is a header. */
  ghost predicate NoStray(read: seq<ReadHunk>) {
    forall i :: 0 <= i < |read| ==> Headers(read[i].tail) == 0
  }

  /** The edits read when there is no stray header: the right ranges, with what was read as their content. */
  function EditsIn(read: seq<ReadHunk>): (edits: seq<LineEdit>)
    requires HeadersOnly(read)
    ensures |edits| == |read|
    ensures forall i :: 0 <= i < |read| ==> edits[i] == Opened(read[i].header).(content := Texts(read[i].tail))
  {
    if read == [] then []
    else [Opened(read[0].header).(content := Texts(read[0].tail))] + EditsIn(read[1..])
  }

  lemma {:induction false} AtLeastOneHeaderPerHunk(read: seq<ReadHunk>)
    requires HeadersOnly(read)
    ensures Headers(LinesOf(read)) >= |read|
    ensures Headers(LinesOf(read)) == |read| ==> NoStray(read)
  {
    if read != [] {
      AtLeastOneHeaderPerHunk(read[1..]);
      HeadersConcat([read[0].header] + read[0].tail, LinesOf(read[1..]));
      TextsCons(read[0].header, read[0].tail);
      assert NoStray(read[1..]) && Headers(read[0].tail) == 0 ==> NoStray(read) by {
        assert forall i :: 0 < i < |read| ==> read[i] == read[1..][i - 1];
      }
    }
  }

  lemma HunkOpensItsEdit(before: seq<DiffLine>, h: ReadHunk)
    requires h.header.Header? && Headers(h.tail) == 0
    ensures Parse(before + ([h.header] + h.tail))
         == Parse(before) + [Opened(h.header).(content := Texts(h.tail))]
  {
    Associative(before, [h.header], h.tail);
    TextExtends(before + [h.header], h.tail);
    HeaderThenText(before, h.header, Texts(h.tail));
  }

  lemma {:induction false} HunksOpenTheirEdits(before: seq<DiffLine>, read: seq<ReadHunk>)
    requires HeadersOnly(read) && NoStray(read)
    ensures Parse(before + LinesOf(read)) == Parse(before) + EditsIn(read)
    decreases |read|
  {
    if read == [] {
      assert before + LinesOf(read) == before;
    } else {
      var first := [read[0].header] + read[0].tail;
      HunkOpensItsEdit(before, read[0]);
      HunksOpenTheirEdits(before + first, read[1..]);
      Associative(before, first, LinesOf(read[1..]));
      Associative(Parse(before), [Opened(read[0].header).(content := Texts(read[0].tail))], EditsIn(read[1..]));
    }
  }

  lemma HunkIsRead(h: Hunk)
    ensures ReadAll(AllPieces([RenderHeader(h)] + RenderBody(h.body))) == [HunkHeader(h)] + HunkTail(h)
  {
    FirstPieceOfHeader(h);
    var pieces := Pieces(RenderHeader(h));
    var lines := [RenderHeader(h)] + RenderBody(h.body);
    assert lines[1..] == RenderBody(h.body);
    ReadConcat(pieces, AllPieces(RenderBody(h.body)));
    FirstIsRead(pieces);
    Associative([HunkHeader(h)], Rest(pieces), BodyRead(h.body));
  }

  lemma LinesOfCons(h: ReadHunk, read: seq<ReadHunk>)
    ensures LinesOf([h] + read) == [h.header] + h.tail + LinesOf(read)
  {
    assert ([h] + read)[1..] == read;
  }

  lemma {:induction false} HunksAreRead(hunks: seq<Hunk>)
    ensures ReadAll(AllPieces(RenderHunks(hunks))) == LinesOf(AsRead(hunks))
  {
    if hunks != [] {
      var first := [RenderHeader(hunks[0])] + RenderBody(hunks[0].body);
      HunksAreRead(hunks[1..]);
      HunkIsRead(hunks[0]);
      AllPiecesConcat(first, RenderHunks(hunks[1..]));
      ReadConcat(AllPieces(first), AllPieces(RenderHunks(hunks[1..])));
      LinesOfCons(ReadHunk(HunkHeader(hunks[0]), HunkTail(hunks[0])), AsRead(hunks[1..]));
    }
  }

  /** No piece but the first of each header matches the header pattern. */
  ghost predicate NoStrayHeader(hunks: seq<Hunk>) {
    NoStray(AsRead(hunks))
  }

  function EditsRead(hunks: seq<Hunk>): seq<LineEdit> {
    EditsIn(AsRead(hunks))
  }

  /** Hunk by hunk: what is read is what is expected exactly when the hunk is legible. */
  lemma HunkReadIff(hunks: seq<Hunk>, i: nat)
    requires i < |hunks|
    ensures |EditsOf(hunks)| == |hunks|
    ensures LegibleHunk(hunks[i]) ==> Headers(AsRead(hunks)[i].tail) == 0
    ensures Headers(AsRead(hunks)[i].tail) == 0 ==>
              && |EditsRead(hunks)[i].content| >= |EditsOf(hunks)[i].content|
              && EditsRead(hunks)[i].(content := EditsOf(hunks)[i].content) == EditsOf(hunks)[i]
              && (EditsRead(hunks)[i] == EditsOf(hunks)[i] <==> LegibleHunk(hunks[i]))
  {
    AsReadAt(hunks, i);
    HunkIff(hunks[i]);
    var tail, read := HunkTail(hunks[i]), EditsRead(hunks)[i];
    assert read == Opened(HunkHeader(hunks[i])).(content := Texts(tail));
  }

  lemma EditsReadIff(hunks: seq<Hunk>)
    ensures LegibleHunks(hunks) ==> NoStrayHeader(hunks)
    ensures NoStrayHeader(hunks) ==> (EditsRead(hunks) == EditsOf(hunks) <==> LegibleHunks(hunks))
  {
    EditsOfCount(hunks);
    forall i: nat | i < |hunks|
      ensures LegibleHunk(hunks[i]) ==> Headers(AsRead(hunks)[i].tail) == 0
      ensures Headers(AsRead(hunks)[i].tail) == 0 ==>
                (EditsRead(hunks)[i] == EditsOf(hunks)[i] <==> LegibleHunk(hunks[i]))
    {
      HunkReadIff(hunks, i);
    }
  }

  // ----- the whole text -----

  /** The edits the reader makes of the text of a patch. */
  function EditsOfText(patch: Patch): seq<LineEdit> {
    Parse(ReadAll(SplitLines(Unlines(Render(patch)))))
  }

  lemma {:induction false} PreambleIff(lines: seq<string>)
    ensures Headers(ReadAll(lines)) == 0 <==> forall i :: 0 <= i < |lines| ==> MatchHeader(lines[i]).None?
  {
    if lines != [] {
      PreambleIff(lines[1..]);
      assert forall i :: 0 <= i < |lines[1..]| ==> lines[1..][i] == lines[i + 1];
      assert Read(lines[0]).Header? <==> MatchHeader(lines[0]).Some?;
    }
  }

  lemma TextIsRead(patch: Patch)
    ensures ReadAll(SplitLines(Unlines(Render(patch))))
         == ReadAll(AllPieces(patch.preamble)) + LinesOf(AsRead(patch.hunks))
  {
    SplitIsAllPieces(Render(patch));
    AllPiecesConcat(patch.preamble, RenderHunks(patch.hunks));
    ReadConcat(AllPieces(patch.preamble), AllPieces(RenderHunks(patch.hunks)));
    HunksAreRead(patch.hunks);
  }

  /** Without stray headers the reading has the right ranges. */
  lemma TextWithoutStrayHeader(patch: Patch)
    requires LegiblePreamble(patch.preamble) && NoStrayHeader(patch.hunks)
    ensures EditsOfText(patch) == EditsRead(patch.hunks)
  {
    var preamble := ReadAll(AllPieces(patch.preamble));
    TextIsRead(patch);
    PreambleIff(AllPieces(patch.preamble));
    AsManyEditsAsHeaders(preamble);
    HunksOpenTheirEdits(preamble, AsRead(patch.hunks));
    assert Parse(preamble) == [];
  }

  /** Reading the text of a patch gives one edit per hunk, its old range and its new side, exactly when the patch is
      legible: every kept or added line is whole, and no later piece of another line opens an edit or adds a line. */
  lemma PatchComesBackIff(patch: Patch)
    ensures EditsOfText(patch) == EditsOf(patch.hunks) <==> Legible(patch)
  {
    var preamble := ReadAll(AllPieces(patch.preamble));
    TextIsRead(patch);
    PreambleIff(AllPieces(patch.preamble));
    AsManyEditsAsHeaders(preamble + LinesOf(AsRead(patch.hunks)));
    HeadersConcat(preamble, LinesOf(AsRead(patch.hunks)));
    AtLeastOneHeaderPerHunk(AsRead(patch.hunks));
    EditsOfCount(patch.hunks);
    EditsReadIff(patch.hunks);
    if LegiblePreamble(patch.preamble) && NoStrayHeader(patch.hunks) {
      TextWithoutStrayHeader(patch);
    }
  }

  // ----- inputs on which it fails, or does not -----

  const FORM_FEED := '\U{0C}'

  lemma NotAHeader(s: string)
    requires s == [] || s[0] != '@'
    ensures MatchHeader(s).None?
  {
    assert "@@ -"[0] == '@';
  }

  const BROKEN := "a" + [FORM_FEED] + "b"

  lemma PiecesOf(mark: char, rest: string)
    requires !IsBreak(mark) && IsLine(rest)
    ensures Pieces([mark] + ("a" + [FORM_FEED] + rest)) == [[mark, 'a'], rest]
  {
    TwoPieces([mark, 'a'], FORM_FEED, rest);
    assert [mark] + ("a" + [FORM_FEED] + rest) == [mark, 'a'] + [FORM_FEED] + rest;
  }

  /** A kept line with a form feed is cut there, and its rest is dropped. */
  lemma KeptLineIsCut()
    ensures !LegibleLine(Context(BROKEN))
    ensures LineRead(Context(BROKEN)) == [Other(" a"), Other("b")] && Texts(LineRead(Context(BROKEN))) == ["a"]
  {
    assert BROKEN[1] == FORM_FEED;
    PiecesOf(' ', "b");
    assert RenderLine(Context(BROKEN)) == [' '] + BROKEN;
    NotAHeader(" a");
    NotAHeader("b");
    TwoAreRead(" a", "b");
  }

  lemma TwoAreRead(a: string, b: string)
    ensures ReadAll([a, b]) == [Read(a), Read(b)]
    ensures Texts([Read(a), Read(b)]) == NewLine(Read(a)) + NewLine(Read(b))
  {
    ReadConcat([a], [b]);
    ReadOne(a);
    ReadOne(b);
    assert [a, b] == [a] + [b] && [Read(a), Read(b)] == [Read(a)] + [Read(b)];
    TextsCons(Read(a), [Read(b)]);
    TextsCons(Read(b), []);
    assert [Read(b)] + [] == [Read(b)] && NewLine(Read(b)) + [] == NewLine(Read(b));
  }

  /** A removed line may hold a further boundary exactly when what follows it says nothing. */
  lemma RemovedLineMayBreak(front: string, boundary: char, rest: string)
    requires IsLine(front) && IsLine(rest) && IsBreak(boundary) && (boundary == '\r' ==> rest != [])
    ensures LegibleLine(Remove(front + [boundary] + rest)) <==> Silent(rest)
  {
    Associative("-", front, [boundary]);
    Associative("-", front + [boundary], rest);
    TwoPieces("-" + front, boundary, rest);
    var pieces := Pieces("-" + (front + [boundary] + rest));
    assert pieces == ["-" + front, rest];
    assert pieces[1..] == [rest];
    assert AllSilent([rest]) <==> Silent([rest][0]);
  }

  lemma SidesCons(line: BodyLine, rest: seq<BodyLine>)
    ensures OldSide([line] + rest) == (if line.Context? || line.Remove? then [line.text] else []) + OldSide(rest)
    ensures NewSide([line] + rest) == NewSideOf(line) + NewSide(rest)
    ensures BodyRead([line] + rest) == LineRead(line) + BodyRead(rest)
  {
    assert ([line] + rest)[1..] == rest;
    BodyReadCons([line] + rest);
  }

  lemma OneLine(line: BodyLine)
    requires line.Add?
    ensures OldSide([line]) == [] && NewSide([line]) == [line.text] && BodyRead([line]) == LineRead(line)
  {
    SidesCons(line, []);
    assert [line] + [] == [line];
    assert LineRead(line) + [] == LineRead(line);
  }

  lemma KeepAndAdd(kept: BodyLine, added: BodyLine)
    requires kept.Context? && added.Add?
    ensures OldSide([kept] + [added]) == [kept.text] && NewSide([kept] + [added]) == [kept.text] + [added.text]
    ensures BodyRead([kept] + [added]) == LineRead(kept) + LineRead(added)
  {
    OneLine(added);
    SidesCons(kept, [added]);
  }

  lemma WholeHeader(h: Hunk)
    requires IsLine(h.heading)
    ensures HunkTail(h) == BodyRead(h.body)
  {
    FrontIsLine(h);
    OnlyPiece(HeaderFront(h) + h.heading);
    assert [RenderHeader(h)][1..] == [];
    assert [] + BodyRead(h.body) == BodyRead(h.body);
  }

  lemma AddedIsRead(text: string)
    requires IsLine(text)
    ensures Headers(LineRead(Add(text))) == 0 && Texts(LineRead(Add(text))) == [text]
  {
    LineIff(Add(text));
  }

  lemma CutHunk(h: Hunk)
    requires IsLine(h.heading) && h.body == [Context(BROKEN)] + [Add("c")]
    ensures Headers(HunkTail(h)) == 0 && Texts(HunkTail(h)) == ["a"] + ["c"]
  {
    WholeHeader(h);
    KeepAndAdd(Context(BROKEN), Add("c"));
    KeptLineIsCut();
    AddedIsRead("c");
    TextsConcat(LineRead(Context(BROKEN)), LineRead(Add("c")));
    HeadersConcat(LineRead(Context(BROKEN)), LineRead(Add("c")));
  }

  lemma OneEditIn(read: ReadHunk)
    requires read.header.Header? && Headers(read.tail) == 0
    ensures NoStray([read]) && EditsIn([read]) == [Opened(read.header).(content := Texts(read.tail))]
  {
    assert [read][1..] == [];
    assert EditsIn([read])[0] == Opened(read.header).(content := Texts(read.tail));
  }

  lemma OneIsRead(h: Hunk)
    ensures AsRead([h]) == [ReadHunk(HunkHeader(h), HunkTail(h))]
  {
    AsReadAt([h], 0);
  }

  lemma OneHunkApplies(file: seq<string>, h: Hunk)
    requires |file| == 1 && h.oldStart == 1 && OldSide(h.body) == file
    ensures Apply(file, Patch([], [h])) == Some(NewSide(h.body))
  {
    var hunks := [h];
    BodyReplacesOldByNew(file, 0, h.body);
    assert file[0..1] == file && file[1..] == [] && file[0..0] == [] && hunks[1..] == [];
    assert ApplyFrom(file, 1, hunks[1..]) == Some([]);
    assert [] + NewSide(h.body) + [] == NewSide(h.body);
  }

  lemma CutPatchApplies(h: Hunk)
    requires h.oldStart == 1 && h.body == [Context(BROKEN)] + [Add("c")]
    ensures Apply([BROKEN], Patch([], [h])) == Some([BROKEN] + ["c"])
    ensures EditOf(h).startLine == 0 && EditOf(h).endLine == 1
  {
    KeepAndAdd(Context(BROKEN), Add("c"));
    OneHunkApplies([BROKEN], h);
  }

  /** A patch that applies, and whose kept line is read without its rest. */
  lemma AFormFeedLosesText(h: Hunk)
    requires h.oldStart == 1 && IsLine(h.heading) && h.body == [Context(BROKEN)] + [Add("c")]
    ensures Apply([BROKEN], Patch([], [h])) == Some([BROKEN] + ["c"])
    ensures EditsOfText(Patch([], [h])) == [Edit(0, 1, ["a"] + ["c"])]
  {
    CutPatchApplies(h);
    CutHunk(h);
    OneIsRead(h);
    OneEditIn(ReadHunk(HunkHeader(h), HunkTail(h)));
    TextWithoutStrayHeader(Patch([], [h]));
  }

  // ----- a stray header that does no harm -----

  /** A removed line whose later pieces are a hunk header and a line of text. */
  function HidingLine(stray: Hunk): BodyLine {
    Remove("x" + ([FORM_FEED] + (RenderHeader(stray) + ([FORM_FEED] + " y"))))
  }

  lemma HidingLinePieces(stray: Hunk)
    requires IsLine(stray.heading)
    ensures Pieces(RenderLine(HidingLine(stray))) == ["-x"] + [RenderHeader(stray)] + [" y"]
  {
    FrontIsLine(stray);
    ThreePieces("-x", FORM_FEED, RenderHeader(stray), " y");
    var hidden := [FORM_FEED] + (RenderHeader(stray) + ([FORM_FEED] + " y"));
    Associative("-", "x", hidden);
    assert "-" + "x" == "-x";
  }

  lemma ThreeAreRead(a: string, b: string, c: string)
    ensures ReadAll([a] + [b] + [c]) == [Read(a)] + [Read(b)] + [Read(c)]
  {
    ReadConcat([a] + [b], [c]);
    ReadConcat([a], [b]);
    ReadOne(a);
    ReadOne(b);
    ReadOne(c);
  }

  lemma HidingLineIsRead(stray: Hunk)
    requires IsLine(stray.heading)
    ensures LineRead(HidingLine(stray)) == [Other("-x")] + [HunkHeader(stray)] + [Other(" y")]
  {
    HidingLinePieces(stray);
    ThreeAreRead("-x", RenderHeader(stray), " y");
    HeaderIsRead(stray);
    NotAHeader("-x");
    NotAHeader(" y");
  }

  lemma HidingLineIsIllegible(stray: Hunk)
    requires IsLine(stray.heading)
    ensures !LegibleLine(HidingLine(stray))
  {
    HidingLinePieces(stray);
    HeaderComesBack(stray);
    assert Pieces(RenderLine(HidingLine(stray)))[1..][0] == RenderHeader(stray);
  }

  lemma AddAndRemove(added: BodyLine, removed: BodyLine)
    requires added.Add? && removed.Remove?
    ensures OldSide([added] + [removed]) == [removed.text] && NewSide([added] + [removed]) == [added.text]
    ensures BodyRead([added] + [removed]) == LineRead(added) + LineRead(removed)
  {
    SidesCons(removed, []);
    assert [removed] + [] == [removed] && LineRead(removed) + [] == LineRead(removed);
    SidesCons(added, [removed]);
  }

  lemma ReadInTwo(first: DiffLine, tail: seq<DiffLine>, second: DiffLine, rest: seq<DiffLine>)
    requires first.Header? && second.Header? && Headers(tail) == 0 && Headers(rest) == 0
    ensures Parse(([first] + tail) + ([second] + rest))
         == [Opened(first).(content := Texts(tail))] + [Opened(second).(content := Texts(rest))]
  {
    HunkOpensItsEdit([], ReadHunk(first, tail));
    assert [] + ([first] + tail) == [first] + tail && Parse([]) == [];
    HunkOpensItsEdit([first] + tail, ReadHunk(second, rest));
  }

  lemma TextsOfTwo(a: DiffLine, b: DiffLine)
    requires a.Other? && b.Other?
    ensures Headers([a] + [b]) == 0 && Texts([a] + [b]) == NewLine(a) + NewLine(b)
  {
    TextsCons(a, [b]);
    TextsCons(b, []);
    assert [b] + [] == [b] && NewLine(b) + [] == NewLine(b);
  }

  lemma TextOfOneHunk(h: Hunk)
    ensures EditsOfText(Patch([], [h])) == Parse([HunkHeader(h)] + HunkTail(h))
  {
    TextIsRead(Patch([], [h]));
    OneIsRead(h);
    LinesOfCons(ReadHunk(HunkHeader(h), HunkTail(h)), []);
    WithNothing([HunkHeader(h)] + HunkTail(h));
    assert AllPieces([]) == [] && ReadAll([]) == [];
    assert [ReadHunk(HunkHeader(h), HunkTail(h))] + [] == [ReadHunk(HunkHeader(h), HunkTail(h))];
  }

  lemma WithNothing(lines: seq<DiffLine>)
    ensures [] + lines == lines && lines + [] == lines
  {
  }

  lemma TailOfTwo(h: Hunk, added: BodyLine, removed: BodyLine)
    requires IsLine(h.heading) && h.body == [added] + [removed] && added.Add? && removed.Remove?
    ensures HunkTail(h) == LineRead(added) + LineRead(removed)
  {
    WholeHeader(h);
    AddAndRemove(added, removed);
  }

  /** What is read of a hunk whose second line hides a header. */
  lemma HiddenHeaderIsRead(h: DiffLine, tail: seq<DiffLine>, first: seq<DiffLine>, second: seq<DiffLine>,
                           b: DiffLine, c: DiffLine, d: DiffLine, e: DiffLine)
    requires tail == first + second && first == [b] && second == [c] + [d] + [e]
    requires h.Header? && b.Other? && c.Other? && d.Header? && e.Other?
    ensures Parse([h] + tail)
         == [Opened(h).(content := NewLine(b) + NewLine(c))] + [Opened(d).(content := NewLine(e))]
  {
    assert [h] + tail == ([h] + ([b] + [c])) + ([d] + [e]);
    TextsOfTwo(b, c);
    TextsCons(e, []);
    WithNothing([e]);
    assert NewLine(e) + [] == NewLine(e);
    ReadInTwo(h, [b] + [c], d, [e]);
  }

  lemma IllegibleHunk(h: Hunk, i: nat)
    requires i < |h.body| && !LegibleLine(h.body[i])
    ensures !Legible(Patch([], [h]))
  {
    assert [h][0] == h;
  }

  lemma PlusZ()
    ensures LineRead(Add("z")) == [Other("+z")]
    ensures NewLine(Other("+z")) == ["z"] && NewLine(Other("-x")) == [] && NewLine(Other(" y")) == ["y"]
  {
    WholeLine(Add("z"));
    assert "+" + "z" == "+z" && "+z"[1..] == "z" && " y"[1..] == "y";
  }

  /** An illegible patch, and the edits it is read as. */
  lemma StrayHeaderIsRead(h: Hunk, stray: Hunk, hiding: BodyLine)
    requires IsLine(h.heading) && IsLine(stray.heading) && hiding == HidingLine(stray)
    requires h.body == [Add("z")] + [hiding]
    ensures !Legible(Patch([], [h]))
    ensures EditsOfText(Patch([], [h]))
         == [Opened(HunkHeader(h)).(content := ["z"] + [])] + [Opened(HunkHeader(stray)).(content := ["y"])]
  {
    HidingLineIsIllegible(stray);
    IllegibleHunk(h, 1);
    TextOfOneHunk(h);
    TailOfTwo(h, Add("z"), hiding);
    HidingLineIsRead(stray);
    PlusZ();
    HiddenHeaderIsRead(HunkHeader(h), HunkTail(h), LineRead(Add("z")), LineRead(hiding),
                       Other("+z"), Other("-x"), HunkHeader(stray), Other(" y"));
  }

  // ----- what is read are whole lines -----

  lemma {:induction false} TextsAreLines(pieces: seq<string>)
    requires AreLines(pieces)
    ensures AreLines(Texts(ReadAll(pieces)))
  {
    if pieces != [] {
      TextsAreLines(pieces[1..]);
      TextsCons(Read(pieces[0]), ReadAll(pieces[1..]));
    }
  }

  lemma {:induction false} AllPiecesAreLines(lines: seq<string>)
    ensures AreLines(AllPieces(lines))
  {
    if lines != [] {
      AllPiecesAreLines(lines[1..]);
    }
  }

  lemma HunkTextsAreLines(h: Hunk)
    ensures AreLines(Texts(HunkTail(h)))
  {
    FirstPieceOfHeader(h);
    TextsAreLines(Pieces(RenderHeader(h))[1..]);
    AllPiecesAreLines(RenderBody(h.body));
    TextsAreLines(AllPieces(RenderBody(h.body)));
    TextsConcat(Rest(Pieces(RenderHeader(h))), BodyRead(h.body));
  }
}
