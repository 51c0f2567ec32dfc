/** From the text of a patch to the lines and to the document it leaves in the editor. */
module PatchAction {
  import opened CodeActions
  import opened FeedbackService
  import opened LineEdits
  import opened Lines
  import opened Outcomes
  import opened PatchAsEdits
  import opened PatchReading
  import opened TextDocument
  import opened UnifiedDiff

  // ----- what is read, against what is meant -----

  /** Without a stray header what is read has the ranges of the hunks, at least their lines, and only whole ones. */
  lemma ReadCoversAsMuch(hunks: seq<Hunk>)
    requires NoStrayHeader(hunks)
    ensures CoversAsMuch(EditsRead(hunks), EditsOf(hunks)) && WholeContents(EditsRead(hunks))
  {
    EditsOfCount(hunks);
    forall i: nat | i < |hunks|
      ensures AreLines(EditsRead(hunks)[i].content)
      ensures EditsRead(hunks)[i].(content := EditsOf(hunks)[i].content) == EditsOf(hunks)[i]
      ensures |EditsRead(hunks)[i].content| >= |EditsOf(hunks)[i].content|
    {
      HunkReadIff(hunks, i);
      AsReadAt(hunks, i);
      HunkTextsAreLines(hunks[i]);
    }
  }

  /** Reading as many lines as were meant, all of them whole, is reading what was meant. */
  lemma WholeIsLegible(hunks: seq<Hunk>)
    requires NoStrayHeader(hunks)
    requires AsLong(EditsRead(hunks), EditsOf(hunks)) && WholeContents(EditsOf(hunks))
    ensures LegibleHunks(hunks) && EditsRead(hunks) == EditsOf(hunks)
  {
    EditsOfCount(hunks);
    forall i: nat | i < |hunks|
      ensures LegibleHunk(hunks[i])
    {
      AsReadAt(hunks, i);
      assert EditsRead(hunks)[i].content == Texts(HunkTail(hunks[i]));
      assert AreLines(EditsOf(hunks)[i].content);
      WholeHunkIsLegible(hunks[i]);
    }
    EditsReadIff(hunks);
  }

  // ----- the lines -----

  /** The edits are well placed in the file and yield its patched lines. */
  predicate YieldsPatched(file: seq<string>, edits: seq<LineEdit>, hunks: seq<Hunk>)
    requires ApplyFrom(file, 0, hunks).Some?
  {
    Ordered(edits, 0, |file|) && Replaced(AsPieces(file), edits, 0) == ApplyFrom(file, 0, hunks).value
  }

  lemma YieldsOnlyIfWhole(file: seq<string>, edits: seq<LineEdit>, hunks: seq<Hunk>)
    requires ApplyFrom(file, 0, hunks).Some? && YieldsPatched(file, edits, hunks)
    requires CoversAsMuch(edits, EditsOf(hunks)) && WholeContents(edits)
    ensures AsLong(edits, EditsOf(hunks)) && WholeContents(EditsOf(hunks))
  {
    ReplacedIsSpliced(AsPieces(file), edits, 0);
    RightOnlyIfWhole(file, edits, hunks);
  }

  /** The edits read from the text of a patch are well placed and yield the patched lines exactly when the patch is
      legible and its pure insertions are harmless. */
  lemma PatchedLinesIff(file: seq<string>, patch: Patch)
    requires Apply(file, patch).Some?
    ensures Legible(patch) ==> NoStrayHeader(patch.hunks)
    ensures LegiblePreamble(patch.preamble) && NoStrayHeader(patch.hunks) ==>
              (YieldsPatched(file, EditsOfText(patch), patch.hunks)
               <==> Legible(patch) && AllHarmless(file, 0, patch.hunks))
  {
    EditsReadIff(patch.hunks);
    if LegiblePreamble(patch.preamble) && NoStrayHeader(patch.hunks) {
      var read := EditsRead(patch.hunks);
      TextWithoutStrayHeader(patch);
      EditsMeanPatchIff(file, patch);
      if YieldsPatched(file, read, patch.hunks) {
        ReadCoversAsMuch(patch.hunks);
        YieldsOnlyIfWhole(file, read, patch.hunks);
        WholeIsLegible(patch.hunks);
      }
    }
  }

  // ----- the document -----

  /** Every hunk leaves at least one line. */
  predicate NoEmptySide(hunks: seq<Hunk>) {
    forall i :: 0 <= i < |hunks| ==> NewSide(hunks[i].body) != []
  }

  /** How many lines of the file come before the end of the last hunk. */
  function Touched(hunks: seq<Hunk>): int {
    if hunks == [] then 0 else End(hunks[|hunks| - 1])
  }

  /** The editor counts the lines of the file up to the last hunk as the file does. */
  predicate EditorSees(file: seq<string>, hunks: seq<Hunk>) {
    forall i :: 0 <= i < |file| && i < Touched(hunks) ==> OneEditorLine(file[i])
  }

  lemma {:induction false} TouchedInFile(file: seq<string>, at: nat, hunks: seq<Hunk>)
    requires at <= |file| && hunks != [] && ApplyFrom(file, at, hunks).Some?
    ensures at <= Touched(hunks) <= |file|
    decreases |hunks|
  {
    HunkApplies(file, at, hunks);
    if |hunks| > 1 {
      TouchedInFile(file, End(hunks[0]), hunks[1..]);
    }
  }

  /** Ordered edits lie before the end of the last. */
  lemma {:induction false} OrderedToLast<T>(edits: seq<Edit<T>>, at: int, size: nat, n: nat)
    requires Ordered(edits, at, size) && (edits != [] ==> edits[|edits| - 1].endLine <= n)
    ensures Ordered(edits, at, n)
  {
    if |edits| > 1 {
      OrderedToLast(edits[1..], edits[0].endLine, size, n);
    }
  }

  lemma OrderedToTouched(file: seq<string>, edits: seq<LineEdit>, hunks: seq<Hunk>)
    requires ApplyFrom(file, 0, hunks).Some? && CoversAsMuch(edits, EditsOf(hunks)) && Ordered(edits, 0, |file|)
    ensures 0 <= Touched(hunks) <= |file| && Ordered(edits, 0, Touched(hunks))
  {
    EditsOfCount(hunks);
    if hunks != [] {
      TouchedInFile(file, 0, hunks);
      AsReadAt(hunks, |hunks| - 1);
      OrderedToLast(edits, 0, |file|, Touched(hunks));
    }
  }

  lemma {:induction false} PatchedNewlineFree(file: seq<string>, at: nat, hunks: seq<Hunk>)
    requires at <= |file| && ApplyFrom(file, at, hunks).Some? && NewlineFree(file)
    requires forall i :: 0 <= i < |hunks| ==> NewlineFree(NewSide(hunks[i].body))
    ensures NewlineFree(ApplyFrom(file, at, hunks).value)
    decreases |hunks|
  {
    if hunks != [] {
      HunkApplies(file, at, hunks);
      PatchedNewlineFree(file, End(hunks[0]), hunks[1..]);
    }
  }

  lemma {:induction false} SplicedNewlineFree(file: seq<string>, edits: seq<LineEdit>, at: nat)
    requires at <= |file| && Ordered(edits, at, |file|) && NewlineFree(file) && WholeContents(edits)
    ensures NewlineFree(Spliced(AsPieces(file), edits, at))
    decreases |edits|
  {
    if edits == [] {
      FlatPieces(file, at, |file|);
      assert AsPieces(file)[at..] == AsPieces(file)[at..|file|];
    } else {
      SplicedNewlineFree(file, edits[1..], edits[0].endLine);
      FirstReplacement(file, at, edits);
      assert AreLines(edits[0].content);
    }
  }

  lemma PrintedCovers(read: seq<LineEdit>, meant: seq<LineEdit>)
    requires CoversAsMuch(read, meant) && WholeContents(read)
    ensures CoversAsMuch(Printed(read), meant) && WholeContents(Printed(read))
    ensures AsLong(Printed(read), meant)
        <==> AsLong(read, meant) && forall i :: 0 <= i < |meant| ==> meant[i].content != []
    ensures AsLong(read, meant) && (forall i :: 0 <= i < |meant| ==> meant[i].content != []) ==> Printed(read) == read
  {
    if AsLong(Printed(read), meant) {
      forall i | 0 <= i < |meant|
        ensures |read[i].content| == |meant[i].content| && meant[i].content != []
      {
        assert |Printed(read)[i].content| == |meant[i].content|;
      }
    }
  }

  /** What the text edits leave is the patched text exactly when the printed lines are the patched ones. */
  lemma TextIff(file: seq<string>, read: seq<LineEdit>, hunks: seq<Hunk>)
    requires ApplyFrom(file, 0, hunks).Some? && CoversAsMuch(read, EditsOf(hunks)) && WholeContents(read)
    requires Ordered(read, 0, |file|) && EditorSees(file, hunks) && NewlineFree(file)
    requires forall i :: 0 <= i < |hunks| ==> NewlineFree(NewSide(hunks[i].body))
    ensures Replaced(EditorLines(Unlines(file)), AsTextEdits(read), 0) == Unlines(ApplyFrom(file, 0, hunks).value)
        <==> YieldsPatched(file, Printed(read), hunks)
  {
    OrderedToTouched(file, read, hunks);
    TextEditsOrdered(read, 0, Touched(hunks));
    EditorAgrees(file, AsTextEdits(read), Touched(hunks));
    TextResult(file, read);
    ReplacedIsSpliced(AsPieces(file), Printed(read), 0);
    PrintedCovers(read, EditsOf(hunks));
    SplicedNewlineFree(file, Printed(read), 0);
    PatchedNewlineFree(file, 0, hunks);
    if Unlines(Spliced(AsPieces(file), Printed(read), 0)) == Unlines(ApplyFrom(file, 0, hunks).value) {
      UnlinesInjective(Spliced(AsPieces(file), Printed(read), 0), ApplyFrom(file, 0, hunks).value);
    }
  }

  lemma ContentsOfHunks(hunks: seq<Hunk>)
    ensures |EditsOf(hunks)| == |hunks|
    ensures NoEmptySide(hunks) <==> forall i :: 0 <= i < |hunks| ==> EditsOf(hunks)[i].content != []
  {
    EditsOfCount(hunks);
    forall i: nat | i < |hunks|
      ensures EditsOf(hunks)[i].content == NewSide(hunks[i].body)
    {
      AsReadAt(hunks, i);
    }
  }

  /** Printed lines are the patched ones exactly when the patch is legible, its insertions are harmless, and every hunk
      has a new side. */
  lemma PrintedIff(file: seq<string>, hunks: seq<Hunk>)
    requires ApplyFrom(file, 0, hunks).Some? && NoStrayHeader(hunks)
    ensures YieldsPatched(file, Printed(EditsRead(hunks)), hunks)
        <==> LegibleHunks(hunks) && AllHarmless(file, 0, hunks) && NoEmptySide(hunks)
  {
    var read, meant := EditsRead(hunks), EditsOf(hunks);
    ReadCoversAsMuch(hunks);
    PrintedCovers(read, meant);
    ContentsOfHunks(hunks);
    EditsReadIff(hunks);
    EditsMeanPatchIff(file, Patch([], hunks));
    if YieldsPatched(file, Printed(read), hunks) {
      YieldsOnlyIfWhole(file, Printed(read), hunks);
      WholeIsLegible(hunks);
    }
  }

  /** The patch action leaves the patched text in the editor exactly when the patch is legible, its pure insertions are
      harmless, and every hunk has a new side; for files whose lines up to the last hunk the editor counts alike. */
  lemma PatchActionAppliesPatchIff(file: seq<string>, patch: Patch)
    requires Apply(file, patch).Some? && NewlineFree(file) && EditorSees(file, patch.hunks)
    requires forall i :: 0 <= i < |patch.hunks| ==> NewlineFree(NewSide(patch.hunks[i].body))
    ensures Legible(patch) ==> NoStrayHeader(patch.hunks)
    ensures LegiblePreamble(patch.preamble) && NoStrayHeader(patch.hunks) ==>
              (Ordered(EditsOfText(patch), 0, |file|)
               && Replaced(EditorLines(Unlines(file)), AsTextEdits(EditsOfText(patch)), 0)
                  == Unlines(Apply(file, patch).value)
               <==> Legible(patch) && AllHarmless(file, 0, patch.hunks) && NoEmptySide(patch.hunks))
  {
    EditsReadIff(patch.hunks);
    if LegiblePreamble(patch.preamble) && NoStrayHeader(patch.hunks) {
      TextWithoutStrayHeader(patch);
      ReadCoversAsMuch(patch.hunks);
      PrintedIff(file, patch.hunks);
      PrintedOrdered(EditsRead(patch.hunks), 0, |file|);
      if Ordered(EditsRead(patch.hunks), 0, |file|) {
        TextIff(file, EditsRead(patch.hunks), patch.hunks);
      }
    }
  }

  // ----- two patches that do otherwise -----

  lemma TwoReplacements(file: seq<string>, a: string, b: string)
    requires |file| == 2
    ensures Replaced(AsPieces(file), [Edit(0, 1, [a])] + [Edit(1, 2, [b])], 0) == [a] + [b]
  {
    var edits := [Edit(0, 1, [a])] + [Edit(1, 2, [b])];
    assert edits[1..] == [Edit(1, 2, [b])] && edits[1..][1..] == [];
    ReplacedIsSpliced(AsPieces(file), edits, 0);
    FirstReplacement(file, 0, edits);
    FirstReplacement(file, 1, edits[1..]);
    assert AsPieces(file)[2..] == [];
    assert file[0..0] == [] && file[1..1] == [];
  }

  lemma ReplacesFirstLine(file: seq<string>, h: Hunk)
    requires |file| == 2 && h.oldStart == 1 && OldSide(h.body) == [file[0]]
    ensures Apply(file, Patch([], [h])) == Some(NewSide(h.body) + [file[1]])
  {
    var hunks := [h];
    BodyReplacesOldByNew(file, 0, h.body);
    assert file[0..1] == [file[0]] && file[1..] == [file[1]] && file[0..0] == [] && hunks[1..] == [];
    assert ApplyFrom(file, 1, hunks[1..]) == Some([file[1]]);
    assert [] + NewSide(h.body) + [file[1]] == NewSide(h.body) + [file[1]];
  }

  /** With a stray header legibility is not needed for the right lines: this patch is illegible, its edits are not
      those of its hunk, and they yield the patched file. */
  lemma StrayHeaderByCoincidence(h: Hunk, stray: Hunk)
    requires IsLine(h.heading) && IsLine(stray.heading) && h.oldStart == 1
    requires stray.oldStart == 2 && |OldSide(stray.body)| == 1
    requires h.body == [Add("z")] + [HidingLine(stray)]
    ensures var file, patch := [HidingLine(stray).text] + ["y"], Patch([], [h]);
            && !Legible(patch) && Apply(file, patch) == Some(["z"] + ["y"])
            && Replaced(AsPieces(file), EditsOfText(patch), 0) == ["z"] + ["y"]
  {
    var file := [HidingLine(stray).text] + ["y"];
    AddAndRemove(Add("z"), HidingLine(stray));
    StrayHeaderIsRead(h, stray, HidingLine(stray));
    assert ["z"] + [] == ["z"];
    ReplacesFirstLine(file, h);
    TwoReplacements(file, "z", "y");
  }

  lemma {:induction false} LoneReturnEnds(front: string, rest: string)
    requires IsLine(front) && rest != [] && rest[0] != '\n'
    ensures LineEnd(front + (['\r'] + rest)) == |front| + 1
  {
    var s := front + (['\r'] + rest);
    if front == [] {
      assert s[0] == '\r' && s[1] == rest[0];
    } else {
      LoneReturnEnds(front[1..], rest);
      assert s[0] == front[0] && s[1..] == front[1..] + (['\r'] + rest);
    }
  }

  lemma TwoEditorLines(front: string, rest: string)
    requires IsLine(front) && IsLine(rest) && rest != []
    ensures EditorLines(Unlines([front + ['\r'] + rest])) == [front + ['\r']] + [rest + "\n"]
  {
    var s := front + (['\r'] + (rest + "\n"));
    LoneReturnEnds(front, rest + "\n");
    assert s == Unlines([front + ['\r'] + rest]) by {
      OneLineText(front + ['\r'] + rest);
      assert front + ['\r'] + rest + "\n" == s;
    }
    assert s[..|front| + 1] == front + ['\r'] && s[|front| + 1..] == rest + "\n";
    assert OneEditorLine(rest);
    OneEditorLineText(rest);
    OneLineText(rest);
  }

  lemma LoneReturnIsLegible(h: Hunk, front: string, rest: string, added: string)
    requires IsLine(h.heading) && IsLine(front) && IsLine(rest) && IsLine(added)
    requires Silent(rest) && rest != [] && h.body == [Add(added)] + [Remove(front + ['\r'] + rest)]
    ensures Legible(Patch([], [h]))
  {
    FrontIsLine(h);
    OnlyPiece(HeaderFront(h) + h.heading);
    RemovedLineMayBreak(front, '\r', rest);
    assert [RenderHeader(h)][1..] == [];
    assert LegibleLine(h.body[0]) && LegibleLine(h.body[1]);
    assert LegibleHunk(h);
    assert AllPieces([]) == [];
  }

  lemma FirstOfTwoReplaced(first: string, second: string, new': string)
    ensures Replaced([first] + [second], [Edit(0, 1, new')], 0) == new' + second
  {
    var document, edits := [first] + [second], [Edit(0, 1, new')];
    assert edits[1..] == [] && document[0..0] == [] && document[1..] == [second] && [second][1..] == [];
    ReplacedIsSpliced(document, edits, 0);
    assert [] + new' + (second + []) == new' + second;
  }

  lemma OneLineText(line: string)
    ensures Unlines([line]) == line + "\n"
  {
    assert [line][1..] == [] && line + "\n" + "" == line + "\n";
  }

  lemma OneTextEdit(line: string)
    ensures AsTextEdits([Edit(0, 1, [line])]) == [Edit(0, 1, line + "\n")]
  {
    var edits := [Edit(0, 1, [line])];
    assert edits[1..] == [] && Join([line]) == line;
  }

  /** A legible one-hunk patch of a one-line file is read as the replacement of its line. */
  lemma ReadsAsOneEdit(h: Hunk, old': string, new': string)
    requires h.oldStart == 1 && OldSide(h.body) == [old'] && NewSide(h.body) == [new'] && Legible(Patch([], [h]))
    ensures EditsOfText(Patch([], [h])) == [Edit(0, 1, [new'])]
  {
    PatchComesBackIff(Patch([], [h]));
    AsReadAt([h], 0);
    EditsOfCount([h]);
  }

  /** A removed line that the editor counts as two, in a legible patch: only the first of them is replaced. */
  lemma OnlyTheFrontIsReplaced(h: Hunk, front: string, rest: string, added: string)
    requires IsLine(h.heading) && IsLine(front) && IsLine(rest) && IsLine(added) && h.oldStart == 1
    requires Silent(rest) && rest != [] && h.body == [Add(added)] + [Remove(front + ['\r'] + rest)]
    ensures var file, patch := [front + ['\r'] + rest], Patch([], [h]);
            && Legible(patch) && Apply(file, patch) == Some([added]) && NoEmptySide(patch.hunks)
            && Replaced(EditorLines(Unlines(file)), AsTextEdits(EditsOfText(patch)), 0)
               == Unlines([added]) + (rest + "\n")
  {
    var old' := front + ['\r'] + rest;
    AddAndRemove(Add(added), Remove(old'));
    LoneReturnIsLegible(h, front, rest, added);
    OneHunkApplies([old'], h);
    ReadsAsOneEdit(h, old', added);
    OneTextEdit(added);
    OneLineText(added);
    TwoEditorLines(front, rest);
    FirstOfTwoReplaced(front + ['\r'], rest + "\n", added + "\n");
  }

  /** The patch that replaces the line x, carriage return, y by z leaves the y in the editor. */
  lemma ALoneReturnMisplacesTheEdit(h: Hunk)
    requires h.oldStart == 1 && IsLine(h.heading) && h.body == [Add("z")] + [Remove("x" + ['\r'] + "y")]
    ensures var file, patch := ["x" + ['\r'] + "y"], Patch([], [h]);
            && Legible(patch) && Apply(file, patch) == Some(["z"]) && NoEmptySide(patch.hunks)
            && Replaced(EditorLines(Unlines(file)), AsTextEdits(EditsOfText(patch)), 0) == Unlines(["z"]) + "y\n"
  {
    NotAHeader("y");
    assert "y" + "\n" == "y\n";
    OnlyTheFrontIsReplaced(h, "x", "y", "z");
  }
}
