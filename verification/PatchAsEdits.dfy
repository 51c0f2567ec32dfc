/** The edits read from a patch do what the patch does. */
module PatchAsEdits {
  import opened FeedbackService
  import opened LineEdits
  import opened Lines
  import opened Outcomes
  import opened Sequences
  import opened UnifiedDiff

  /** A file as a document of one-line pieces, so that the result is again a list of lines. */
  function AsPieces(file: seq<string>): (pieces: seq<seq<string>>)
    ensures |pieces| == |file| && forall i :: 0 <= i < |file| ==> pieces[i] == [file[i]]
  {
    seq(|file|, i requires 0 <= i < |file| => [file[i]])
  }

  lemma {:induction false} FlatPieces(file: seq<string>, from: nat, to: nat)
    requires from <= to <= |file|
    ensures Flat(AsPieces(file)[from..to]) == file[from..to]
    decreases |file| - from
  {
    if from < to {
      FlatPieces(file, from + 1, to);
      FlatCons(AsPieces(file), from, to);
      assert file[from..to] == [file[from]] + file[from + 1..to];
    }
  }

  function End(h: Hunk): int {
    Before(h) + |OldSide(h.body)|
  }

  /** No hunk is a pure insertion. */
  predicate NoInsertion(hunks: seq<Hunk>) {
    forall i :: 0 <= i < |hunks| ==> OldSide(hunks[i].body) != []
  }

  /** The first hunk lies in the file and the others apply after it. */
  predicate Applicable(file: seq<string>, at: nat, hunks: seq<Hunk>)
    requires hunks != []
  {
    && at <= Before(hunks[0]) <= End(hunks[0]) <= |file|
    && ApplyFrom(file, End(hunks[0]), hunks[1..]).Some?
  }

  /** One hunk of a patch that applies. */
  lemma HunkApplies(file: seq<string>, at: nat, hunks: seq<Hunk>)
    requires at <= |file| && hunks != [] && ApplyFrom(file, at, hunks).Some?
    ensures Applicable(file, at, hunks)
    ensures ApplyFrom(file, at, hunks).value
         == file[at..Before(hunks[0])] + NewSide(hunks[0].body)
            + ApplyFrom(file, End(hunks[0]), hunks[1..]).value
  {
    BodyReplacesOldByNew(file, Before(hunks[0]), hunks[0].body);
  }

  /** Hunk `i` begins where the one before it ends or later, and its old side stands in the file there. */
  predicate HunkInPlace(file: seq<string>, at: nat, hunks: seq<Hunk>, i: nat)
    requires i < |hunks|
  {
    && (if i == 0 then at else End(hunks[i - 1])) <= Before(hunks[i])
    && 0 <= Before(hunks[i]) <= End(hunks[i]) <= |file|
    && file[Before(hunks[i])..End(hunks[i])] == OldSide(hunks[i].body)
  }

  predicate InPlace(file: seq<string>, at: nat, hunks: seq<Hunk>) {
    forall i: nat :: i < |hunks| ==> HunkInPlace(file, at, hunks, i)
  }

  lemma InPlaceCons(file: seq<string>, at: nat, hunks: seq<Hunk>)
    requires hunks != [] && 0 <= End(hunks[0])
    ensures InPlace(file, at, hunks)
        <==> HunkInPlace(file, at, hunks, 0) && InPlace(file, End(hunks[0]), hunks[1..])
  {
    forall i: nat | i < |hunks[1..]|
      ensures HunkInPlace(file, at, hunks, i + 1) <==> HunkInPlace(file, End(hunks[0]), hunks[1..], i)
    {
    }
    if HunkInPlace(file, at, hunks, 0) && InPlace(file, End(hunks[0]), hunks[1..]) {
      forall i: nat | i < |hunks|
        ensures HunkInPlace(file, at, hunks, i)
      {
        assert i > 0 ==> HunkInPlace(file, End(hunks[0]), hunks[1..], i - 1);
      }
    }
  }

  /** A patch applies exactly when all its hunks are in place. */
  lemma {:induction false} AppliesIff(file: seq<string>, at: nat, hunks: seq<Hunk>)
    requires at <= |file|
    ensures ApplyFrom(file, at, hunks).Some? <==> InPlace(file, at, hunks)
    decreases |hunks|
  {
    if hunks != [] {
      var start := Before(hunks[0]);
      if at <= start <= |file| {
        InPlaceCons(file, at, hunks);
        BodyReplacesOldByNew(file, start, hunks[0].body);
        if End(hunks[0]) <= |file| {
          AppliesIff(file, End(hunks[0]), hunks[1..]);
        }
      } else {
        assert !HunkInPlace(file, at, hunks, 0);
      }
    }
  }

  lemma {:induction false} EditsArePatch(file: seq<string>, at: nat, hunks: seq<Hunk>)
    requires at <= |file| && ApplyFrom(file, at, hunks).Some? && NoInsertion(hunks)
    ensures Ordered(EditsOf(hunks), at, |file|)
    ensures Spliced(AsPieces(file), EditsOf(hunks), at) == ApplyFrom(file, at, hunks).value
    decreases |hunks|
  {
    if hunks == [] {
      FlatPieces(file, at, |file|);
      assert AsPieces(file)[at..] == AsPieces(file)[at..|file|] && file[at..] == file[at..|file|];
    } else {
      HunkApplies(file, at, hunks);
      assert OldSide(hunks[0].body) != [];
      EditsArePatch(file, End(hunks[0]), hunks[1..]);
      FlatPieces(file, at, Before(hunks[0]));
    }
  }

  /** Replacing each range of the original file yields exactly the patched file, if no hunk is a pure
      insertion. */
  lemma EditsMeanPatch(file: seq<string>, patch: Patch)
    requires Apply(file, patch).Some? && NoInsertion(patch.hunks)
    ensures Ordered(EditsOf(patch.hunks), 0, |file|)
    ensures Replaced(AsPieces(file), EditsOf(patch.hunks), 0) == Apply(file, patch).value
  {
    EditsArePatch(file, 0, patch.hunks);
    ReplacedIsSpliced(AsPieces(file), EditsOf(patch.hunks), 0);
  }

  // ----- edits with the right ranges -----

  /** The same ranges, with contents at least as long. */
  predicate CoversAsMuch(read: seq<LineEdit>, meant: seq<LineEdit>) {
    && |read| == |meant|
    && forall i :: 0 <= i < |meant| ==>
         read[i].(content := meant[i].content) == meant[i] && |read[i].content| >= |meant[i].content|
  }

  lemma CoversTail(read: seq<LineEdit>, meant: seq<LineEdit>)
    requires meant != [] && CoversAsMuch(read, meant)
    ensures CoversAsMuch(read[1..], meant[1..])
    ensures read[0].startLine == meant[0].startLine && read[0].endLine == meant[0].endLine
  {
  }

  lemma {:induction false} SameRangesOrdered(read: seq<LineEdit>, meant: seq<LineEdit>, at: int, size: nat)
    requires CoversAsMuch(read, meant)
    ensures Ordered(read, at, size) <==> Ordered(meant, at, size)
  {
    if meant != [] {
      CoversTail(read, meant);
      SameRangesOrdered(read[1..], meant[1..], meant[0].endLine, size);
    }
  }

  /** Then the results agree only if the edits do. */
  lemma {:induction false} SameResultIff(file: seq<string>, read: seq<LineEdit>, meant: seq<LineEdit>, at: nat)
    requires at <= |file| && CoversAsMuch(read, meant)
    requires Ordered(read, at, |file|) && Ordered(meant, at, |file|)
    ensures |Spliced(AsPieces(file), read, at)| >= |Spliced(AsPieces(file), meant, at)|
    ensures Spliced(AsPieces(file), read, at) == Spliced(AsPieces(file), meant, at) <==> read == meant
    decreases |meant|
  {
    if meant == [] {
      assert read == [];
    } else {
      CoversTail(read, meant);
      SameResultIff(file, read[1..], meant[1..], meant[0].endLine);
      FirstReplacement(file, at, read);
      FirstReplacement(file, at, meant);
      SamePartsAfter(file[at..meant[0].startLine],
                     read[0].content, Spliced(AsPieces(file), read[1..], read[0].endLine),
                     meant[0].content, Spliced(AsPieces(file), meant[1..], meant[0].endLine));
      SameEditsIff(read, meant);
    }
  }

  lemma SameEditsIff(read: seq<LineEdit>, meant: seq<LineEdit>)
    requires meant != [] && CoversAsMuch(read, meant)
    ensures read == meant <==> read[0].content == meant[0].content && read[1..] == meant[1..]
  {
    assert read == [read[0]] + read[1..] && meant == [meant[0]] + meant[1..];
    assert read[0].(content := meant[0].content) == meant[0];
  }

  // ----- pure insertions -----

  /** A pure insertion is placed one line too early. It does no harm only where a kept line stands before it
      and every inserted line repeats that line. */
  predicate Harmless(file: seq<string>, at: nat, h: Hunk)
    requires at <= Before(h) <= |file|
  {
    OldSide(h.body) == [] ==>
      at < h.oldStart && forall i :: 0 <= i < |NewSide(h.body)| ==> NewSide(h.body)[i] == file[h.oldStart - 1]
  }

  /** Where the next hunk may start: after a harmless insertion the line it repeats is still there to be kept. */
  function Reached(h: Hunk): int {
    if OldSide(h.body) == [] then h.oldStart - 1 else End(h)
  }

  /** Keeping one more line in front changes nothing else. */
  lemma ApplyEarlier(file: seq<string>, at: nat, hunks: seq<Hunk>)
    requires 0 < at <= |file| && ApplyFrom(file, at, hunks).Some?
    ensures ApplyFrom(file, at - 1, hunks) == Some([file[at - 1]] + ApplyFrom(file, at, hunks).value)
  {
    if hunks == [] {
      assert file[at - 1..] == [file[at - 1]] + file[at..];
    } else {
      var start, end, added := Before(hunks[0]), End(hunks[0]), NewSide(hunks[0].body);
      HunkApplies(file, at, hunks);
      BodyReplacesOldByNew(file, start, hunks[0].body);
      var tail := ApplyFrom(file, end, hunks[1..]).value;
      assert file[at - 1..start] == [file[at - 1]] + file[at..start];
      assert ApplyFrom(file, at - 1, hunks) == Some(file[at - 1..start] + added + tail);
      AssociativeInFour([file[at - 1]], file[at..start], added, tail);
    }
  }

  lemma RestApplies(file: seq<string>, at: nat, hunks: seq<Hunk>)
    requires at <= |file| && hunks != [] && ApplyFrom(file, at, hunks).Some?
    ensures Applicable(file, at, hunks)
    ensures at <= Reached(hunks[0]) ==>
              Reached(hunks[0]) <= |file| && ApplyFrom(file, Reached(hunks[0]), hunks[1..]).Some?
  {
    HunkApplies(file, at, hunks);
    if OldSide(hunks[0].body) == [] && at < End(hunks[0]) {
      ApplyEarlier(file, End(hunks[0]), hunks[1..]);
    }
  }

  predicate AllHarmless(file: seq<string>, at: nat, hunks: seq<Hunk>)
    requires at <= |file| && ApplyFrom(file, at, hunks).Some?
    decreases |hunks|
  {
    hunks == [] ||
    (RestApplies(file, at, hunks);
     Harmless(file, at, hunks[0]) && AllHarmless(file, Reached(hunks[0]), hunks[1..]))
  }

  ghost predicate Faithful(file: seq<string>, at: nat, hunks: seq<Hunk>)
    requires at <= |file| && ApplyFrom(file, at, hunks).Some?
  {
    && Ordered(EditsOf(hunks), at, |file|)
    && Spliced(AsPieces(file), EditsOf(hunks), at) == ApplyFrom(file, at, hunks).value
  }

  lemma FirstReplacement(file: seq<string>, at: nat, edits: seq<LineEdit>)
    requires at <= |file| && edits != [] && Ordered(edits, at, |file|)
    ensures Spliced(AsPieces(file), edits, at)
         == file[at..edits[0].startLine] + edits[0].content + Spliced(AsPieces(file), edits[1..], edits[0].endLine)
  {
    FlatPieces(file, at, edits[0].startLine);
  }

  lemma ReplacementIff(file: seq<string>, at: nat, hunks: seq<Hunk>)
    requires at <= |file| && hunks != [] && ApplyFrom(file, at, hunks).Some?
    requires OldSide(hunks[0].body) != []
    ensures Applicable(file, at, hunks) && (Faithful(file, at, hunks) <==> Faithful(file, End(hunks[0]), hunks[1..]))
  {
    HunkApplies(file, at, hunks);
    var start, end, edits := Before(hunks[0]), End(hunks[0]), EditsOf(hunks);
    assert edits[0] == Edit(start, end, NewSide(hunks[0].body)) && edits[1..] == EditsOf(hunks[1..]);
    if Ordered(edits[1..], end, |file|) {
      FirstReplacement(file, at, edits);
      var front := file[at..start] + NewSide(hunks[0].body);
      SameFront(front, Spliced(AsPieces(file), edits[1..], end), front, ApplyFrom(file, end, hunks[1..]).value);
    }
  }

  /** Lines written before a line instead of after it. */
  lemma {:induction false} ShiftedIff(added: seq<string>, line: string, rest: seq<string>, tail: seq<string>)
    ensures added + rest == [line] + added + tail
        <==> (forall i :: 0 <= i < |added| ==> added[i] == line) && rest == [line] + tail
  {
    if added == [] {
      assert added + rest == rest && [line] + added == [line];
    } else {
      ShiftedIff(added[1..], line, rest, tail);
      assert added + rest == [added[0]] + (added[1..] + rest);
      assert [line] + added + tail == [line] + (added + tail);
      SameCons(added[0], added[1..] + rest, line, added + tail);
      if added[0] == line {
        assert added + tail == [line] + added[1..] + tail;
      }
      assert forall i :: 0 < i < |added| ==> added[i] == added[1..][i - 1];
    }
  }

  lemma EarlyIff(file: seq<string>, at: nat, end: nat, added: seq<string>, rest: seq<string>, tail: seq<string>)
    requires at < end <= |file|
    ensures file[at..end - 1] + added + rest == file[at..end] + added + tail
        <==> (forall i :: 0 <= i < |added| ==> added[i] == file[end - 1]) && rest == [file[end - 1]] + tail
  {
    var front, line := file[at..end - 1], file[end - 1];
    assert file[at..end] == front + [line];
    AssociativeInFour(front, [line], added, tail);
    Associative(front, added, rest);
    SameFront(front, added + rest, front, [line] + added + tail);
    ShiftedIff(added, line, rest, tail);
  }

  lemma InsertionSpliced(file: seq<string>, at: nat, edits: seq<LineEdit>, end: nat, added: seq<string>,
                         tail: seq<string>)
    requires at < end <= |file| && edits != [] && edits[0] == Edit(end - 1, end - 1, added)
    ensures Ordered(edits, at, |file|) <==> Ordered(edits[1..], end - 1, |file|)
    ensures Ordered(edits, at, |file|) ==>
              (Spliced(AsPieces(file), edits, at) == file[at..end] + added + tail
               <==> (forall i :: 0 <= i < |added| ==> added[i] == file[end - 1])
                    && Spliced(AsPieces(file), edits[1..], end - 1) == [file[end - 1]] + tail)
  {
    if Ordered(edits, at, |file|) {
      FirstReplacement(file, at, edits);
      EarlyIff(file, at, end, added, Spliced(AsPieces(file), edits[1..], end - 1), tail);
    }
  }

  /** One pure insertion, placed before the line it should follow. */
  lemma InsertionIff(file: seq<string>, at: nat, hunks: seq<Hunk>)
    requires at <= |file| && hunks != [] && ApplyFrom(file, at, hunks).Some?
    requires OldSide(hunks[0].body) == [] && at < hunks[0].oldStart
    ensures Applicable(file, at, hunks) && hunks[0].oldStart <= |file|
    ensures ApplyFrom(file, hunks[0].oldStart - 1, hunks[1..]).Some?
    ensures Faithful(file, at, hunks)
        <==> Harmless(file, at, hunks[0]) && Faithful(file, hunks[0].oldStart - 1, hunks[1..])
  {
    var end, edits, added := hunks[0].oldStart, EditsOf(hunks), NewSide(hunks[0].body);
    HunkApplies(file, at, hunks);
    ApplyEarlier(file, end, hunks[1..]);
    assert edits[0] == Edit(end - 1, end - 1, added) && edits[1..] == EditsOf(hunks[1..]);
    InsertionSpliced(file, at, edits, end, added, ApplyFrom(file, end, hunks[1..]).value);
  }

  lemma AllHarmlessCons(file: seq<string>, at: nat, hunks: seq<Hunk>)
    requires at <= |file| && hunks != [] && ApplyFrom(file, at, hunks).Some?
    ensures Applicable(file, at, hunks)
    ensures !Harmless(file, at, hunks[0]) ==> !AllHarmless(file, at, hunks)
    ensures Harmless(file, at, hunks[0]) ==>
              && at <= Reached(hunks[0]) <= |file| && ApplyFrom(file, Reached(hunks[0]), hunks[1..]).Some?
              && (AllHarmless(file, at, hunks) <==> AllHarmless(file, Reached(hunks[0]), hunks[1..]))
  {
    RestApplies(file, at, hunks);
  }

  lemma TooEarly(file: seq<string>, at: nat, hunks: seq<Hunk>)
    requires at <= |file| && hunks != [] && ApplyFrom(file, at, hunks).Some?
    requires OldSide(hunks[0].body) == [] && at >= hunks[0].oldStart
    ensures !Faithful(file, at, hunks)
  {
  }

  lemma {:induction false} EditsArePatchIff(file: seq<string>, at: nat, hunks: seq<Hunk>)
    requires at <= |file| && ApplyFrom(file, at, hunks).Some?
    ensures Faithful(file, at, hunks) <==> AllHarmless(file, at, hunks)
    decreases |hunks|
  {
    if hunks == [] {
      EditsArePatch(file, at, hunks);
    } else {
      AllHarmlessCons(file, at, hunks);
      if OldSide(hunks[0].body) != [] {
        EditsArePatchIff(file, End(hunks[0]), hunks[1..]);
        ReplacementIff(file, at, hunks);
      } else if at < hunks[0].oldStart {
        InsertionIff(file, at, hunks);
        EditsArePatchIff(file, hunks[0].oldStart - 1, hunks[1..]);
      } else {
        TooEarly(file, at, hunks);
      }
    }
  }

  /** For every patch that applies: its edits are well placed and yield the patched file exactly when every pure
      insertion is harmless. */
  lemma EditsMeanPatchIff(file: seq<string>, patch: Patch)
    requires Apply(file, patch).Some?
    ensures Ordered(EditsOf(patch.hunks), 0, |file|)
            && Replaced(AsPieces(file), EditsOf(patch.hunks), 0) == Apply(file, patch).value
        <==> AllHarmless(file, 0, patch.hunks)
  {
    EditsArePatchIff(file, 0, patch.hunks);
    if Ordered(EditsOf(patch.hunks), 0, |file|) {
      ReplacedIsSpliced(AsPieces(file), EditsOf(patch.hunks), 0);
    }
  }

  // ----- counting lines -----

  /** How many lines hold a further boundary. */
  function Broken(lines: seq<string>): nat {
    if lines == [] then 0 else (if IsLine(lines[0]) then 0 else 1) + Broken(lines[1..])
  }

  lemma {:induction false} BrokenConcat(a: seq<string>, b: seq<string>)
    ensures Broken(a + b) == Broken(a) + Broken(b)
  {
    if a == [] {
      assert a + b == b;
    } else {
      BrokenConcat(a[1..], b);
      assert (a + b)[1..] == a[1..] + b;
    }
  }

  lemma {:induction false} NoneBroken(lines: seq<string>)
    ensures Broken(lines) == 0 <==> AreLines(lines)
  {
    if lines != [] {
      NoneBroken(lines[1..]);
      assert AreLines(lines) <==> IsLine(lines[0]) && AreLines(lines[1..]) by {
        assert forall i :: 0 <= i < |lines[1..]| ==> lines[1..][i] == lines[i + 1];
        assert forall i :: 0 < i < |lines| ==> lines[i] == lines[1..][i - 1];
      }
    }
  }

  lemma BrokenInThree(a: seq<string>, b: seq<string>, c: seq<string>)
    ensures Broken(a + b + c) == Broken(a) + Broken(b) + Broken(c)
  {
    BrokenConcat(a + b, c);
    BrokenConcat(a, b);
  }

  predicate WholeContents(edits: seq<LineEdit>) {
    forall i :: 0 <= i < |edits| ==> AreLines(edits[i].content)
  }

  predicate AsLong(read: seq<LineEdit>, meant: seq<LineEdit>) {
    |read| == |meant| && forall i :: 0 <= i < |meant| ==> |read[i].content| == |meant[i].content|
  }

  /** Whole lines in the same ranges leave no fewer lines, and no more broken ones; as many of both only where the
      contents meant are as long and whole too. */
  lemma {:induction false} SplicedCounts(file: seq<string>, read: seq<LineEdit>, meant: seq<LineEdit>, at: nat)
    requires at <= |file| && CoversAsMuch(read, meant) && WholeContents(read)
    requires Ordered(read, at, |file|) && Ordered(meant, at, |file|)
    ensures |Spliced(AsPieces(file), read, at)| >= |Spliced(AsPieces(file), meant, at)|
    ensures Broken(Spliced(AsPieces(file), read, at)) <= Broken(Spliced(AsPieces(file), meant, at))
    ensures |Spliced(AsPieces(file), read, at)| == |Spliced(AsPieces(file), meant, at)|
            && Broken(Spliced(AsPieces(file), read, at)) == Broken(Spliced(AsPieces(file), meant, at))
            ==> AsLong(read, meant) && WholeContents(meant)
    decreases |meant|
  {
    if meant != [] {
      CoversTail(read, meant);
      SplicedCounts(file, read[1..], meant[1..], meant[0].endLine);
      FirstReplacement(file, at, read);
      FirstReplacement(file, at, meant);
      var front := file[at..meant[0].startLine];
      BrokenInThree(front, read[0].content, Spliced(AsPieces(file), read[1..], meant[0].endLine));
      BrokenInThree(front, meant[0].content, Spliced(AsPieces(file), meant[1..], meant[0].endLine));
      NoneBroken(read[0].content);
      NoneBroken(meant[0].content);
      RestDecides(read, meant);
    }
  }

  lemma RestDecides(read: seq<LineEdit>, meant: seq<LineEdit>)
    requires meant != [] && |read| == |meant|
    ensures AsLong(read[1..], meant[1..]) && |read[0].content| == |meant[0].content| ==> AsLong(read, meant)
    ensures WholeContents(meant[1..]) && AreLines(meant[0].content) ==> WholeContents(meant)
  {
    assert forall i :: 0 < i < |meant| ==> read[i] == read[1..][i - 1] && meant[i] == meant[1..][i - 1];
  }

  lemma FirstSplicedCounts(file: seq<string>, at: nat, edits: seq<LineEdit>)
    requires at <= |file| && edits != [] && Ordered(edits, at, |file|)
    ensures var front, rest := file[at..edits[0].startLine], Spliced(AsPieces(file), edits[1..], edits[0].endLine);
            && |Spliced(AsPieces(file), edits, at)| == |front| + |edits[0].content| + |rest|
            && Broken(Spliced(AsPieces(file), edits, at))
               == Broken(front) + Broken(edits[0].content) + Broken(rest)
  {
    FirstReplacement(file, at, edits);
    BrokenInThree(file[at..edits[0].startLine], edits[0].content,
                  Spliced(AsPieces(file), edits[1..], edits[0].endLine));
  }

  lemma FirstEditOf(hunks: seq<Hunk>, at: int, size: nat)
    requires hunks != [] && Ordered(EditsOf(hunks), at, size)
    ensures EditsOf(hunks)[0] == EditOf(hunks[0]) && EditsOf(hunks)[1..] == EditsOf(hunks[1..])
    ensures at <= EditOf(hunks[0]).startLine <= EditOf(hunks[0]).endLine == Reached(hunks[0]) <= size
    ensures Ordered(EditsOf(hunks[1..]), Reached(hunks[0]), size)
  {
  }

  /** Placing insertions early moves lines, but loses and adds none. */
  lemma {:induction false} PatchedCounts(file: seq<string>, at: nat, hunks: seq<Hunk>)
    requires at <= |file| && ApplyFrom(file, at, hunks).Some? && Ordered(EditsOf(hunks), at, |file|)
    ensures |Spliced(AsPieces(file), EditsOf(hunks), at)| == |ApplyFrom(file, at, hunks).value|
    ensures Broken(Spliced(AsPieces(file), EditsOf(hunks), at)) == Broken(ApplyFrom(file, at, hunks).value)
    decreases |hunks|
  {
    if hunks == [] {
      EditsArePatch(file, at, hunks);
    } else {
      FirstEditOf(hunks, at, |file|);
      RestApplies(file, at, hunks);
      PatchedCounts(file, Reached(hunks[0]), hunks[1..]);
      FirstSplicedCounts(file, at, EditsOf(hunks));
      PatchedHunkCounts(file, at, hunks);
    }
  }

  /** The patched file, counted from where its first edit is placed. */
  lemma PatchedHunkCounts(file: seq<string>, at: nat, hunks: seq<Hunk>)
    requires at <= |file| && hunks != [] && ApplyFrom(file, at, hunks).Some? && at <= Reached(hunks[0]) <= |file|
    requires at <= EditOf(hunks[0]).startLine <= |file| && ApplyFrom(file, Reached(hunks[0]), hunks[1..]).Some?
    ensures var front := file[at..EditOf(hunks[0]).startLine];
            var tail := ApplyFrom(file, Reached(hunks[0]), hunks[1..]).value;
            && |ApplyFrom(file, at, hunks).value| == |front| + |NewSide(hunks[0].body)| + |tail|
            && Broken(ApplyFrom(file, at, hunks).value)
               == Broken(front) + Broken(NewSide(hunks[0].body)) + Broken(tail)
  {
    HunkApplies(file, at, hunks);
    var added, end := NewSide(hunks[0].body), End(hunks[0]);
    BrokenInThree(file[at..Before(hunks[0])], added, ApplyFrom(file, end, hunks[1..]).value);
    if OldSide(hunks[0].body) == [] {
      ApplyEarlier(file, end, hunks[1..]);
      assert file[at..end] == file[at..end - 1] + [file[end - 1]];
      BrokenConcat(file[at..end - 1], [file[end - 1]]);
      BrokenConcat([file[end - 1]], ApplyFrom(file, end, hunks[1..]).value);
    }
  }

  /** Whole lines in the ranges of a patch yield the patched file only if they are as many, and those of the patch are
      whole. */
  lemma RightOnlyIfWhole(file: seq<string>, read: seq<LineEdit>, hunks: seq<Hunk>)
    requires ApplyFrom(file, 0, hunks).Some? && CoversAsMuch(read, EditsOf(hunks)) && WholeContents(read)
    requires Ordered(read, 0, |file|) && Spliced(AsPieces(file), read, 0) == ApplyFrom(file, 0, hunks).value
    ensures AsLong(read, EditsOf(hunks)) && WholeContents(EditsOf(hunks))
  {
    SameRangesOrdered(read, EditsOf(hunks), 0, |file|);
    SplicedCounts(file, read, EditsOf(hunks), 0);
    PatchedCounts(file, 0, hunks);
  }

  // ----- an insertion that lands wrong -----

  lemma InsertedAfterFirst(file: seq<string>, h: Hunk, added: seq<string>)
    requires |file| == 2 && h.oldStart == 1 && OldSide(h.body) == [] && NewSide(h.body) == added
    ensures Apply(file, Patch([], [h])) == Some([file[0]] + added + [file[1]])
  {
    var hunks := [h];
    BodyReplacesOldByNew(file, 1, h.body);
    assert file[1..1] == [] && file[0..1] == [file[0]] && file[1..] == [file[1]] && hunks[1..] == [];
    assert ApplyFrom(file, 1, hunks[1..]) == Some([file[1]]);
  }

  lemma WrittenFirst(file: seq<string>, added: seq<string>)
    ensures Replaced(AsPieces(file), [Edit(0, 0, added)], 0) == added + file
  {
    var edits := [Edit(0, 0, added)];
    assert edits[1..] == [];
    ReplacedIsSpliced(AsPieces(file), edits, 0);
    FirstReplacement(file, 0, edits);
    FlatPieces(file, 0, |file|);
    assert AsPieces(file)[0..] == AsPieces(file)[0..|file|] && file[0..|file|] == file && file[0..0] == [];
    assert [] + added + file == added + file;
  }

  /** A line added after the first of two lands before it. */
  lemma AnInsertionLandsEarly(h: Hunk)
    requires h.oldStart == 1 && h.body == [Add("c")]
    ensures Apply(["a", "b"], Patch([], [h])) == Some(["a"] + ["c"] + ["b"])
    ensures EditsOf([h]) == [Edit(0, 0, ["c"])]
    ensures Replaced(AsPieces(["a", "b"]), EditsOf([h]), 0) == ["c"] + ["a", "b"] != ["a"] + ["c"] + ["b"]
  {
    SidesOfOneAdded("c");
    InsertedAfterFirst(["a", "b"], h, ["c"]);
    assert [h][1..] == [];
    WrittenFirst(["a", "b"], ["c"]);
    assert (["c"] + ["a", "b"])[0] != (["a"] + ["c"] + ["b"])[0];
  }
}
