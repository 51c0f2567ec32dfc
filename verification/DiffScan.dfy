/** The loop rules on the text of a patch: which of its lines the scan looks at, and what it reports. */
module DiffScan {
  import opened ArchitectureScan
  import opened Lines
  import opened LoopRules
  import opened LoopRuleScanner
  import opened Sequences
  import Text
  import UnifiedDiff

  /** The text of the added lines, but for those that begin with two plus signs. */
  function ScannedTexts(body: seq<UnifiedDiff.BodyLine>): seq<string> {
    if body == [] then []
    else (if body[0].Add? && !("++" <= body[0].text) then [body[0].text] else []) + ScannedTexts(body[1..])
  }

  function AddedTexts(body: seq<UnifiedDiff.BodyLine>): seq<string> {
    if body == [] then [] else (if body[0].Add? then [body[0].text] else []) + AddedTexts(body[1..])
  }

  function ScannedHunks(hunks: seq<UnifiedDiff.Hunk>): (scanned: seq<seq<string>>)
    ensures |scanned| == |hunks|
  {
    if hunks == [] then [] else [ScannedTexts(hunks[0].body)] + ScannedHunks(hunks[1..])
  }

  // ----- one line -----

  lemma HeaderLike(middle: string, heading: string)
    ensures Read("@@" + (middle + ("@@" + heading))) == HunkHeader
  {
    var line := "@@" + (middle + ("@@" + heading));
    assert line[2..] == middle + ("@@" + heading) && line[2..][|middle|..] == "@@" + heading;
    Text.ContainsIff(line[2..], "@@");
  }

  lemma Regrouped(at: string, dash: string, old': string, plus: string, new': string, blank: string, heading: string)
    ensures (at + dash) + old' + plus + new' + (blank + at) + heading
         == at + ((dash + old' + plus + new' + blank) + (at + heading))
  {
  }

  lemma HeaderIsSeen(h: UnifiedDiff.Hunk)
    ensures Read(UnifiedDiff.RenderHeader(h)) == HunkHeader
  {
    var old' := UnifiedDiff.RenderRange(h.oldStart, |UnifiedDiff.OldSide(h.body)|, h.oldShort);
    var new' := UnifiedDiff.RenderRange(h.newStart, |UnifiedDiff.NewSide(h.body)|, h.newShort);
    Regrouped("@@", " -", old', " +", new', " ", h.heading);
    assert "@@ -" == "@@" + " -" && " @@" == " " + "@@";
    HeaderLike(" -" + old' + " +" + new' + " ", h.heading);
  }

  lemma LineIsSeen(line: UnifiedDiff.BodyLine)
    ensures Read(UnifiedDiff.RenderLine(line))
         == if line.Add? && !("++" <= line.text) then AddedLine(line.text) else OtherLine
  {
    var s := UnifiedDiff.RenderLine(line);
    assert s[0] != '@' && "@@"[0] == '@';
    assert s[1..] == line.text;
    if line.Add? {
      SameFront("+", "++", "+", line.text[..if |line.text| < 2 then 0 else 2]);
      assert "+++" == "+" + "++";
      assert "+++" <= s <==> "++" <= line.text by {
        if "++" <= line.text {
          assert line.text == "++" + line.text[2..] && s == "+++" + line.text[2..];
        }
        if "+++" <= s {
          assert s[1..][..2] == s[..3][1..] == "++";
        }
      }
    } else {
      assert s[0] != '+' && "+"[0] == '+';
    }
  }

  // ----- the lines of a hunk and of a patch -----

  lemma ReadConcat(a: seq<string>, b: seq<string>)
    ensures ReadAll(a + b) == ReadAll(a) + ReadAll(b)
  {
  }

  lemma {:induction false} NoHeaderBefore(front: seq<DiffLine>, rest: seq<DiffLine>)
    requires forall i :: 0 <= i < |front| ==> !front[i].HunkHeader?
    requires rest == [] || rest[0].HunkHeader?
    ensures HeaderAt(front + rest) == |front| && Sections(front + rest) == Sections(rest)
  {
    if front == [] {
      assert front + rest == rest;
    } else {
      NoHeaderBefore(front[1..], rest);
      assert (front + rest)[1..] == front[1..] + rest;
    }
  }

  lemma {:induction false} BodyIsScanned(body: seq<UnifiedDiff.BodyLine>)
    ensures var read := ReadAll(UnifiedDiff.RenderBody(body));
            && (forall i :: 0 <= i < |read| ==> !read[i].HunkHeader?)
            && Added(read) == ScannedTexts(body)
  {
    if body != [] {
      BodyIsScanned(body[1..]);
      LineIsSeen(body[0]);
      var rest := UnifiedDiff.RenderBody(body[1..]);
      ReadConcat([UnifiedDiff.RenderLine(body[0])], rest);
      assert ReadAll([UnifiedDiff.RenderLine(body[0])]) == [Read(UnifiedDiff.RenderLine(body[0]))];
      assert ([Read(UnifiedDiff.RenderLine(body[0]))] + ReadAll(rest))[1..] == ReadAll(rest);
    }
  }

  lemma OneSection(body: seq<DiffLine>, rest: seq<DiffLine>)
    requires forall i :: 0 <= i < |body| ==> !body[i].HunkHeader?
    requires rest == [] || rest[0].HunkHeader?
    ensures Sections([HunkHeader] + (body + rest)) == [Added(body)] + Sections(rest)
  {
    NoHeaderBefore(body, rest);
    assert ([HunkHeader] + (body + rest))[1..] == body + rest;
    assert (body + rest)[..|body|] == body && (body + rest)[|body|..] == rest;
  }

  lemma {:induction false} HunksAreScanned(hunks: seq<UnifiedDiff.Hunk>)
    ensures var read := ReadAll(UnifiedDiff.RenderHunks(hunks));
            && Sections(read) == ScannedHunks(hunks)
            && (hunks == [] ==> read == []) && (hunks != [] ==> read != [] && read[0].HunkHeader?)
  {
    if hunks != [] {
      HunksAreScanned(hunks[1..]);
      HeaderIsSeen(hunks[0]);
      BodyIsScanned(hunks[0].body);
      var header := [UnifiedDiff.RenderHeader(hunks[0])];
      var body, rest := UnifiedDiff.RenderBody(hunks[0].body), UnifiedDiff.RenderHunks(hunks[1..]);
      ReadConcat(header + body, rest);
      ReadConcat(header, body);
      assert ReadAll(header) == [HunkHeader];
      Associative([HunkHeader], ReadAll(body), ReadAll(rest));
      OneSection(ReadAll(body), ReadAll(rest));
    }
  }

  /** The lines before the first hunk do not look like a hunk header. */
  predicate PlainPreamble(preamble: seq<string>) {
    forall i :: 0 <= i < |preamble| ==> !Read(preamble[i]).HunkHeader?
  }

  /** On the text of a patch the scan sees one list of lines per hunk: those it adds, without the ones that begin with
      two plus signs. */
  lemma PatchIsScanned(patch: UnifiedDiff.Patch)
    requires AreLines(UnifiedDiff.Render(patch)) && PlainPreamble(patch.preamble) && patch.hunks != []
    ensures AddedHunks(ReadAll(SplitLines(Unlines(UnifiedDiff.Render(patch))))) == ScannedHunks(patch.hunks)
  {
    LinesComeBack(UnifiedDiff.Render(patch));
    var front, rest := ReadAll(patch.preamble), ReadAll(UnifiedDiff.RenderHunks(patch.hunks));
    ReadConcat(patch.preamble, UnifiedDiff.RenderHunks(patch.hunks));
    HunksAreScanned(patch.hunks);
    NoHeaderBefore(front, rest);
  }

  /** No added line begins with two plus signs. */
  predicate NoDoublePlus(body: seq<UnifiedDiff.BodyLine>) {
    forall i :: 0 <= i < |body| && body[i].Add? ==> !("++" <= body[i].text)
  }

  lemma OneMoreLine(first: UnifiedDiff.BodyLine, rest: seq<UnifiedDiff.BodyLine>)
    ensures ScannedTexts([first] + rest)
         == (if first.Add? && !("++" <= first.text) then [first.text] else []) + ScannedTexts(rest)
    ensures AddedTexts([first] + rest) == (if first.Add? then [first.text] else []) + AddedTexts(rest)
    ensures NoDoublePlus([first] + rest) <==> NoDoublePlus(rest) && !(first.Add? && "++" <= first.text)
  {
    var body := [first] + rest;
    assert body[1..] == rest && body[0] == first;
    assert NoDoublePlus(body) ==> forall i :: 0 <= i < |rest| ==> rest[i] == body[i + 1];
  }

  /** Every added line is seen exactly when none begins with two plus signs. */
  lemma {:induction false} AllAddedAreScannedIff(body: seq<UnifiedDiff.BodyLine>)
    ensures |ScannedTexts(body)| <= |AddedTexts(body)|
    ensures ScannedTexts(body) == AddedTexts(body) <==> NoDoublePlus(body)
  {
    if body != [] {
      var first, rest := body[0], body[1..];
      AllAddedAreScannedIff(rest);
      OneMoreLine(first, rest);
      assert body == [first] + rest;
      SameCons(first.text, ScannedTexts(rest), first.text, AddedTexts(rest));
      assert [] + ScannedTexts(rest) == ScannedTexts(rest) && [] + AddedTexts(rest) == AddedTexts(rest);
      if first.Add? && "++" <= first.text {
        assert |ScannedTexts(body)| < |AddedTexts(body)|;
      }
    }
  }

  lemma {:induction false} ScannedHunkAt(hunks: seq<UnifiedDiff.Hunk>, i: nat)
    requires i < |hunks|
    ensures ScannedHunks(hunks)[i] == ScannedTexts(hunks[i].body)
  {
    if i > 0 {
      ScannedHunkAt(hunks[1..], i - 1);
    }
  }

  /** What the scan of a patch reports: a rule that the scanned lines of one of its hunks break. */
  lemma ReportedOfPatch(patch: UnifiedDiff.Patch, rule: Rule)
    requires AreLines(UnifiedDiff.Render(patch)) && PlainPreamble(patch.preamble) && patch.hunks != []
    ensures Reported(AddedHunks(ReadAll(SplitLines(Unlines(UnifiedDiff.Render(patch))))), rule)
        <==> exists h :: h in patch.hunks && Broken(ClassifyAll(ScannedTexts(h.body)), rule)
  {
    PatchIsScanned(patch);
    forall i | 0 <= i < |patch.hunks|
      ensures ScannedHunks(patch.hunks)[i] == ScannedTexts(patch.hunks[i].body)
    {
      ScannedHunkAt(patch.hunks, i);
    }
    if h :| h in patch.hunks && Broken(ClassifyAll(ScannedTexts(h.body)), rule) {
      var i :| 0 <= i < |patch.hunks| && patch.hunks[i] == h;
      assert Broken(ClassifyAll(ScannedHunks(patch.hunks)[i]), rule);
    }
  }

  // ----- a loop and its body -----

  lemma TwoAdded(a: string, b: string)
    requires !("++" <= a) && !("++" <= b)
    ensures ScannedTexts([UnifiedDiff.Add(a)] + [UnifiedDiff.Add(b)]) == [a] + [b]
  {
    OneMoreLine(UnifiedDiff.Add(a), [UnifiedDiff.Add(b)]);
    OneMoreLine(UnifiedDiff.Add(b), []);
    assert [UnifiedDiff.Add(b)] + [] == [UnifiedDiff.Add(b)] && [b] + [] == [b];
  }

  lemma TwoLines(a: Line, b: Line, rule: Rule)
    requires IsHeader(a) && b.significant && Breaks(b, rule)
    ensures Broken([a] + [b], rule) <==> a.indent < b.indent
  {
    var lines := [a] + [b];
    assert lines[0] == a && lines[1] == b;
    if a.indent < b.indent {
      assert Encloses(lines, 0, 1);
    }
    if i: nat, j: nat :| Encloses(lines, i, j) && Breaks(lines[j], rule) {
      assert i == 0 && j == 1;
    }
  }

  lemma LoopOverCall(lead: string, header: string, call: string)
    requires IsBlank(lead) && Unindented(header) && Unindented(call)
    requires IsCode(header) && ReadsAsHeader(header) && IsCode(call) && UsesIo(call)
    ensures Broken(ClassifyAll([header] + [lead + call]), ARCH001) <==> lead != []
  {
    SourceLine("", header);
    SourceLine(lead, call);
    LoopHeaderIff(header);
    assert "" + header == header && Width("") == 0 && (Width(lead) > 0 <==> lead != []);
    TwoLines(Classify(header), Classify(lead + call), ARCH001);
    assert ClassifyAll([header] + [lead + call]) == [Classify(header)] + [Classify(lead + call)];
  }

  /** Input or output on the line after a loop header is reported exactly when it is indented at all, by blanks of
      either kind. */
  lemma IndentedCallIsReported(lead: string, header: string, call: string)
    requires IsBlank(lead) && Unindented(header) && Unindented(call)
    requires IsCode(header) && ReadsAsHeader(header) && IsCode(call) && UsesIo(call)
    requires !("++" <= header) && !("++" <= call)
    ensures Broken(ClassifyAll(ScannedTexts([UnifiedDiff.Add(header)] + [UnifiedDiff.Add(lead + call)])), ARCH001)
        <==> lead != []
  {
    LoopOverCall(lead, header, call);
    assert !("++" <= lead + call) by {
      if lead == [] {
        assert lead + call == call;
      } else {
        assert (lead + call)[0] == lead[0] && "++"[0] == '+';
      }
    }
    TwoAdded(header, lead + call);
  }
}
