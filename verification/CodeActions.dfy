/** The language server's patch action: line-range replacements become text edits (LSP 3.17, section
    "TextEdit[]"), applied to the document of a file whose every line ends in a newline. */
module CodeActions {
  import opened FeedbackService
  import opened LineEdits
  import opened Lines
  import opened PatchAsEdits
  import opened TextDocument

  /** Both positions are at character 0 of their lines; `content` is `newText`. */
  type TextEdit = Edit<char>

  function Join(lines: seq<string>): string {
    if lines == [] then "" else if |lines| == 1 then lines[0] else lines[0] + "\n" + Join(lines[1..])
  }

  function AsTextEdits(hunks: seq<LineEdit>): seq<TextEdit> {
    if hunks == [] then []
    else [Edit(hunks[0].startLine, hunks[0].endLine, Join(hunks[0].content) + "\n")] + AsTextEdits(hunks[1..])
  }

  method BuildTextEdits(hunks: seq<LineEdit>) returns (textEdits: seq<TextEdit>)
    ensures textEdits == AsTextEdits(hunks)
  {
    textEdits := [];
    for i := 0 to |hunks|
      invariant textEdits + AsTextEdits(hunks[i..]) == AsTextEdits(hunks)
    {
      var hunk := hunks[i];
      assert hunks[i..][1..] == hunks[i + 1..];
      textEdits := textEdits + [Edit(hunk.startLine, hunk.endLine, Join(hunk.content) + "\n")];
    }
  }

  lemma {:induction false} JoinIsUnlines(lines: seq<string>)
    ensures Join(lines) + "\n" == if lines == [] then "\n" else Unlines(lines)
  {
    if |lines| == 1 {
      assert Unlines(lines) == lines[0] + "\n" + "";
    } else if |lines| > 1 {
      JoinIsUnlines(lines[1..]);
    }
  }

  /** How many edits have an empty new side. */
  function Blanks(hunks: seq<LineEdit>): nat {
    if hunks == [] then 0 else (if hunks[0].content == [] then 1 else 0) + Blanks(hunks[1..])
  }

  lemma {:induction false} TextEditsOrdered(hunks: seq<LineEdit>, at: int, size: nat)
    ensures Ordered(AsTextEdits(hunks), at, size) <==> Ordered(hunks, at, size)
  {
    if hunks != [] {
      TextEditsOrdered(hunks[1..], hunks[0].endLine, size);
      assert AsTextEdits(hunks)[1..] == AsTextEdits(hunks[1..]);
    }
  }

  /** The lines a text edit leaves: an empty list of lines leaves an empty line. */
  function Printed(hunks: seq<LineEdit>): (printed: seq<LineEdit>)
    ensures |printed| == |hunks|
    ensures forall i :: 0 <= i < |hunks| ==>
              printed[i] == hunks[i].(content := if hunks[i].content == [] then [""] else hunks[i].content)
  {
    seq(|hunks|, i requires 0 <= i < |hunks| =>
      hunks[i].(content := if hunks[i].content == [] then [""] else hunks[i].content))
  }

  lemma PrintedRest(hunks: seq<LineEdit>)
    requires hunks != []
    ensures Printed(hunks)[1..] == Printed(hunks[1..])
    ensures Printed(hunks)[0].startLine == hunks[0].startLine && Printed(hunks)[0].endLine == hunks[0].endLine
  {
  }

  lemma {:induction false} PrintedOrdered(hunks: seq<LineEdit>, at: int, size: nat)
    ensures Ordered(Printed(hunks), at, size) <==> Ordered(hunks, at, size)
  {
    if hunks != [] {
      PrintedRest(hunks);
      PrintedOrdered(hunks[1..], hunks[0].endLine, size);
    }
  }

  lemma PrintedText(content: seq<string>)
    ensures Join(content) + "\n" == Unlines(if content == [] then [""] else content)
  {
    JoinIsUnlines(content);
    if content == [] {
      assert Unlines([""]) == "" + "\n" + Unlines([""][1..]);
    }
  }

  lemma AsTextEditsRest(hunks: seq<LineEdit>)
    requires hunks != []
    ensures AsTextEdits(hunks)[1..] == AsTextEdits(hunks[1..])
    ensures AsTextEdits(hunks)[0] == Edit(hunks[0].startLine, hunks[0].endLine, Join(hunks[0].content) + "\n")
  {
  }

  lemma FirstTextEdit(file: seq<string>, hunks: seq<LineEdit>, at: nat)
    requires at <= |file| && hunks != [] && Ordered(AsTextEdits(hunks), at, |file|)
    ensures Ordered(AsTextEdits(hunks[1..]), hunks[0].endLine, |file|)
    ensures Spliced(AsText(file), AsTextEdits(hunks), at)
         == Unlines(file[at..hunks[0].startLine]) + Unlines(Printed(hunks)[0].content)
            + Spliced(AsText(file), AsTextEdits(hunks[1..]), hunks[0].endLine)
  {
    AsTextEditsRest(hunks);
    FlatText(file, at, hunks[0].startLine);
    PrintedText(hunks[0].content);
  }

  /** The edited document is the text of the lines the edits print. */
  lemma {:induction false} TextIsPrinted(file: seq<string>, hunks: seq<LineEdit>, at: nat)
    requires at <= |file| && Ordered(AsTextEdits(hunks), at, |file|) && Ordered(Printed(hunks), at, |file|)
    ensures Spliced(AsText(file), AsTextEdits(hunks), at) == Unlines(Spliced(AsPieces(file), Printed(hunks), at))
    decreases |hunks|
  {
    if hunks == [] {
      FlatText(file, at, |file|);
      FlatPieces(file, at, |file|);
      assert AsText(file)[at..] == AsText(file)[at..|file|];
      assert AsPieces(file)[at..] == AsPieces(file)[at..|file|];
    } else {
      FirstTextEdit(file, hunks, at);
      PrintedRest(hunks);
      TextIsPrinted(file, hunks[1..], hunks[0].endLine);
      FirstReplacement(file, at, Printed(hunks));
      var front, printed := file[at..hunks[0].startLine], Printed(hunks)[0].content;
      UnlinesConcat(front + printed, Spliced(AsPieces(file), Printed(hunks[1..]), hunks[0].endLine));
      UnlinesConcat(front, printed);
    }
  }

  /** Each edit with an empty new side leaves one newline too many in the text. */
  lemma {:induction false} PrintedIsLonger(file: seq<string>, hunks: seq<LineEdit>, at: nat)
    requires at <= |file| && Ordered(hunks, at, |file|) && Ordered(Printed(hunks), at, |file|)
    ensures |Unlines(Spliced(AsPieces(file), Printed(hunks), at))|
         == |Unlines(Spliced(AsPieces(file), hunks, at))| + Blanks(hunks)
    ensures Blanks(hunks) == 0 ==> Printed(hunks) == hunks
    decreases |hunks|
  {
    if hunks != [] {
      PrintedRest(hunks);
      PrintedIsLonger(file, hunks[1..], hunks[0].endLine);
      FirstReplacement(file, at, hunks);
      FirstReplacement(file, at, Printed(hunks));
      LengthOfThree(file[at..hunks[0].startLine], hunks[0].content,
                    Spliced(AsPieces(file), hunks[1..], hunks[0].endLine));
      LengthOfThree(file[at..hunks[0].startLine], Printed(hunks)[0].content,
                    Spliced(AsPieces(file), Printed(hunks[1..]), hunks[0].endLine));
      assert Unlines([""]) == "" + "\n" + Unlines([""][1..]);
      assert hunks == [hunks[0]] + hunks[1..];
    } else {
      assert Printed(hunks) == hunks;
    }
  }

  lemma LengthOfThree(a: seq<string>, b: seq<string>, c: seq<string>)
    ensures |Unlines(a + b + c)| == |Unlines(a)| + |Unlines(b)| + |Unlines(c)|
  {
    UnlinesConcat(a + b, c);
    UnlinesConcat(a, b);
  }

  lemma TextResult(file: seq<string>, read: seq<LineEdit>)
    requires Ordered(read, 0, |file|)
    ensures Ordered(Printed(read), 0, |file|)
    ensures Replaced(AsText(file), AsTextEdits(read), 0) == Unlines(Spliced(AsPieces(file), Printed(read), 0))
  {
    PrintedOrdered(read, 0, |file|);
    TextEditsOrdered(read, 0, |file|);
    ReplacedIsSpliced(AsText(file), AsTextEdits(read), 0);
    TextIsPrinted(file, read, 0);
  }

  /** For well-placed edits that end before the first line the editor counts otherwise, the edited document is the
      text of the edited lines exactly when no edit has an empty new side. */
  lemma TextEditsMeanEditsIff(file: seq<string>, hunks: seq<LineEdit>, n: nat)
    requires n <= |file| && SeenAlike(file, n) && Ordered(hunks, 0, n)
    ensures Replaced(EditorLines(Unlines(file)), AsTextEdits(hunks), 0) == Unlines(Replaced(AsPieces(file), hunks, 0))
        <==> Blanks(hunks) == 0
  {
    TextEditsOrdered(hunks, 0, n);
    EditorAgrees(file, AsTextEdits(hunks), n);
    OrderedInLonger(hunks, 0, n, |file|);
    TextResult(file, hunks);
    ReplacedIsSpliced(AsPieces(file), hunks, 0);
    PrintedIsLonger(file, hunks, 0);
  }

  // ----- an empty new side -----

  lemma OneEditorLineText(line: string)
    requires OneEditorLine(line)
    ensures EditorLines(Unlines([line])) == [line + "\n"]
  {
    FirstEditorLine(line, "");
    assert [line][1..] == [] && line + "\n" + "" == line + "\n";
  }

  lemma WholeReplaced(old': string, new': string)
    ensures Replaced([old'], [Edit(0, 1, new')], 0) == new'
  {
    var edits := [Edit(0, 1, new')];
    assert edits[1..] == [] && [old'][0..0] == [] && [old'][1..] == [];
    ReplacedIsSpliced([old'], edits, 0);
    assert [] + new' + [] == new';
  }

  /** Deleting a line leaves an empty one. */
  lemma AnEmptySideLeavesALine(line: string)
    requires OneEditorLine(line)
    ensures Replaced(EditorLines(Unlines([line])), AsTextEdits([Edit(0, 1, [])]), 0) == "\n"
    ensures Unlines(Replaced(AsPieces([line]), [Edit(0, 1, [])], 0)) == ""
  {
    var edits: seq<LineEdit> := [Edit(0, 1, [])];
    assert edits[1..] == [] && AsPieces([line])[1..] == [] && AsPieces([line])[0..0] == [];
    OneEditorLineText(line);
    assert Join([]) + "\n" == "\n";
    assert AsTextEdits(edits) == [Edit(0, 1, "\n")];
    WholeReplaced(line + "\n", "\n");
    ReplacedIsSpliced(AsPieces([line]), edits, 0);
  }
}
