/** The lines of a document as an editor counts them: LSP 3.17, section "Text Documents". A line ends at a line feed,
    at a carriage return followed by one, or at a carriage return alone. */
module TextDocument {
  import opened LineEdits
  import opened Lines
  import opened Sequences

  /** How far the first line reaches, its end included. */
  function LineEnd(text: string): (n: nat)
    ensures n <= |text| && (text != [] ==> n > 0)
  {
    if text == [] then 0
    else if text[0] == '\n' then 1
    else if text[0] == '\r' then (if |text| > 1 && text[1] == '\n' then 2 else 1)
    else 1 + LineEnd(text[1..])
  }

  /** The lines with their ends. The empty line after a last line end is left out; edits may still end there. */
  function EditorLines(text: string): seq<string>
    decreases |text|
  {
    if text == [] then [] else [text[..LineEnd(text)]] + EditorLines(text[LineEnd(text)..])
  }

  function AsText(file: seq<string>): (document: seq<string>)
    ensures |document| == |file| && forall i :: 0 <= i < |file| ==> document[i] == file[i] + "\n"
  {
    seq(|file|, i requires 0 <= i < |file| => file[i] + "\n")
  }

  /** A line of a file is one line in the editor: no line feed, and a carriage return only at its end. */
  predicate OneEditorLine(line: string) {
    forall i :: 0 <= i < |line| ==> line[i] != '\n' && (line[i] == '\r' ==> i == |line| - 1)
  }

  /** The editor counts the first `n` lines of the file as the file does. */
  predicate SeenAlike(file: seq<string>, n: nat)
    requires n <= |file|
  {
    forall i :: 0 <= i < n ==> OneEditorLine(file[i])
  }

  // ----- one line -----

  lemma {:induction false} WholeLineEnd(line: string, rest: string)
    requires OneEditorLine(line)
    ensures LineEnd(line + "\n" + rest) == |line| + 1
  {
    var s := line + "\n" + rest;
    if line == [] {
      assert s[0] == '\n';
    } else if line[0] == '\r' {
      assert |line| == 1 && s[0] == '\r' && s[1] == '\n';
    } else {
      WholeLineEnd(line[1..], rest);
      assert s[0] == line[0] && s[1..] == line[1..] + "\n" + rest;
    }
  }

  lemma {:induction false} WholeLineIff(line: string)
    ensures LineEnd(line + "\n") == |line| + 1 <==> OneEditorLine(line)
  {
    var s := line + "\n";
    if line == [] {
      assert s[0] == '\n';
    } else if line[0] == '\n' {
      assert s[0] == '\n';
    } else if line[0] == '\r' {
      assert s[0] == '\r' && (|line| == 1 ==> s[1] == '\n');
    } else {
      WholeLineIff(line[1..]);
      assert s[0] == line[0] && s[1..] == line[1..] + "\n";
      assert forall i :: 0 <= i < |line[1..]| ==> line[1..][i] == line[i + 1];
      assert OneEditorLine(line) <==> OneEditorLine(line[1..]) by {
        assert OneEditorLine(line[1..]) ==> forall i :: 0 < i < |line| ==> line[i] == line[1..][i - 1];
      }
    }
  }

  /** A cut-off line ends where it was cut. */
  lemma {:induction false} CutLineEnd(text: string)
    ensures LineEnd(text[..LineEnd(text)]) == LineEnd(text)
  {
    var n := LineEnd(text);
    if text != [] && text[0] != '\n' && text[0] != '\r' {
      CutLineEnd(text[1..]);
      assert text[..n][1..] == text[1..][..n - 1];
    }
  }

  lemma {:induction false} EveryLineIsOne(text: string)
    ensures forall i :: 0 <= i < |EditorLines(text)| ==> LineEnd(EditorLines(text)[i]) == |EditorLines(text)[i]|
    decreases |text|
  {
    if text != [] {
      CutLineEnd(text);
      EveryLineIsOne(text[LineEnd(text)..]);
    }
  }

  lemma {:induction false} FlatLines(text: string)
    ensures Flat(EditorLines(text)) == text
    decreases |text|
  {
    if text != [] {
      var n := LineEnd(text);
      FlatLines(text[n..]);
      assert text == text[..n] + text[n..];
    }
  }

  // ----- a file in the editor -----

  lemma FirstEditorLine(line: string, rest: string)
    requires OneEditorLine(line)
    ensures EditorLines(line + "\n" + rest) == [line + "\n"] + EditorLines(rest)
  {
    var s := line + "\n" + rest;
    WholeLineEnd(line, rest);
    Longer(line + "\n", rest, |line| + 1);
    assert (line + "\n")[..|line| + 1] == line + "\n" && (line + "\n")[|line| + 1..] == [];
    assert [] + rest == rest;
  }

  lemma AsTextCons(file: seq<string>, n: nat)
    requires 0 < n <= |file|
    ensures AsText(file)[..n] == [file[0] + "\n"] + AsText(file[1..])[..n - 1]
    ensures AsText(file)[n..] == AsText(file[1..])[n - 1..] && file[1..][n - 1..] == file[n..]
  {
  }

  /** Up to the first line that the editor counts otherwise, it has the lines of the file. */
  lemma {:induction false} FrontSeenAlike(file: seq<string>, n: nat)
    requires n <= |file| && SeenAlike(file, n)
    ensures EditorLines(Unlines(file)) == AsText(file)[..n] + EditorLines(Unlines(file[n..]))
    decreases n
  {
    if n == 0 {
      assert file[0..] == file && AsText(file)[..0] == [];
    } else {
      FirstEditorLine(file[0], Unlines(file[1..]));
      FrontSeenAlike(file[1..], n - 1);
      AsTextCons(file, n);
      Associative([file[0] + "\n"], AsText(file[1..])[..n - 1], EditorLines(Unlines(file[n..])));
    }
  }

  /** The editor counts the lines of a file as the file does exactly when each is one line to it. */
  lemma EditorLinesIff(file: seq<string>)
    ensures EditorLines(Unlines(file)) == AsText(file) <==> SeenAlike(file, |file|)
  {
    if SeenAlike(file, |file|) {
      FrontSeenAlike(file, |file|);
      assert file[|file|..] == [] && AsText(file)[..|file|] + [] == AsText(file);
    }
    if EditorLines(Unlines(file)) == AsText(file) {
      EveryLineIsOne(Unlines(file));
      forall i | 0 <= i < |file|
        ensures OneEditorLine(file[i])
      {
        WholeLineIff(file[i]);
        assert AsText(file)[i] == file[i] + "\n";
      }
    }
  }

  lemma {:induction false} FlatText(file: seq<string>, from: nat, to: nat)
    requires from <= to <= |file|
    ensures Flat(AsText(file)[from..to]) == Unlines(file[from..to])
    decreases |file| - from
  {
    if from < to {
      FlatText(file, from + 1, to);
      FlatCons(AsText(file), from, to);
      assert file[from..to] == [file[from]] + file[from + 1..to];
    }
  }

  // ----- edits that end before the first difference -----

  lemma {:induction false} FlatConcat(a: seq<string>, b: seq<string>)
    ensures Flat(a + b) == Flat(a) + Flat(b)
  {
    if a == [] {
      assert a + b == b;
    } else {
      FlatConcat(a[1..], b);
      assert (a + b)[1..] == a[1..] + b;
      Associative(a[0], Flat(a[1..]), Flat(b));
    }
  }

  lemma FlatFrom(document: seq<string>, at: nat, n: nat)
    requires at <= n <= |document|
    ensures Flat(document[at..]) == Flat(document[at..n]) + Flat(document[n..])
  {
    assert document[at..] == document[at..n] + document[n..];
    FlatConcat(document[at..n], document[n..]);
  }

  /** Two documents that agree up to line `n`, and in their text after it. */
  predicate AgreeTo(a: seq<string>, b: seq<string>, n: nat)
    requires n <= |a| && n <= |b|
  {
    a[..n] == b[..n] && Flat(a[n..]) == Flat(b[n..])
  }

  lemma AgreeBetween(a: seq<string>, b: seq<string>, n: nat, from: nat, to: nat)
    requires from <= to <= n <= |a| && n <= |b| && AgreeTo(a, b, n)
    ensures a[from..to] == b[from..to]
  {
    assert a[from..to] == a[..n][from..to] && b[from..to] == b[..n][from..to];
  }

  lemma {:induction false} OrderedInLonger<T>(edits: seq<Edit<T>>, at: int, n: nat, size: nat)
    requires Ordered(edits, at, n) && n <= size
    ensures Ordered(edits, at, size)
  {
    if edits != [] {
      OrderedInLonger(edits[1..], edits[0].endLine, n, size);
    }
  }

  /** Edits that end by line `n` leave the same text in both. */
  lemma {:induction false} SameSplice(a: seq<string>, b: seq<string>, edits: seq<Edit<char>>, at: nat, n: nat)
    requires at <= n <= |a| && n <= |b| && AgreeTo(a, b, n) && Ordered(edits, at, n)
    requires Ordered(edits, at, |a|) && Ordered(edits, at, |b|)
    ensures Spliced(a, edits, at) == Spliced(b, edits, at)
    decreases |edits|
  {
    if edits == [] {
      FlatFrom(a, at, n);
      FlatFrom(b, at, n);
      AgreeBetween(a, b, n, at, n);
    } else {
      OrderedEnds(edits, at, n);
      AgreeBetween(a, b, n, at, edits[0].startLine);
      SameSplice(a, b, edits[1..], edits[0].endLine, n);
    }
  }

  lemma OrderedEnds<T>(edits: seq<Edit<T>>, at: int, n: nat)
    requires edits != [] && Ordered(edits, at, n)
    ensures at <= edits[0].startLine <= edits[0].endLine <= n && Ordered(edits[1..], edits[0].endLine, n)
  {
  }

  lemma SeenAgree(file: seq<string>, n: nat)
    requires n <= |file| && SeenAlike(file, n)
    ensures n <= |EditorLines(Unlines(file))| && AgreeTo(EditorLines(Unlines(file)), AsText(file), n)
  {
    FrontSeenAlike(file, n);
    var front, rest := AsText(file)[..n], EditorLines(Unlines(file[n..]));
    assert (front + rest)[..n] == front && (front + rest)[n..] == rest;
    FlatLines(Unlines(file[n..]));
    FlatText(file, n, |file|);
    assert AsText(file)[n..] == AsText(file)[n..|file|] && file[n..] == file[n..|file|];
  }

  /** So in the editor, edits that end before the first line it counts otherwise do what they do to the file. */
  lemma EditorAgrees(file: seq<string>, edits: seq<Edit<char>>, n: nat)
    requires n <= |file| && SeenAlike(file, n) && Ordered(edits, 0, n)
    ensures Ordered(edits, 0, |file|)
    ensures Replaced(EditorLines(Unlines(file)), edits, 0) == Replaced(AsText(file), edits, 0)
  {
    SeenAgree(file, n);
    OrderedInLonger(edits, 0, n, |file|);
    OrderedInLonger(edits, 0, n, |EditorLines(Unlines(file))|);
    SameSplice(EditorLines(Unlines(file)), AsText(file), edits, 0, n);
    ReplacedIsSpliced(EditorLines(Unlines(file)), edits, 0);
    ReplacedIsSpliced(AsText(file), edits, 0);
  }
}
