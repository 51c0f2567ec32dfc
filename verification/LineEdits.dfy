/** What a list of edits does to a document: LSP 3.17, section "TextEdit[]". Every edit here covers whole lines. */
module LineEdits {
  import opened Sequences

  /** Lines `startLine` to `endLine` (excluded) of the original become `content`. */
  datatype Edit<T> = Edit(startLine: int, endLine: int, content: seq<T>)

  /** What the edits that start at a line put there, in the order of the list. */
  function Inserted<T>(edits: seq<Edit<T>>, at: int): seq<T> {
    if edits == [] then []
    else (if edits[0].startLine == at then edits[0].content else []) + Inserted(edits[1..], at)
  }

  predicate Covered<T>(edits: seq<Edit<T>>, line: int) {
    edits != [] && (edits[0].startLine <= line < edits[0].endLine || Covered(edits[1..], line))
  }

  function Kept<T>(document: seq<seq<T>>, edits: seq<Edit<T>>, at: nat): seq<T>
    requires at < |document|
  {
    if Covered(edits, at) then [] else document[at]
  }

  /** The document from line `at` on, every position counted in the original document. */
  function Replaced<T>(document: seq<seq<T>>, edits: seq<Edit<T>>, at: nat): seq<T>
    requires at <= |document|
    decreases |document| - at
  {
    if at == |document| then Inserted(edits, at)
    else Inserted(edits, at) + Kept(document, edits, at) + Replaced(document, edits, at + 1)
  }

  /** The edits lie in the document, in order, and do not overlap. */
  predicate Ordered<T>(edits: seq<Edit<T>>, at: int, size: nat) {
    edits != [] ==>
      at <= edits[0].startLine <= edits[0].endLine <= size && Ordered(edits[1..], edits[0].endLine, size)
  }

  function Flat<T>(pieces: seq<seq<T>>): seq<T> {
    if pieces == [] then [] else pieces[0] + Flat(pieces[1..])
  }

  /** One pass over ordered edits. */
  function Spliced<T>(document: seq<seq<T>>, edits: seq<Edit<T>>, at: nat): seq<T>
    requires at <= |document| && Ordered(edits, at, |document|)
    decreases |edits|
  {
    if edits == [] then Flat(document[at..])
    else
      Flat(document[at..edits[0].startLine]) + edits[0].content
      + Spliced(document, edits[1..], edits[0].endLine)
  }

  lemma {:induction false} NothingBefore<T>(edits: seq<Edit<T>>, at: int, size: nat, line: int)
    requires line < at && Ordered(edits, at, size)
    ensures Inserted(edits, line) == [] && !Covered(edits, line)
  {
    if edits != [] {
      NothingBefore(edits[1..], edits[0].endLine, size, line);
    }
  }

  lemma LineStays<T>(document: seq<seq<T>>, edits: seq<Edit<T>>, at: nat)
    requires at < |document| && Inserted(edits, at) == [] && !Covered(edits, at)
    ensures Replaced(document, edits, at) == document[at] + Replaced(document, edits, at + 1)
  {
    NothingBetween(document[at], Replaced(document, edits, at + 1));
  }

  lemma LineGoes<T>(document: seq<seq<T>>, edits: seq<Edit<T>>, at: nat)
    requires at < |document| && Covered(edits, at)
    ensures Replaced(document, edits, at) == Inserted(edits, at) + Replaced(document, edits, at + 1)
  {
    NothingBetween(Inserted(edits, at), Replaced(document, edits, at + 1));
  }

  lemma FlatCons<T>(document: seq<seq<T>>, at: nat, to: nat)
    requires at < to <= |document|
    ensures Flat(document[at..to]) == document[at] + Flat(document[at + 1..to])
  {
    assert document[at..to] == [document[at]] + document[at + 1..to];
  }

  lemma {:induction false} Untouched<T>(document: seq<seq<T>>, edits: seq<Edit<T>>, at: nat, to: nat)
    requires at <= to <= |document| && Ordered(edits, to, |document|)
    ensures Replaced(document, edits, at) == Flat(document[at..to]) + Replaced(document, edits, to)
    decreases |document| - at
  {
    if at == to {
      assert document[at..to] == [];
    } else {
      NothingBefore(edits, to, |document|, at);
      LineStays(document, edits, at);
      Untouched(document, edits, at + 1, to);
      FlatCons(document, at, to);
      Associative(document[at], Flat(document[at + 1..to]), Replaced(document, edits, to));
    }
  }

  /** Past its end the first edit no longer matters. */
  lemma {:induction false} FirstIsOver<T>(document: seq<seq<T>>, edits: seq<Edit<T>>, at: nat)
    requires edits != [] && at <= |document| && edits[0].endLine <= at && edits[0].startLine < at
    ensures Replaced(document, edits, at) == Replaced(document, edits[1..], at)
    decreases |document| - at
  {
    assert Inserted(edits, at) == Inserted(edits[1..], at);
    if at < |document| {
      FirstIsOver(document, edits, at + 1);
    }
  }

  /** What the first edit has written from line `at` on. */
  function StillToWrite<T>(edits: seq<Edit<T>>, at: int): seq<T>
    requires edits != []
  {
    if at == edits[0].startLine then edits[0].content else []
  }

  lemma InsideFirst<T>(edits: seq<Edit<T>>, at: int, size: nat)
    requires edits != [] && edits[0].startLine <= at < edits[0].endLine && Ordered(edits[1..], edits[0].endLine, size)
    ensures Inserted(edits, at) == StillToWrite(edits, at) && Covered(edits, at)
  {
    NothingBefore(edits[1..], edits[0].endLine, size, at);
    assert edits[0].content + [] == edits[0].content;
  }

  /** The first edit writes its content where it starts, and nothing further up to its end. */
  lemma {:induction false} FirstRange<T>(document: seq<seq<T>>, edits: seq<Edit<T>>, at: nat)
    requires edits != [] && edits[0].startLine <= at <= edits[0].endLine <= |document|
    requires edits[0].startLine < edits[0].endLine && Ordered(edits[1..], edits[0].endLine, |document|)
    ensures Replaced(document, edits, at)
         == StillToWrite(edits, at) + Replaced(document, edits[1..], edits[0].endLine)
    decreases |document| - at
  {
    if at == edits[0].endLine {
      FirstIsOver(document, edits, at);
    } else {
      FirstRange(document, edits, at + 1);
      InsideFirst(edits, at, |document|);
      LineGoes(document, edits, at);
    }
  }

  lemma LineTurn<T>(document: seq<seq<T>>, edits: seq<Edit<T>>, at: nat, here: seq<T>, next: seq<T>)
    requires at < |document|
    requires here == Inserted(edits, at) + Kept(document, edits, at) && next == Replaced(document, edits, at + 1)
    ensures Replaced(document, edits, at) == here + next
  {
  }

  lemma InsertionLine<T>(document: seq<seq<T>>, edits: seq<Edit<T>>)
    requires edits != [] && 0 <= edits[0].startLine && edits[0].startLine == edits[0].endLine
    requires edits[0].startLine < |document|
    ensures var start := edits[0].startLine;
            Inserted(edits, start) + Kept(document, edits, start)
            == edits[0].content + (Inserted(edits[1..], start) + Kept(document, edits[1..], start))
  {
    var start := edits[0].startLine;
    Associative(edits[0].content, Inserted(edits[1..], start), Kept(document, edits[1..], start));
  }

  lemma AtInsertion<T>(document: seq<seq<T>>, edits: seq<Edit<T>>)
    requires edits != [] && 0 <= edits[0].startLine <= |document| && edits[0].startLine == edits[0].endLine
    ensures Replaced(document, edits, edits[0].startLine)
         == edits[0].content + Replaced(document, edits[1..], edits[0].startLine)
  {
    var start := edits[0].startLine;
    if start < |document| {
      FirstIsOver(document, edits, start + 1);
      InsertionLine(document, edits);
      var here := Inserted(edits[1..], start) + Kept(document, edits[1..], start);
      var next := Replaced(document, edits[1..], start + 1);
      LineTurn(document, edits, start, edits[0].content + here, next);
      LineTurn(document, edits[1..], start, here, next);
      Associative(edits[0].content, here, next);
    }
  }

  /** For ordered edits the simultaneous replacement is the single pass. */
  lemma {:induction false} ReplacedIsSpliced<T>(document: seq<seq<T>>, edits: seq<Edit<T>>, at: nat)
    requires at <= |document| && Ordered(edits, at, |document|)
    ensures Replaced(document, edits, at) == Spliced(document, edits, at)
    decreases |edits|
  {
    if edits == [] {
      Untouched(document, edits, at, |document|);
      assert document[at..|document|] == document[at..];
    } else {
      Untouched(document, edits, at, edits[0].startLine);
      if edits[0].startLine < edits[0].endLine {
        FirstRange(document, edits, edits[0].startLine);
      } else {
        AtInsertion(document, edits);
      }
      ReplacedIsSpliced(document, edits[1..], edits[0].endLine);
    }
  }
}
