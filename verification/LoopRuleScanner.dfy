/** The architecture agent's loop scanner: an indentation stack over the added lines of each diff hunk. */
module LoopRuleScanner {
  import opened LoopRules
  import Decimal
  import Text

  // ----- what is read off a source line -----

  function LStripBlanks(s: string): string {
    if s != [] && (s[0] == ' ' || s[0] == '\t') then LStripBlanks(s[1..]) else s
  }

  /** The column after `leading`, with tabs to the next multiple of eight. */
  function Columns(leading: string, column: nat): nat {
    if leading == [] then column
    else Columns(leading[1..], if leading[0] == '\t' then column - column % 8 + 8 else column + 1)
  }

  lemma {:induction false} StripShortens(s: string)
    ensures |LStripBlanks(s)| <= |s|
  {
    if s != [] {
      StripShortens(s[1..]);
    }
  }

  function IndentWidth(sourceLine: string): nat {
    StripShortens(sourceLine);
    Columns(sourceLine[..|sourceLine| - |LStripBlanks(sourceLine)|], 0)
  }

  const IO_PRIMITIVES: seq<string> :=
    ["open(", "requests.", "httpx.", "aiohttp.", "sqlite3.", "cursor.execute"]

  predicate UsesIo(sourceLine: string) {
    exists i :: 0 <= i < |IO_PRIMITIVES| && Text.Contains(sourceLine, IO_PRIMITIVES[i])
  }

  predicate IsPlainImport(stripped: string) {
    Text.StartsWith(stripped, "import ") || Text.StartsWith(stripped, "import\t")
  }

  predicate IsWordChar(c: char) {
    'a' <= c <= 'z' || 'A' <= c <= 'Z' || '0' <= c <= '9' || c == '_'
  }

  predicate StartsWithWord(s: string, word: string) {
    word <= s && (|s| == |word| || !IsWordChar(s[|word|]))
  }

  predicate EndsHeader(afterColon: string) {
    var t := Text.LStrip(afterColon);
    t == [] || t[0] == '#'
  }

  /** `^(for|while)\b[^\r\n]*:\s*(?:#.*)?$` on a line without line boundaries. */
  predicate IsLoopHeader(stripped: string) {
    && (StartsWithWord(stripped, "for") || StartsWithWord(stripped, "while"))
    && exists colon :: 0 <= colon < |stripped| && stripped[colon] == ':' && EndsHeader(stripped[colon + 1..])
  }

  function Classify(sourceLine: string): Line {
    var stripped := Text.LStrip(sourceLine);
    Line(stripped != [] && stripped[0] != '#', IndentWidth(sourceLine), IsLoopHeader(stripped),
         UsesIo(sourceLine), IsPlainImport(stripped))
  }

  function ClassifyAll(source: seq<string>): (lines: seq<Line>)
    ensures |lines| == |source| && forall i :: 0 <= i < |source| ==> lines[i] == Classify(source[i])
  {
    seq(|source|, i requires 0 <= i < |source| => Classify(source[i]))
  }

  // ----- what the reading means -----

  predicate IsBlank(lead: string) {
    forall i :: 0 <= i < |lead| ==> lead[i] == ' ' || lead[i] == '\t'
  }

  /** The visual width of blanks, from the last one back: a space takes one column, a tab goes on to the next multiple
      of eight. */
  function Width(lead: string): nat {
    if lead == [] then 0
    else
      var before := Width(lead[..|lead| - 1]);
      if lead[|lead| - 1] == '\t' then 8 * (before / 8 + 1) else before + 1
  }

  /** A piece of code as it stands after the indentation. */
  predicate Unindented(text: string) {
    text != [] ==> text[0] !in Text.BLANKS
  }

  lemma {:induction false} ColumnsSnoc(lead: string, c: char, column: nat)
    ensures var before := Columns(lead, column);
            Columns(lead + [c], column) == if c == '\t' then 8 * (before / 8 + 1) else before + 1
  {
    if lead == [] {
      assert [c][1..] == [];
    } else {
      assert (lead + [c])[1..] == lead[1..] + [c];
      ColumnsSnoc(lead[1..], c, if lead[0] == '\t' then column - column % 8 + 8 else column + 1);
    }
  }

  lemma {:induction false} ColumnsIsWidth(lead: string)
    ensures Columns(lead, 0) == Width(lead)
  {
    if lead != [] {
      var n := |lead| - 1;
      ColumnsIsWidth(lead[..n]);
      ColumnsSnoc(lead[..n], lead[n], 0);
      assert lead == lead[..n] + [lead[n]];
    }
  }

  lemma {:induction false} StripOfBlanks(lead: string, text: string)
    requires IsBlank(lead) && Unindented(text)
    ensures LStripBlanks(lead + text) == text
  {
    if lead == [] {
      assert lead + text == text;
    } else {
      assert (lead + text)[1..] == lead[1..] + text;
      StripOfBlanks(lead[1..], text);
    }
  }

  /** The indent of a source line is the width of the blanks it begins with. */
  lemma IndentIsWidth(lead: string, text: string)
    requires IsBlank(lead) && Unindented(text)
    ensures IndentWidth(lead + text) == Width(lead)
  {
    StripOfBlanks(lead, text);
    assert (lead + text)[..|lead|] == lead;
    ColumnsIsWidth(lead);
  }

  lemma {:induction false} WidthOfSpaces(lead: string)
    requires forall i :: 0 <= i < |lead| ==> lead[i] == ' '
    ensures Width(lead) == |lead|
  {
    if lead != [] {
      WidthOfSpaces(lead[..|lead| - 1]);
    }
  }

  /** A further space adds one column; a further tab leads to the next multiple of eight. */
  lemma OneMoreBlank(lead: string, text: string)
    requires IsBlank(lead) && Unindented(text)
    ensures IndentWidth(lead + [' '] + text) == IndentWidth(lead + text) + 1
    ensures var (before, after) := (IndentWidth(lead + text), IndentWidth(lead + ['\t'] + text));
            after % 8 == 0 && before < after <= before + 8
    ensures (forall i :: 0 <= i < |lead| ==> lead[i] == ' ') ==> IndentWidth(lead + text) == |lead|
  {
    IndentIsWidth(lead, text);
    IndentIsWidth(lead + [' '], text);
    IndentIsWidth(lead + ['\t'], text);
    assert (lead + [' '])[..|lead|] == lead && (lead + ['\t'])[..|lead|] == lead;
    if forall i :: 0 <= i < |lead| ==> lead[i] == ' ' {
      WidthOfSpaces(lead);
    }
  }

  /** A line does input or output exactly when one of six names occurs in it. */
  lemma UsesIoIff(s: string)
    ensures UsesIo(s) <==>
              || Text.OccursIn(s, "open(") || Text.OccursIn(s, "requests.") || Text.OccursIn(s, "httpx.")
              || Text.OccursIn(s, "aiohttp.") || Text.OccursIn(s, "sqlite3.") || Text.OccursIn(s, "cursor.execute")
  {
    Text.ContainsIff(s, "open(");
    Text.ContainsIff(s, "requests.");
    Text.ContainsIff(s, "httpx.");
    Text.ContainsIff(s, "aiohttp.");
    Text.ContainsIff(s, "sqlite3.");
    Text.ContainsIff(s, "cursor.execute");
    assert |IO_PRIMITIVES| == 6;
    assert Text.Contains(s, IO_PRIMITIVES[0]) ==> UsesIo(s);
    assert Text.Contains(s, IO_PRIMITIVES[1]) ==> UsesIo(s);
    assert Text.Contains(s, IO_PRIMITIVES[2]) ==> UsesIo(s);
    assert Text.Contains(s, IO_PRIMITIVES[3]) ==> UsesIo(s);
    assert Text.Contains(s, IO_PRIMITIVES[4]) ==> UsesIo(s);
    assert Text.Contains(s, IO_PRIMITIVES[5]) ==> UsesIo(s);
  }

  lemma PlainImportIff(text: string)
    ensures IsPlainImport(text) <==> |text| > 6 && text[..6] == "import" && (text[6] == ' ' || text[6] == '\t')
  {
    assert |text| > 6 && text[..6] == "import" ==> text[..7] == "import" + [text[6]];
    assert "import " == "import" + [' '] && "import\t" == "import" + ['\t'];
  }

  /** A letter of either case, a digit or an underscore. */
  predicate Wordy(c: char) {
    c == '_' || Decimal.IsDigit(c) || 'a' <= Text.LowerChar(c) <= 'z'
  }

  lemma WordCharIff(c: char)
    ensures IsWordChar(c) <==> Wordy(c)
  {
  }

  /** `for` or `while` as a word of its own, anything, a colon, blanks, and at most a comment. */
  ghost predicate HeaderParts(text: string, word: string, middle: string, blanks: string, comment: string) {
    && (word == "for" || word == "while")
    && text == word + middle + ":" + blanks + comment
    && (middle != [] ==> !Wordy(middle[0]))
    && Text.AllSpaces(blanks)
    && (comment != [] ==> comment[0] == '#')
  }

  ghost predicate ReadsAsHeader(text: string) {
    exists word, middle, blanks, comment :: HeaderParts(text, word, middle, blanks, comment)
  }

  lemma {:induction false} LStripCuts(s: string)
    ensures var n := |s| - |Text.LStrip(s)|;
            0 <= n && Text.AllSpaces(s[..n]) && s[n..] == Text.LStrip(s)
  {
    if s != [] && Text.IsSpace(s[0]) {
      LStripCuts(s[1..]);
      var n := |s| - |Text.LStrip(s)|;
      assert s[..n] == [s[0]] + s[1..][..n - 1] && s[n..] == s[1..][n - 1..];
      SpaceIff(s[0]);
    }
  }

  lemma SpaceIff(c: char)
    ensures Text.IsSpace(c) <==> c in Text.BLANKS
  {
    assert Text.BLANKS[0] == ' ' && Text.BLANKS[1] == '\t' && Text.BLANKS[2] == '\n' && Text.BLANKS[3] == '\r';
    assert Text.BLANKS[4] == '\U{0B}' && Text.BLANKS[5] == '\U{0C}';
  }

  lemma WordHasNoColon(text: string, word: string, colon: nat)
    requires (word == "for" || word == "while") && word <= text && colon < |text| && text[colon] == ':'
    ensures |word| <= colon
  {
    assert forall i :: 0 <= i < |word| ==> text[i] == word[i] && word[i] != ':';
  }

  lemma EndParts(after: string) returns (blanks: string, comment: string)
    requires EndsHeader(after)
    ensures after == blanks + comment && Text.AllSpaces(blanks) && (comment != [] ==> comment[0] == '#')
  {
    var n := |after| - |Text.LStrip(after)|;
    LStripCuts(after);
    blanks, comment := after[..n], after[n..];
  }

  lemma MiddleStarts(text: string, word: string, colon: nat)
    requires StartsWithWord(text, word) && |word| <= colon < |text|
    ensures text[|word|..colon] != [] ==> !Wordy(text[|word|..colon][0])
  {
    WordCharIff(text[|word|]);
  }

  lemma Reassembled(text: string, word: string, colon: nat, blanks: string, comment: string)
    requires word <= text && |word| <= colon < |text| && text[colon] == ':' && text[colon + 1..] == blanks + comment
    ensures text == word + text[|word|..colon] + ":" + blanks + comment
  {
    assert text == text[..colon] + [':'] + text[colon + 1..] && text[..colon] == word + text[|word|..colon];
  }

  lemma HeaderHasParts(text: string, word: string, colon: nat)
    requires (word == "for" || word == "while") && StartsWithWord(text, word)
    requires colon < |text| && text[colon] == ':' && EndsHeader(text[colon + 1..])
    ensures ReadsAsHeader(text)
  {
    WordHasNoColon(text, word, colon);
    var blanks, comment := EndParts(text[colon + 1..]);
    MiddleStarts(text, word, colon);
    Reassembled(text, word, colon, blanks, comment);
    PartsRead(text, word, text[|word|..colon], blanks, comment);
  }

  lemma PartsRead(text: string, word: string, middle: string, blanks: string, comment: string)
    requires HeaderParts(text, word, middle, blanks, comment)
    ensures ReadsAsHeader(text)
  {
  }

  lemma PartsAreHeader(text: string, word: string, middle: string, blanks: string, comment: string)
    requires HeaderParts(text, word, middle, blanks, comment)
    ensures IsLoopHeader(text)
  {
    var colon := |word| + |middle|;
    assert text[colon] == ':' && text[colon + 1..] == blanks + comment;
    SpaceIff('#');
    assert '#' !in Text.BLANKS;
    Text.LStripOf(blanks, comment);
    assert word <= text && text[|word|] == if middle == [] then ':' else middle[0];
    WordCharIff(text[|word|]);
    assert StartsWithWord(text, word);
  }

  lemma LoopHeaderIff(text: string)
    ensures IsLoopHeader(text) <==> ReadsAsHeader(text)
  {
    if IsLoopHeader(text) {
      var colon :| 0 <= colon < |text| && text[colon] == ':' && EndsHeader(text[colon + 1..]);
      HeaderHasParts(text, if StartsWithWord(text, "for") then "for" else "while", colon);
    }
    if ReadsAsHeader(text) {
      var word, middle, blanks, comment :| HeaderParts(text, word, middle, blanks, comment);
      PartsAreHeader(text, word, middle, blanks, comment);
    }
  }

  // ----- the rules on source text -----

  /** A line of code: neither blank nor a comment. */
  predicate IsCode(text: string) {
    text != [] && text[0] != '#'
  }

  ghost predicate BreaksRule(text: string, rule: Rule) {
    match rule
    case ARCH001 => UsesIo(text)
    case ARCH002 => IsPlainImport(text)
  }

  lemma OccursAfterBlanks(lead: string, text: string, part: string)
    requires IsBlank(lead) && part != [] && part[0] != ' ' && part[0] != '\t'
    ensures Text.OccursIn(lead + text, part) <==> Text.OccursIn(text, part)
  {
    if Text.OccursIn(lead + text, part) {
      var i: nat :| i <= |lead + text| && part <= (lead + text)[i..];
      assert (lead + text)[i] == part[0];
      assert (lead + text)[i..] == text[i - |lead|..];
    }
    if Text.OccursIn(text, part) {
      var i: nat :| i <= |text| && part <= text[i..];
      assert (lead + text)[|lead| + i..] == text[i..];
    }
  }

  lemma UsesIoAfterBlanks(lead: string, text: string)
    requires IsBlank(lead)
    ensures UsesIo(lead + text) <==> UsesIo(text)
  {
    UsesIoIff(lead + text);
    UsesIoIff(text);
    OccursAfterBlanks(lead, text, "open(");
    OccursAfterBlanks(lead, text, "requests.");
    OccursAfterBlanks(lead, text, "httpx.");
    OccursAfterBlanks(lead, text, "aiohttp.");
    OccursAfterBlanks(lead, text, "sqlite3.");
    OccursAfterBlanks(lead, text, "cursor.execute");
  }

  lemma SourceLine(lead: string, text: string)
    requires IsBlank(lead) && Unindented(text)
    ensures Classify(lead + text)
         == Line(IsCode(text), Width(lead), IsLoopHeader(text), UsesIo(text), IsPlainImport(text))
  {
    IndentIsWidth(lead, text);
    UsesIoAfterBlanks(lead, text);
    assert Text.AllSpaces(lead) by {
      SpaceIff(' ');
      SpaceIff('\t');
    }
    Text.LStripOf(lead, text);
  }

  /** Source lines given by their indentation and what follows it. */
  ghost predicate Written(lines: seq<string>, leads: seq<string>, texts: seq<string>) {
    && |lines| == |leads| == |texts|
    && forall i :: 0 <= i < |lines| ==> lines[i] == leads[i] + texts[i] && IsBlank(leads[i]) && Unindented(texts[i])
  }

  /** Code line `j` is indented deeper than the loop header `i`, and so is all the code between them. */
  ghost predicate InLoop(leads: seq<string>, texts: seq<string>, i: nat, j: nat)
    requires |leads| == |texts|
  {
    && i < j < |texts| && IsCode(texts[i]) && ReadsAsHeader(texts[i]) && IsCode(texts[j])
    && forall k :: i < k <= j && IsCode(texts[k]) ==> Width(leads[i]) < Width(leads[k])
  }

  /** The rules on the text itself: what is reported is a line of code in a loop that breaks the rule. */
  lemma BrokenInSource(lines: seq<string>, leads: seq<string>, texts: seq<string>, rule: Rule)
    requires Written(lines, leads, texts)
    ensures Broken(ClassifyAll(lines), rule)
        <==> exists i: nat, j: nat :: InLoop(leads, texts, i, j) && BreaksRule(texts[j], rule)
  {
    forall i: nat, j: nat
      ensures Encloses(ClassifyAll(lines), i, j) <==> InLoop(leads, texts, i, j)
      ensures j < |lines| ==> (Breaks(ClassifyAll(lines)[j], rule) <==> BreaksRule(texts[j], rule))
    {
      forall k | 0 <= k < |lines|
        ensures ClassifyAll(lines)[k]
             == Line(IsCode(texts[k]), Width(leads[k]), IsLoopHeader(texts[k]), UsesIo(texts[k]),
                     IsPlainImport(texts[k]))
      {
        SourceLine(leads[k], texts[k]);
      }
      if i < |lines| {
        LoopHeaderIff(texts[i]);
      }
    }
  }

  // ----- the scanner -----

  class Scanner {
    var loopIndents: seq<nat>
    var foundCodes: set<Rule>
    ghost var scanned: seq<Line>
    ghost var pops: nat

    ghost predicate Valid()
      reads this
    {
      Scan(scanned) == State(loopIndents, foundCodes, pops)
    }

    constructor ()
      ensures Valid() && scanned == []
    {
      loopIndents, foundCodes, scanned, pops := [], {}, [], 0;
    }

    method ScanLine(sourceLine: string)
      requires Valid()
      modifies this
      ensures Valid() && scanned == old(scanned) + [Classify(sourceLine)]
    {
      ghost var line := Classify(sourceLine);
      ghost var before := scanned;
      scanned := scanned + [line];
      assert scanned[..|scanned| - 1] == before;
      var stripped := Text.LStrip(sourceLine);
      if stripped == [] || stripped[0] == '#' {
        return;
      }
      var indent := IndentWidth(sourceLine);
      ghost var rest := Popped(loopIndents, indent);
      while loopIndents != [] && indent <= loopIndents[|loopIndents| - 1]
        invariant Popped(loopIndents, indent) == rest
        invariant pops + |loopIndents| == old(pops) + |old(loopIndents)|
        modifies this`loopIndents, this`pops
      {
        loopIndents := loopIndents[..|loopIndents| - 1];
        pops := pops + 1;
      }
      if loopIndents != [] {
        if UsesIo(sourceLine) {
          foundCodes := foundCodes + {ARCH001};
        }
        if IsPlainImport(stripped) {
          foundCodes := foundCodes + {ARCH002};
        }
      }
      if IsLoopHeader(stripped) {
        loopIndents := loopIndents + [indent];
      }
    }
  }
}
