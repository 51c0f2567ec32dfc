/** Which lines the patch reader takes for hunk headers, and what it reads off them. */
module HunkHeaders {
  import opened FeedbackService
  import opened Outcomes
  import Decimal

  predicate AllDigits(s: string) {
    s != [] && forall i :: 0 <= i < |s| ==> '0' <= s[i] <= '9'
  }

  /** A range: digits, and after a comma further digits unless they are left out. */
  predicate RangeParts(range: string, first: string, second: string) {
    AllDigits(first) && if second == [] then range == first else range == first + "," + second && AllDigits(second)
  }

  predicate HeaderParts(line: string, old': string, new': string, rest: string) {
    line == "@@ -" + (old' + (" +" + (new' + (" @@" + rest))))
  }

  /** The two numbers of a range; a length left out is one. */
  ghost predicate Denotes(range: string, start: nat, length: nat) {
    exists first, second :: RangeParts(range, first, second)
      && Decimal.Digits(first) == Some(start)
      && if second == [] then length == 1 else Decimal.Digits(second) == Some(length)
  }

  ghost predicate IsRange(range: string) {
    exists start: nat, length: nat :: Denotes(range, start, length)
  }

  /** The line begins with two ranges between the marks, and these are the numbers of the first. */
  ghost predicate ReadsAsHeader(line: string, start: nat, length: nat) {
    exists old', new', rest :: HeaderParts(line, old', new', rest) && Denotes(old', start, length) && IsRange(new')
  }

  // ----- numbers -----

  lemma DigitsOfRun(s: string)
    requires AllDigits(s)
    ensures Decimal.Digits(s).Some?
  {
    Decimal.DigitsIff(s);
  }

  lemma {:induction false} RunEnds(s: string)
    ensures DigitRun(s) < |s| ==> !Decimal.IsDigit(s[DigitRun(s)])
  {
    if s != [] && Decimal.IsDigit(s[0]) {
      RunEnds(s[1..]);
    }
  }

  lemma NumberCut(s: string) returns (digits: string, rest: string)
    requires TakeNumber(s).Some?
    ensures s == digits + rest && AllDigits(digits) && Decimal.Digits(digits).Some?
    ensures TakeNumber(s) == Some((Decimal.Digits(digits).value, rest))
    ensures rest == [] || !Decimal.IsDigit(rest[0])
  {
    var n := DigitRun(s);
    RunEnds(s);
    digits, rest := s[..n], s[n..];
  }

  lemma NumberTaken(digits: string, rest: string)
    requires AllDigits(digits) && (rest == [] || !Decimal.IsDigit(rest[0]))
    ensures Decimal.Digits(digits).Some? && TakeNumber(digits + rest) == Some((Decimal.Digits(digits).value, rest))
  {
    RunOfDigits(digits, rest);
    DigitsOfRun(digits);
    assert (digits + rest)[..|digits|] == digits && (digits + rest)[|digits|..] == rest;
  }

  // ----- ranges -----

  lemma RangeTaken(range: string, start: nat, length: nat, rest: string)
    requires Denotes(range, start, length) && rest != [] && rest[0] == ' '
    ensures TakeRange(range + rest) == Some((start, length, rest))
  {
    var first, second :| RangeParts(range, first, second) && Decimal.Digits(first) == Some(start)
      && if second == [] then length == 1 else Decimal.Digits(second) == Some(length);
    if second == [] {
      NumberTaken(first, rest);
    } else {
      var more := "," + (second + rest);
      assert range + rest == first + more && more[1..] == second + rest;
      NumberTaken(first, more);
      NumberTaken(second, rest);
    }
  }

  lemma RangeDenotes(range: string, first: string, second: string)
    requires RangeParts(range, first, second)
    requires Decimal.Digits(first).Some? && (second != [] ==> Decimal.Digits(second).Some?)
    ensures Denotes(range, Decimal.Digits(first).value, if second == [] then 1 else Decimal.Digits(second).value)
  {
  }

  lemma RangeCut(s: string) returns (range: string, rest: string)
    requires TakeRange(s).Some?
    ensures s == range + rest && TakeRange(s).value.2 == rest
    ensures Denotes(range, TakeRange(s).value.0, TakeRange(s).value.1)
  {
    var first, after := NumberCut(s);
    if after != [] && after[0] == ',' && TakeNumber(after[1..]).Some? {
      var second;
      second, rest := NumberCut(after[1..]);
      range := first + "," + second;
      RangeDenotes(range, first, second);
      CommaCut(first, second, rest);
      assert after == "," + (second + rest);
    } else {
      range, rest := first, after;
      RangeDenotes(range, first, "");
    }
  }

  lemma CommaCut(first: string, second: string, rest: string)
    ensures first + ("," + (second + rest)) == first + "," + second + rest
  {
  }

  // ----- the header -----

  lemma HeaderTaken(line: string, start: nat, length: nat)
    requires ReadsAsHeader(line, start, length)
    ensures MatchHeader(line) == Some((start, length))
  {
    var old', new', rest :| HeaderParts(line, old', new', rest) && Denotes(old', start, length) && IsRange(new');
    var newStart, newLength :| Denotes(new', newStart, newLength);
    var close := " @@" + rest;
    var middle := " +" + (new' + close);
    LiteralComesBack("@@ -", old' + middle);
    RangeTaken(old', start, length, middle);
    LiteralComesBack(" +", new' + close);
    RangeTaken(new', newStart, newLength, close);
    LiteralComesBack(" @@", rest);
  }

  lemma LiteralCut(expected: string, s: string)
    requires Literal(expected, s).Some?
    ensures s == expected + Literal(expected, s).value
  {
  }

  lemma HeaderCut(line: string)
    requires MatchHeader(line).Some?
    ensures ReadsAsHeader(line, MatchHeader(line).value.0, MatchHeader(line).value.1)
  {
    LiteralCut("@@ -", line);
    var afterOpen := Literal("@@ -", line).value;
    var old', afterOld := RangeCut(afterOpen);
    LiteralCut(" +", afterOld);
    var afterPlus := Literal(" +", afterOld).value;
    var new', afterNew := RangeCut(afterPlus);
    LiteralCut(" @@", afterNew);
    var rest := Literal(" @@", afterNew).value;
    assert HeaderParts(line, old', new', rest);
    assert IsRange(new');
  }

  /** The reader takes a line for a header exactly when it reads as one, and then its numbers are the line's. */
  lemma MatchHeaderIff(line: string, start: nat, length: nat)
    ensures MatchHeader(line) == Some((start, length)) <==> ReadsAsHeader(line, start, length)
  {
    if MatchHeader(line).Some? {
      HeaderCut(line);
    }
    if ReadsAsHeader(line, start, length) {
      HeaderTaken(line, start, length);
    }
  }
}
