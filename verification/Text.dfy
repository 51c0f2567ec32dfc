/** The few Python string operations the components share, over ASCII. */
module Text {

  /** `str.isspace` and `bytes.isspace` agree on these six characters. */
  predicate IsSpace(c: char) {
    c == ' ' || c == '\t' || c == '\n' || c == '\r' || c == '\U{0B}' || c == '\U{0C}'
  }

  function LStrip(s: string): string {
    if s != [] && IsSpace(s[0]) then LStrip(s[1..]) else s
  }

  function RStrip(s: string): string {
    if s != [] && IsSpace(s[|s| - 1]) then RStrip(s[..|s| - 1]) else s
  }

  function Strip(s: string): string {
    RStrip(LStrip(s))
  }

  function LowerChar(c: char): char {
    if 'A' <= c <= 'Z' then c - 'A' + 'a' else c
  }

  function Lower(s: string): string {
    seq(|s|, i requires 0 <= i < |s| => LowerChar(s[i]))
  }

  predicate StartsWith(s: string, prefix: string) {
    prefix <= s
  }

  /** Python's `part in s`. */
  predicate Contains(s: string, part: string) {
    part <= s || (s != [] && Contains(s[1..], part))
  }

  // ----- what they mean -----

  /** Some position of the text is where the part begins. */
  ghost predicate OccursIn(s: string, part: string) {
    exists i: nat :: i <= |s| && part <= s[i..]
  }

  lemma {:induction false} ContainsIff(s: string, part: string)
    ensures Contains(s, part) <==> OccursIn(s, part)
  {
    assert s[0..] == s;
    if s != [] {
      ContainsIff(s[1..], part);
      if OccursIn(s[1..], part) {
        var i: nat :| i <= |s[1..]| && part <= s[1..][i..];
        assert s[1..][i..] == s[i + 1..];
      }
      if OccursIn(s, part) && !(part <= s) {
        var i: nat :| i <= |s| && part <= s[i..];
        assert s[1..][i - 1..] == s[i..];
      }
    }
  }

  /** Lower case changes capitals only, and leaves none. */
  lemma LowerIff(s: string)
    ensures |Lower(s)| == |s|
    ensures forall i :: 0 <= i < |s| ==>
              (Lower(s)[i] == s[i] <==> s[i] < 'A' || 'Z' < s[i]) && (Lower(s)[i] < 'A' || 'Z' < Lower(s)[i])
    ensures forall i :: 0 <= i < |s| && 'A' <= s[i] <= 'Z' ==>
              Lower(s)[i] as int - 'a' as int == s[i] as int - 'A' as int
  {
  }

  const BLANKS := " \t\n\r\U{0B}\U{0C}"

  predicate AllSpaces(s: string) {
    forall i :: 0 <= i < |s| ==> s[i] in BLANKS
  }

  /** No blank at either end. */
  predicate Trimmed(s: string) {
    s != [] ==> s[0] !in BLANKS && s[|s| - 1] !in BLANKS
  }

  lemma {:induction false} LStripOf(lead: string, s: string)
    requires AllSpaces(lead) && (s != [] ==> s[0] !in BLANKS)
    ensures LStrip(lead + s) == s
  {
    if lead == [] {
      assert lead + s == s;
    } else {
      assert (lead + s)[1..] == lead[1..] + s && lead[0] in BLANKS;
      LStripOf(lead[1..], s);
    }
  }

  lemma {:induction false} RStripOf(s: string, trail: string)
    requires AllSpaces(trail) && (s != [] ==> s[|s| - 1] !in BLANKS)
    ensures RStrip(s + trail) == s
  {
    if trail == [] {
      assert s + trail == s;
    } else {
      var n := |trail| - 1;
      assert (s + trail)[..|s| + n] == s + trail[..n] && trail[n] in BLANKS;
      RStripOf(s, trail[..n]);
    }
  }

  /** Stripping takes the blanks off both ends, all of them, and nothing else. */
  lemma StripOf(lead: string, s: string, trail: string)
    requires AllSpaces(lead) && AllSpaces(trail) && Trimmed(s)
    ensures Strip(lead + s + trail) == s
  {
    if s == [] {
      LStripOf(lead + trail, []);
      assert lead + s + trail == lead + trail + [];
    } else {
      LStripOf(lead, s + trail);
      assert lead + s + trail == lead + (s + trail);
      RStripOf(s, trail);
    }
  }

  lemma {:induction false} RStripKeepsFirst(s: string, c: char)
    requires c !in BLANKS
    ensures RStrip([c] + s) != [] && RStrip([c] + s)[0] == c
    decreases |s|
  {
    if s != [] {
      assert ([c] + s)[..|s|] == [c] + s[..|s| - 1];
      RStripKeepsFirst(s[..|s| - 1], c);
    }
  }

  lemma StripOpens(lead: string, c: char, rest: string)
    requires AllSpaces(lead) && c !in BLANKS
    ensures StartsWith(Strip(lead + [c] + rest), [c])
  {
    LStripOf(lead, [c] + rest);
    assert lead + [c] + rest == lead + ([c] + rest);
    RStripKeepsFirst(rest, c);
  }

  lemma {:induction false} RStripIsFront(s: string)
    ensures RStrip(s) <= s
  {
    if s != [] && IsSpace(s[|s| - 1]) {
      RStripIsFront(s[..|s| - 1]);
    }
  }

  lemma {:induction false} LStripIsBack(s: string) returns (lead: string)
    ensures AllSpaces(lead) && s == lead + LStrip(s)
  {
    lead := [];
    if s != [] && IsSpace(s[0]) {
      lead := LStripIsBack(s[1..]);
      lead := [s[0]] + lead;
    }
  }

  /** Stripped text that is not empty begins with the first character that is not a blank. */
  lemma StripHasFront(s: string) returns (lead: string, rest: string)
    requires Strip(s) != []
    ensures AllSpaces(lead) && s == lead + [Strip(s)[0]] + rest
  {
    lead := LStripIsBack(s);
    RStripIsFront(LStrip(s));
    rest := LStrip(s)[1..];
  }

  lemma {:induction false} NotContained(s: string, part: string)
    requires part != [] && forall i :: 0 <= i <= |s| - |part| ==> s[i] != part[0]
    ensures !Contains(s, part)
  {
    if s != [] {
      assert |part| <= |s| ==> s[0] != part[0];
      assert forall i :: 0 <= i < |s[1..]| ==> s[1..][i] == s[i + 1];
      NotContained(s[1..], part);
    }
  }
}
