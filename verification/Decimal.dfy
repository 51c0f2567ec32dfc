/** Decimal numerals: what Python's f-strings print and `int` reads. */
module Decimal {
  import opened Outcomes

  predicate IsDigit(c: char) {
    '0' <= c <= '9'
  }

  function DigitValue(c: char): nat
    requires IsDigit(c)
  {
    c as int - '0' as int
  }

  function DigitChar(d: nat): (c: char)
    requires d < 10
    ensures IsDigit(c) && DigitValue(c) == d
  {
    '0' + d as char
  }

  function Print(n: nat): (s: string)
    ensures s != [] && forall i :: 0 <= i < |s| ==> IsDigit(s[i])
  {
    if n < 10 then [DigitChar(n)] else Print(n / 10) + [DigitChar(n % 10)]
  }

  /** Digits, with single underscores allowed between them. */
  function Digits(s: string): Option<nat> {
    if s == [] || !IsDigit(s[|s| - 1]) then None
    else if |s| == 1 then Some(DigitValue(s[0]))
    else
      var front := if s[|s| - 2] == '_' then s[..|s| - 2] else s[..|s| - 1];
      match Digits(front)
      case None => None
      case Some(v) => Some(10 * v + DigitValue(s[|s| - 1]))
  }

  /** `int` of text already stripped: an optional sign, then digits. */
  function ParseInt(s: string): Option<int> {
    if s != [] && s[0] == '-' then
      match Digits(s[1..])
      case None => None
      case Some(v) => Some(0 - v)
    else
      match Digits(if s != [] && s[0] == '+' then s[1..] else s)
      case None => None
      case Some(v) => Some(v)
  }

  lemma {:induction false} DigitsOfPrint(n: nat)
    ensures Digits(Print(n)) == Some(n)
  {
    if n >= 10 {
      DigitsOfPrint(n / 10);
      var s := Print(n);
      assert s[..|s| - 1] == Print(n / 10);
      assert s[|s| - 2] == Print(n / 10)[|Print(n / 10)| - 1];
    }
  }

  /** Reading back what was printed gives the number. */
  lemma ParsePrint(n: nat)
    ensures ParseInt(Print(n)) == Some(n)
  {
    DigitsOfPrint(n);
    assert IsDigit(Print(n)[0]);
  }

  // ----- which text is a numeral, and of what -----

  /** Digits and underscores, with a digit at either end and no two underscores in a row. */
  predicate IsNumeral(s: string) {
    && s != [] && '0' <= s[0] <= '9' && '0' <= s[|s| - 1] <= '9'
    && (forall i :: 0 <= i < |s| ==> '0' <= s[i] <= '9' || s[i] == '_')
    && forall i :: 0 < i < |s| && s[i] == '_' ==> s[i - 1] != '_'
  }

  lemma {:induction false} DigitsIff(s: string)
    ensures Digits(s).Some? <==> IsNumeral(s)
    decreases |s|
  {
    if |s| > 1 && IsDigit(s[|s| - 1]) {
      var front := if s[|s| - 2] == '_' then s[..|s| - 2] else s[..|s| - 1];
      DigitsIff(front);
      if IsNumeral(front) {
        assert forall i :: 0 <= i < |front| ==> s[i] == front[i];
      }
      if IsNumeral(s) {
        assert forall i :: 0 <= i < |front| ==> front[i] == s[i];
        assert s[|s| - 2] == '_' ==> |s| > 2 && s[|s| - 3] != '_';
      }
    }
  }

  /** Each further digit multiplies by ten; an underscore before it changes nothing. */
  lemma DigitsSnoc(s: string, c: char)
    requires Digits(s).Some? && '0' <= c <= '9'
    ensures Digits([c]) == Some(c as int - '0' as int)
    ensures Digits(s + [c]) == Some(10 * Digits(s).value + (c as int - '0' as int))
    ensures Digits(s + ['_'] + [c]) == Digits(s + [c])
  {
    DigitsIff(s);
    assert (s + [c])[..|s|] == s && (s + [c])[|s| - 1] == s[|s| - 1];
    assert (s + ['_'] + [c])[..|s|] == s && (s + ['_'] + [c])[|s|] == '_';
  }

  /** A sign before a numeral, and only one. */
  lemma SignIff(s: string)
    requires s != []
    ensures ParseInt(s).Some? <==> IsNumeral(s) || ((s[0] == '-' || s[0] == '+') && IsNumeral(s[1..]))
    ensures IsNumeral(s) ==> Digits(s).Some? && ParseInt(s) == Some(Digits(s).value)
    ensures s[0] == '-' && IsNumeral(s[1..]) ==>
              Digits(s[1..]).Some? && ParseInt(s).Some? && ParseInt(s).value + Digits(s[1..]).value == 0
    ensures s[0] == '+' && IsNumeral(s[1..]) ==> Digits(s[1..]).Some? && ParseInt(s) == Some(Digits(s[1..]).value)
  {
    DigitsIff(s);
    DigitsIff(s[1..]);
  }
}
