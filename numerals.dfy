/**
 * Decimal rendering of numbers, as `String(n)` and template literals produce it,
 * and the matching digit parser used by the JSON decoder.
 */
module Numerals {

  predicate IsDigit(c: char) { '0' <= c <= '9' }

  predicate AllDigits(s: string) {
    forall i :: 0 <= i < |s| ==> IsDigit(s[i])
  }

  function DigitChar(d: nat): (c: char)
    requires d < 10
    ensures IsDigit(c) && c as int - '0' as int == d
  {
    ('0' as int + d) as char
  }

  function DigitValue(c: char): (d: nat)
    requires IsDigit(c)
    ensures d < 10 && DigitChar(d) == c
  {
    c as int - '0' as int
  }

  /** The decimal digits of `n`, most significant first, without leading zeros. */
  function NatText(n: nat): (r: string)
    ensures |r| >= 1 && AllDigits(r)
    ensures |r| > 1 ==> r[0] != '0'
  {
    if n < 10 then [DigitChar(n)] else NatText(n / 10) + [DigitChar(n % 10)]
  }

  /** The number a string of digits denotes. */
  function DigitsValue(s: string): nat
    requires AllDigits(s)
  {
    if s == [] then 0 else DigitsValue(s[..|s| - 1]) * 10 + DigitValue(s[|s| - 1])
  }

  /** Reading back the digits of `n` gives `n`. */
  lemma {:induction false} NatTextValue(n: nat)
    ensures DigitsValue(NatText(n)) == n
  {
    if n >= 10 {
      NatTextValue(n / 10);
      var r := NatText(n);
      assert r[..|r| - 1] == NatText(n / 10);
    }
  }

  /** A string of digits without leading zero is the rendering of the number it denotes. */
  lemma {:induction false} ValueNatText(s: string)
    requires |s| >= 1 && AllDigits(s) && (|s| > 1 ==> s[0] != '0')
    ensures NatText(DigitsValue(s)) == s
  {
    if |s| > 1 {
      var p := s[..|s| - 1];
      var d := DigitValue(s[|s| - 1]);
      ValueNatText(p);
      LeadingDigitBound(p);
      var v := DigitsValue(p);
      var n := v * 10 + d;
      assert DigitsValue(s) == n;
      assert n / 10 == v && n % 10 == d;
      assert n >= 10;
      assert NatText(n) == NatText(v) + [DigitChar(d)];
      assert s == p + [s[|s| - 1]];
    }
  }

  /** A canonical digit string of two or more digits denotes at least 10. */
  lemma {:induction false} LeadingDigitBound(s: string)
    requires |s| >= 1 && AllDigits(s) && (|s| > 1 ==> s[0] != '0')
    ensures |s| > 1 ==> DigitsValue(s) >= 10
    ensures DigitsValue(s) >= 1 || s == "0"
  {
    if |s| > 1 {
      LeadingDigitBound(s[..|s| - 1]);
    }
  }

  /** `String(i)` for an integer. */
  function IntText(i: int): (r: string)
    ensures |r| >= 1
  {
    if i < 0 then "-" + NatText(-i) else NatText(i)
  }

  /**
   * `String(x)` for a number. Integers are rendered exactly; a fraction is
   * rendered to two decimals without trailing zeros, which is what JavaScript
   * prints for amounts given in hundredths.
   */
  function NumberText(x: real): (r: string)
    ensures x == x.Floor as real ==> r == IntText(x.Floor)
  {
    if x < 0.0 then
      assert x == x.Floor as real ==> (-x).Floor == -x.Floor;
      "-" + NonNegativeText(-x)
    else NonNegativeText(x)
  }

  function NonNegativeText(x: real): (r: string)
    requires x >= 0.0
    ensures x == x.Floor as real ==> r == NatText(x.Floor)
  {
    var whole := x.Floor;
    var hundredths := ((x - whole as real) * 100.0).Floor;
    assert 0 <= hundredths < 100;
    NatText(whole) +
      if hundredths == 0 then ""
      else if hundredths % 10 == 0 then "." + [DigitChar(hundredths / 10)]
      else "." + [DigitChar(hundredths / 10), DigitChar(hundredths % 10)]
  }
}
