/**
  Decimal digit strings: the rendering PHP's `sprintf('%d')` and `sprintf('%02d')`
  produce for a non-negative integer, and the value of such a string read back.
*/
module Decimal {

  predicate IsDigit(c: char) {
    '0' <= c <= '9'
  }

  predicate AllDigits(s: string) {
    forall i :: 0 <= i < |s| ==> IsDigit(s[i])
  }

  /** The numeric value of one decimal digit character. */
  function DigitValue(c: char): nat
    requires IsDigit(c)
  {
    (c as int) - ('0' as int)
  }

  /** The character of a digit value 0..9. */
  function DigitChar(d: nat): (c: char)
    requires d < 10
    ensures IsDigit(c) && DigitValue(c) == d
  {
    ('0' as int + d) as char
  }

  /** The value of a digit string, most significant digit first; leading zeros add nothing. */
  function Value(s: string): nat
    requires AllDigits(s)
  {
    if |s| == 0 then 0 else Value(s[..|s| - 1]) * 10 + DigitValue(s[|s| - 1])
  }

  /** `sprintf('%d', n)` for `n >= 0`: the shortest decimal rendering of `n`. */
  function Digits(n: nat): (r: string)
    ensures 1 <= |r| && AllDigits(r)
    ensures Value(r) == n
    ensures r[0] == '0' ==> n == 0 && |r| == 1
    ensures n < 10 <==> |r| == 1
    ensures n < 100 <==> |r| <= 2
  {
    if n < 10 then [DigitChar(n)]
    else
      var r := Digits(n / 10) + [DigitChar(n % 10)];
      assert r[..|r| - 1] == Digits(n / 10);
      r
  }

  /** A zero written in front of a digit string does not change its value. */
  lemma {:induction false} LeadingZero(s: string)
    requires AllDigits(s)
    ensures AllDigits("0" + s) && Value("0" + s) == Value(s)
  {
    if |s| > 0 {
      var init := s[..|s| - 1];
      assert ("0" + s)[..|"0" + s| - 1] == "0" + init;
      LeadingZero(init);
    }
  }

  /**
    `sprintf('%02d', n)` for `n >= 0`: the decimal rendering of `n`, padded on the
    left with zeros to a width of at least two characters, never truncated.
  */
  function Format02d(n: nat): (r: string)
    ensures 2 <= |r| && AllDigits(r)
    ensures Value(r) == n
    ensures n < 100 <==> |r| == 2
    ensures r[0] == '0' ==> n < 10
  {
    var d := Digits(n);
    if |d| < 2 then (LeadingZero(d); "0" + d) else d
  }
}
