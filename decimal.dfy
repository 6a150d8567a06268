/**
 * Decimal text of integers. The device's agent renders an INTEGER reading as
 * its decimal text (`str(vb[1])`), and every scaling rule begins by turning
 * that text back into a number (`float(v)`). The model reads the text as an
 * optional sign followed by decimal digits; anything else is a conversion
 * failure.
 */
module Decimal {
  import opened Optional

  predicate IsDigit(c: char) {
    '0' <= c <= '9'
  }

  predicate AllDigits(s: string) {
    forall i :: 0 <= i < |s| ==> IsDigit(s[i])
  }

  predicate IsSign(c: char) {
    c == '-' || c == '+'
  }

  /** The text `float()` accepts in this model: an optional sign, then at least one digit. */
  predicate WellFormed(s: string) {
    if |s| > 0 && IsSign(s[0]) then |s| > 1 && AllDigits(s[1..]) else |s| > 0 && AllDigits(s)
  }

  function DigitValue(c: char): (d: nat)
    requires IsDigit(c)
    ensures d < 10
  {
    c as int - '0' as int
  }

  function DigitChar(d: nat): (c: char)
    requires d < 10
    ensures IsDigit(c) && DigitValue(c) == d
  {
    ('0' as int + d) as char
  }

  /** The value of a digit string, most significant digit first. */
  function DigitsValue(s: string): nat
    requires AllDigits(s)
  {
    if s == [] then 0 else 10 * DigitsValue(s[..|s| - 1]) + DigitValue(s[|s| - 1])
  }

  /** The number a reading's text denotes, or None where the conversion raises. */
  function ParseInt(s: string): (r: Option<int>)
    ensures r.Some? <==> WellFormed(s)
    ensures r.Some? && |s| > 0 && s[0] == '-' ==> r.value <= 0
    ensures r.Some? && |s| > 0 && !(s[0] == '-') ==> r.value >= 0
  {
    if |s| > 1 && IsSign(s[0]) && AllDigits(s[1..]) then
      var magnitude: int := DigitsValue(s[1..]);
      Some(if s[0] == '-' then -magnitude else magnitude)
    else if |s| > 0 && !IsSign(s[0]) && AllDigits(s) then
      Some(DigitsValue(s))
    else
      None
  }

  /** The shortest decimal digits of a natural number. */
  function NatToDigits(n: nat): (s: string)
    ensures |s| > 0 && AllDigits(s)
  {
    if n < 10 then [DigitChar(n)] else NatToDigits(n / 10) + [DigitChar(n % 10)]
  }

  /** `str(x)` of an integer: a minus sign for negative values, then the digits. */
  function IntToDecimal(x: int): (s: string)
    ensures WellFormed(s)
    ensures s[0] == '-' <==> x < 0
  {
    if x < 0 then "-" + NatToDigits(-x) else NatToDigits(x)
  }

  lemma {:induction false} DigitsRoundTrip(n: nat)
    ensures DigitsValue(NatToDigits(n)) == n
  {
    if n >= 10 {
      var s := NatToDigits(n);
      assert s[..|s| - 1] == NatToDigits(n / 10);
      DigitsRoundTrip(n / 10);
    }
  }

  /** Reading back the text the agent renders for an integer gives that integer. */
  lemma ParseIntRoundTrip(x: int)
    ensures ParseInt(IntToDecimal(x)) == Some(x)
  {
    var s := IntToDecimal(x);
    if x < 0 {
      assert s[1..] == NatToDigits(-x);
      DigitsRoundTrip(-x);
    } else {
      DigitsRoundTrip(x);
      assert !IsSign(s[0]);
    }
  }
}
