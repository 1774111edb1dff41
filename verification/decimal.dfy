/** Decimal digits: the character class `DIGITS` of basic.py, the digit-string
    to number conversion that `int(num_str)` performs on a number lexeme, and
    the number-to-text conversion that `str(...)` performs when an error is
    rendered. */
module Decimal {

  /** The ASCII digits 0 to 9, the characters the lexer treats as digits. */
  predicate IsDigit(c: char) {
    '0' <= c <= '9'
  }

  predicate AllDigits(s: string) {
    forall i :: 0 <= i < |s| ==> IsDigit(s[i])
  }

  function DigitValue(c: char): (d: nat)
    requires IsDigit(c)
    ensures d < 10
  {
    c as int - '0' as int
  }

  function DigitChar(d: nat): (c: char)
    requires d < 10
    ensures IsDigit(c) && DigitValue(c) == d
  {
    ('0' as int + d) as char
  }

  function Pow10(n: nat): (p: nat)
    ensures p >= 1
  {
    if n == 0 then 1 else 10 * Pow10(n - 1)
  }

  /** The value of a string of decimal digits, most significant first, as
      Python's `int()` reads it (leading zeros allowed). */
  function DecimalValue(s: string): (n: nat)
    requires AllDigits(s)
    ensures n < Pow10(|s|)
  {
    if s == [] then 0
    else DecimalValue(s[..|s| - 1]) * 10 + DigitValue(s[|s| - 1])
  }

  /** Python's `str(n)` for a natural number: no sign, no leading zero. */
  function NatToString(n: nat): (s: string)
    ensures |s| >= 1 && AllDigits(s)
    ensures |s| > 1 ==> s[0] != '0'
  {
    if n < 10 then [DigitChar(n)]
    else NatToString(n / 10) + [DigitChar(n % 10)]
  }

  /** Python's `str(i)` for any integer: a leading minus for negatives, then
      the decimal digits of the magnitude with no leading zero. */
  function IntToString(i: int): (s: string)
    ensures i >= 0 ==> AllDigits(s) && |s| >= 1
    ensures i < 0 ==> |s| >= 2 && s[0] == '-' && AllDigits(s[1..])
    ensures i >= 0 ==> DecimalValue(s) == i && (|s| > 1 ==> s[0] != '0')
    ensures i < 0 ==> DecimalValue(s[1..]) == -i && (|s| > 2 ==> s[1] != '0')
  {
    if i < 0 then
      var digits := NatToString(-i);
      DecimalOfNatToString(-i);
      assert ("-" + digits)[1..] == digits;
      "-" + digits
    else
      DecimalOfNatToString(i);
      NatToString(i)
  }

  /** Reading back the text `str(n)` produces gives `n`. */
  lemma {:induction false} DecimalOfNatToString(n: nat)
    ensures DecimalValue(NatToString(n)) == n
  {
    var s := NatToString(n);
    if n >= 10 {
      var prefix := NatToString(n / 10);
      assert s[..|s| - 1] == prefix;
      DecimalOfNatToString(n / 10);
    }
  }

  /** Leading zeros do not change the value: `int('007') == 7`. */
  lemma {:induction false} LeadingZeroIgnored(s: string)
    requires AllDigits(s)
    ensures AllDigits("0" + s) && DecimalValue("0" + s) == DecimalValue(s)
  {
    var t := "0" + s;
    if s != [] {
      assert t[..|t| - 1] == "0" + s[..|s| - 1];
      LeadingZeroIgnored(s[..|s| - 1]);
    }
  }
}
