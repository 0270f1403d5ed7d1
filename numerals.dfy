/**
 * Decimal digits and the decimal rendering of natural numbers, as the screens
 * use them: `i.toString()` for the day-strip ids and
 * `Math.floor(1000 + Math.random() * 9000).toString()` for one-time codes.
 */
module Numerals {

  /** The characters matched by the regular-expression class `\d`: ASCII '0'..'9'. */
  predicate IsAsciiDigit(c: char) {
    '0' <= c <= '9'
  }

  predicate AllAsciiDigits(s: string) {
    forall i :: 0 <= i < |s| ==> IsAsciiDigit(s[i])
  }

  function DigitValue(c: char): (d: nat)
    requires IsAsciiDigit(c)
    ensures d < 10
  {
    c as int - '0' as int
  }

  function DigitChar(d: nat): (c: char)
    requires d < 10
    ensures IsAsciiDigit(c) && DigitValue(c) == d
  {
    ('0' as int + d) as char
  }

  /**
   * The decimal numeral of `n` without leading zeros, which is what JavaScript's
   * `toString()` gives for a non-negative integer.
   */
  function DecimalString(n: nat): (s: string)
    ensures |s| >= 1 && AllAsciiDigits(s)
    ensures |s| > 1 ==> s[0] != '0'
    ensures n >= 1 ==> s[0] != '0'
  {
    if n < 10 then [DigitChar(n)] else DecimalString(n / 10) + [DigitChar(n % 10)]
  }

  /** The value a string of decimal digits denotes (most significant digit first). */
  function ParseDecimal(s: string): nat
    requires AllAsciiDigits(s)
  {
    if s == [] then 0 else ParseDecimal(s[..|s| - 1]) * 10 + DigitValue(s[|s| - 1])
  }

  function Pow10(k: nat): (p: nat)
    ensures p >= 1
  {
    if k == 0 then 1 else 10 * Pow10(k - 1)
  }

  /** Reading back a rendered numeral gives the number: `DecimalString` loses nothing. */
  lemma {:induction false} ParseDecimalString(n: nat)
    ensures ParseDecimal(DecimalString(n)) == n
  {
    var s := DecimalString(n);
    if n >= 10 {
      var prefix := DecimalString(n / 10);
      assert s[..|s| - 1] == prefix;
      ParseDecimalString(n / 10);
    }
  }

  /** Distinct numbers have distinct numerals. */
  lemma DecimalStringInjective(m: nat, n: nat)
    requires DecimalString(m) == DecimalString(n)
    ensures m == n
  {
    ParseDecimalString(m);
    ParseDecimalString(n);
  }

  /** A number with k+1 digits (10^k <= n < 10^(k+1)) is rendered with exactly k+1 characters. */
  lemma {:induction false} DecimalStringLength(n: nat, k: nat)
    requires Pow10(k) <= n < Pow10(k + 1)
    ensures |DecimalString(n)| == k + 1
  {
    if k > 0 {
      assert Pow10(k - 1) <= n / 10 < Pow10(k);
      DecimalStringLength(n / 10, k - 1);
    }
  }

  /**
   * A one-time code as the screens issue it: four decimal digits, the first
   * not '0' (it is the numeral of a number in [1000, 9999]).
   */
  predicate IsOtpCode(s: string) {
    |s| == 4 && AllAsciiDigits(s) && s[0] != '0'
  }

  /** Every number the code generator can draw renders as a four-digit code. */
  lemma IssuedCodeIsOtpCode(n: nat)
    requires 1000 <= n <= 9999
    ensures IsOtpCode(DecimalString(n))
    ensures ParseDecimal(DecimalString(n)) == n
  {
    assert Pow10(3) == 1000 && Pow10(4) == 10000;
    DecimalStringLength(n, 3);
    ParseDecimalString(n);
  }
}
