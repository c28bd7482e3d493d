/**
 * Base-10 rendering of unsigned integers (the behaviour of Go's
 * `strconv.FormatUint(x, 10)` that the trade rows rely on), with the parser
 * that inverts it.
 */
module Decimal {

  predicate IsDigit(c: char) {
    '0' <= c <= '9'
  }

  predicate AllDigits(s: string) {
    forall i | 0 <= i < |s| :: IsDigit(s[i])
  }

  function DigitChar(d: nat): (c: char)
    requires d < 10
    ensures IsDigit(c) && c as int - '0' as int == d
  {
    ('0' as int + d) as char
  }

  /** Shortest base-10 numeral of `n`: no sign, no leading zero. */
  function DecimalString(n: nat): string
    decreases n
  {
    if n < 10 then [DigitChar(n)] else DecimalString(n / 10) + [DigitChar(n % 10)]
  }

  /** The value of a numeral made of digits only (the empty numeral reads as 0). */
  function ParseDecimal(s: string): nat
    requires AllDigits(s)
    decreases |s|
  {
    if s == [] then 0
    else ParseDecimal(s[..|s| - 1]) * 10 + (s[|s| - 1] as int - '0' as int)
  }

  /** A rendered number is a non-empty string of digits, with a leading zero only for 0 itself. */
  lemma {:induction false} DecimalStringShape(n: nat)
    ensures var s := DecimalString(n);
      1 <= |s| && AllDigits(s) && (s[0] == '0' ==> n == 0 && s == "0")
    decreases n
  {
    if n >= 10 {
      DecimalStringShape(n / 10);
      var s := DecimalString(n / 10);
      assert DecimalString(n)[0] == s[0];
    }
  }

  /** Reading back a rendered number gives the number. */
  lemma {:induction false} ParseDecimalString(n: nat)
    ensures AllDigits(DecimalString(n)) && ParseDecimal(DecimalString(n)) == n
    decreases n
  {
    DecimalStringShape(n);
    if n >= 10 {
      var s := DecimalString(n / 10);
      ParseDecimalString(n / 10);
      assert (s + [DigitChar(n % 10)])[..|s|] == s;
    }
  }

  /** Distinct numbers render as distinct strings. */
  lemma DecimalStringInjective(m: nat, n: nat)
    requires DecimalString(m) == DecimalString(n)
    ensures m == n
  {
    ParseDecimalString(m);
    ParseDecimalString(n);
  }
}
