/** Decimal numerals of natural numbers. */
module Decimal {

  predicate IsDigit(c: char) {
    '0' <= c <= '9'
  }

  predicate AllDigits(w: string) {
    |w| > 0 && forall i :: 0 <= i < |w| ==> IsDigit(w[i])
  }

  function DigitOf(c: char): nat
    requires IsDigit(c)
  {
    c as int - '0' as int
  }

  /** The value of a numeral, leading zeros allowed. */
  function Value(w: string): nat
    requires forall i :: 0 <= i < |w| ==> IsDigit(w[i])
  {
    if w == "" then 0 else 10 * Value(w[..|w| - 1]) + DigitOf(w[|w| - 1])
  }

  /** The shortest numeral of a number. */
  function Numeral(n: nat): string {
    (if n < 10 then "" else Numeral(n / 10)) + [('0' as int + n % 10) as char]
  }

  /** Reading a written numeral gives the number back. */
  lemma {:induction false} NumeralReadsBack(n: nat)
    ensures AllDigits(Numeral(n))
    ensures Value(Numeral(n)) == n
  {
    var w := Numeral(n);
    if n >= 10 {
      NumeralReadsBack(n / 10);
      assert w[..|w| - 1] == Numeral(n / 10);
    } else {
      assert w[..|w| - 1] == "";
    }
  }
}
