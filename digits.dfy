/** Decimal digits, as `\d` and `strftime` see them (ASCII 0-9). */
module Digits {

  predicate IsDigit(c: char) { '0' <= c <= '9' }

  predicate AllDigits(t: string) {
    forall k :: 0 <= k < |t| ==> IsDigit(t[k])
  }
}
