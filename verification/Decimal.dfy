/** Decimal numerals, as versions and cursors print and read them. */
module Decimal {
  predicate IsDigit(c: char) {
    '0' <= c <= '9'
  }

  predicate AllDigits(s: string) {
    forall i :: 0 <= i < |s| ==> IsDigit(s[i])
  }

  function DigitChar(d: nat): char
    requires d < 10
  {
    "0123456789"[d]
  }

  function DigitValue(c: char): nat
    requires IsDigit(c)
  {
    c as nat - '0' as nat
  }

  function Print(n: nat): string {
    if n < 10 then [DigitChar(n)] else Print(n / 10) + [DigitChar(n % 10)]
  }

  function Value(s: string): nat
    requires AllDigits(s)
  {
    if s == "" then 0 else 10 * Value(s[..|s| - 1]) + DigitValue(s[|s| - 1])
  }

  lemma DigitRoundTrip(d: nat)
    requires d < 10
    ensures IsDigit(DigitChar(d)) && DigitValue(DigitChar(d)) == d
  {
  }

  /** Reading back a printed number gives the number; numerals hold digits only and are never empty. */
  lemma {:induction false} PrintRoundTrip(n: nat)
    ensures AllDigits(Print(n)) && Print(n) != "" && Value(Print(n)) == n
    decreases n
  {
    DigitRoundTrip(n % 10);
    if n < 10 {
      assert Print(n)[..0] == "";
    } else {
      PrintRoundTrip(n / 10);
      var tens := Print(n / 10);
      assert Print(n) == tens + [DigitChar(n % 10)];
      assert Print(n)[..|tens|] == tens;
      assert n == 10 * (n / 10) + n % 10;
    }
  }
}
