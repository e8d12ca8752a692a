/** Printing naturals in decimal. */
module Decimals {
  function Digit(d: nat): char
    requires d < 10
  {
    ('0' as int + d) as char
  }

  /** Integer.toString on the naturals. */
  function Decimal(n: nat): string {
    if n < 10 then [Digit(n)] else Decimal(n / 10) + [Digit(n % 10)]
  }

  function Value(s: string): int {
    if s == [] then 0 else 10 * Value(s[..|s| - 1]) + (s[|s| - 1] as int - '0' as int)
  }

  /** Printing can be undone, so different numbers print differently. */
  lemma {:induction false} DecimalInverse(n: nat)
    ensures Value(Decimal(n)) == n
  {
    if n >= 10 {
      DecimalInverse(n / 10);
      assert Decimal(n)[..|Decimal(n)| - 1] == Decimal(n / 10);
    }
  }
}
