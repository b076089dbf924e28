/** Natural numbers written in decimal, and read back. */
module Decimals {
  function Digit(d: nat): (c: char)
    requires d < 10
    ensures '0' <= c <= '9'
  {
    '0' + d as char
  }

  function Decimal(n: nat): string {
    if n < 10 then [Digit(n)] else Decimal(n / 10) + [Digit(n % 10)]
  }

  function Val(s: string): int {
    if s == [] then 0 else Val(s[..|s| - 1]) * 10 + (s[|s| - 1] as int - '0' as int)
  }

  lemma {:induction false} DecimalReadsBack(n: nat)
    ensures Decimal(n) != [] && (forall c :: c in Decimal(n) ==> '0' <= c <= '9') && Val(Decimal(n)) == n
  {
    if n < 10 {
      assert Val([Digit(n)]) == Val([Digit(n)][..0]) * 10 + n;
    } else {
      DecimalReadsBack(n / 10);
      assert Decimal(n)[..|Decimal(n)| - 1] == Decimal(n / 10);
    }
  }
}
