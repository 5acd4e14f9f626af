/** Whole numbers as decimal text, as the host language writes them. */
module Decimals {

  function Digit(d: nat): char
    requires d < 10
  {
    '0' + d as char
  }

  function Decimal(n: nat): string {
    if n < 10 then [Digit(n)] else Decimal(n / 10) + [Digit(n % 10)]
  }

  /** `str` of an integer. */
  function Text(n: int): string {
    if n < 0 then "-" + Decimal(-n) else Decimal(n)
  }

  predicate AllDigits(s: string) {
    forall i | 0 <= i < |s| :: '0' <= s[i] <= '9'
  }

  /** The number a string of digits stands for. */
  function Number(s: string): nat
    requires AllDigits(s)
  {
    if s == "" then 0 else 10 * Number(s[..|s| - 1]) + (s[|s| - 1] as int - '0' as int)
  }

  lemma {:induction false} DecimalDenotes(n: nat)
    ensures AllDigits(Decimal(n)) && Number(Decimal(n)) == n && Decimal(n) != ""
  {
    if n < 10 {
      assert [Digit(n)][..0] == "";
    } else {
      DecimalDenotes(n / 10);
      assert Decimal(n)[..|Decimal(n)| - 1] == Decimal(n / 10);
    }
  }

  lemma TextStart(n: int)
    ensures Text(n) != "" && (Text(n)[0] == '-' <==> n < 0)
    ensures forall i | 0 <= i < |Text(n)| :: Text(n)[i] == '-' || '0' <= Text(n)[i] <= '9'
  {
    DecimalDenotes(if n < 0 then -n else n);
  }

  lemma DecimalsDistinct(a: nat, b: nat)
    ensures Decimal(a) == Decimal(b) <==> a == b
  {
    DecimalDenotes(a);
    DecimalDenotes(b);
  }

  /** Different numbers have different texts. */
  lemma TextsDistinct(a: int, b: int)
    ensures Text(a) == Text(b) <==> a == b
  {
    TextStart(a);
    TextStart(b);
    if a < 0 && b < 0 {
      assert Text(a)[1..] == Decimal(-a) && Text(b)[1..] == Decimal(-b);
      DecimalsDistinct(-a, -b);
    } else if a >= 0 && b >= 0 {
      DecimalsDistinct(a, b);
    }
  }
}
