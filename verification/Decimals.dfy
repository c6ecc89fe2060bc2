/** Decimal printing, as fmt.Sprintf("%d", n) and strconv.Itoa do it. */
module Decimals {

  function Digit(d: nat): char
    requires d < 10
  {
    ('0' as int + d) as char
  }

  function DecimalNat(n: nat): string
  {
    if n < 10 then [Digit(n)] else DecimalNat(n / 10) + [Digit(n % 10)]
  }

  function Decimal(n: int): string
  {
    if n < 0 then ['-'] + DecimalNat(-n) else DecimalNat(n)
  }

  /** Reads a digit string back; the inverse of DecimalNat. */
  function ParseNat(s: string): int
  {
    if s == [] then 0
    else ParseNat(s[..|s| - 1]) * 10 + (s[|s| - 1] as int - '0' as int)
  }

  lemma {:induction false} ParseDecimalNat(n: nat)
    ensures ParseNat(DecimalNat(n)) == n
    ensures |DecimalNat(n)| > 0
    ensures forall i :: 0 <= i < |DecimalNat(n)| ==> '0' <= DecimalNat(n)[i] <= '9'
  {
    if n >= 10 {
      ParseDecimalNat(n / 10);
      var s := DecimalNat(n);
      assert s[..|s| - 1] == DecimalNat(n / 10);
    } else {
      assert DecimalNat(n)[..0] == [];
    }
  }

  /** Distinct sequence numbers print differently. */
  lemma DecimalInjective(a: int, b: int)
    ensures Decimal(a) == Decimal(b) <==> a == b
  {
    ParseDecimalNat(if a < 0 then -a else a);
    ParseDecimalNat(if b < 0 then -b else b);
    if a < 0 && b < 0 {
      assert DecimalNat(-a) == Decimal(a)[1..] && DecimalNat(-b) == Decimal(b)[1..];
    }
    assert Decimal(a)[0] == '-' <==> a < 0;
    assert Decimal(b)[0] == '-' <==> b < 0;
  }
}
