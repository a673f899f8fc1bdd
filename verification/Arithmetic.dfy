/** Integer ceilings and decimal numerals. */
module Arithmetic {

  /** `math.ceil(a / b)`: the least number of groups of `b` that cover `a`. */
  function CeilDiv(a: nat, b: nat): (r: nat)
    requires 0 < b
    ensures a <= r * b
    ensures forall s: nat :: a <= s * b ==> r <= s
  {
    CeilDivIsLeast(a, b);
    (a + b - 1) / b
  }

  lemma CeilDivIsLeast(a: nat, b: nat)
    requires 0 < b
    ensures a <= ((a + b - 1) / b) * b
    ensures forall s: nat :: a <= s * b ==> (a + b - 1) / b <= s
  {
    var r := (a + b - 1) / b;
    assert a + b - 1 == b * r + (a + b - 1) % b;
    forall s: nat | a <= s * b
      ensures r <= s
    {
      if s < r { MulMonotone(s + 1, r, b); }
    }
  }

  lemma MulMonotone(x: nat, y: nat, b: nat)
    requires x <= y
    ensures x * b <= y * b
  {
  }

  function Min(a: int, b: int): int { if a <= b then a else b }

  function Max(a: int, b: int): int { if a >= b then a else b }

  function Digit(d: nat): char
    requires d < 10
  {
    ('0' as int + d) as char
  }

  /** `str(n)`. */
  function Decimal(n: nat): (s: string)
    ensures s != [] && '0' <= s[|s| - 1] <= '9'
  {
    if n < 10 then [Digit(n)] else Decimal(n / 10) + [Digit(n % 10)]
  }

  function Value(s: string): int {
    if s == [] then 0 else 10 * Value(s[..|s| - 1]) + (s[|s| - 1] as int - '0' as int)
  }

  lemma {:induction false} DecimalRoundTrip(n: nat)
    ensures Value(Decimal(n)) == n
  {
    if n < 10 {
      assert Value([Digit(n)][..0]) == 0;
    } else {
      DecimalRoundTrip(n / 10);
      assert (Decimal(n / 10) + [Digit(n % 10)])[..|Decimal(n / 10)|] == Decimal(n / 10);
    }
  }

  /** Numbered names with the same prefix differ when their numbers do. */
  lemma NumberedNamesDiffer(prefix: string, m: nat, n: nat, suffix: string := "")
    requires m != n
    ensures prefix + Decimal(m) + suffix != prefix + Decimal(n) + suffix
  {
    DecimalRoundTrip(m);
    DecimalRoundTrip(n);
    var a, b := prefix + Decimal(m) + suffix, prefix + Decimal(n) + suffix;
    assert a[|prefix|..|prefix + Decimal(m)|] == Decimal(m);
    assert b[|prefix|..|prefix + Decimal(n)|] == Decimal(n);
  }
}
