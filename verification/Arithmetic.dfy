/** Powers of two and quotients, shared by the modules that shift and mask. */
module Arithmetic {

  function Pow2(k: nat): (r: nat)
    ensures r >= 1
  {
    if k == 0 then 1 else 2 * Pow2(k - 1)
  }

  lemma Pow2Monotone(a: nat, b: nat)
    requires a <= b
    ensures Pow2(a) <= Pow2(b)
    decreases b
  {
    if a < b { Pow2Monotone(a, b - 1); }
  }

  lemma MulMonotone(d: nat, a: int, b: int)
    ensures a <= b ==> d * a <= d * b
  {
    assert a <= b ==> d * (b - a) >= 0;
    assert d * (b - a) == d * b - d * a;
  }

  lemma DivMod(x: nat, d: nat)
    requires d >= 1
    ensures x == d * (x / d) + x % d && 0 <= x % d < d && x / d >= 0
  {
    var q := x / d;
    assert x == d * q + x % d;
    MulMonotone(d, q, -1);
  }

  /** Two quotients with remainders of the same number by the same divisor are one. */
  lemma QuotientUnique(d: nat, p: int, q: int, r: int, t: int)
    requires d >= 1 && d * p + r == d * q + t && 0 <= r < d && 0 <= t < d
    ensures p == q && r == t
  {
    MulMonotone(d, p + 1, q);
    MulMonotone(d, q + 1, p);
    assert d * (p + 1) == d * p + d;
    assert d * (q + 1) == d * q + d;
  }

  lemma QuotientIs(x: nat, d: nat, q: nat, r: nat)
    requires d >= 1 && x == d * q + r && r < d
    ensures x / d == q && x % d == r
  {
    DivMod(x, d);
    QuotientUnique(d, x / d, q, x % d, r);
  }

  lemma Rearrange(a: nat, b: nat, r: nat, m: nat)
    ensures a * (b * r + m) == (a * b) * r + a * m
  {}

  lemma RemainderBound(a: nat, b: nat, m: nat, n: nat)
    requires m < b && n < a
    ensures a * m + n < a * b
  {
    MulMonotone(a, m + 1, b);
    assert a * (m + 1) == a * m + a;
  }

  lemma NestedQuotient(x: nat, a: nat, b: nat, q: nat, n: nat, r: nat, m: nat)
    requires x == a * q + n && n < a && q == b * r + m && m < b
    ensures x == (a * b) * r + (a * m + n) && a * m + n < a * b
  {
    Rearrange(a, b, r, m);
    RemainderBound(a, b, m, n);
  }

  lemma DivDiv(x: nat, a: nat, b: nat)
    requires a >= 1 && b >= 1
    ensures a * b >= 1
    ensures x / a / b == x / (a * b)
  {
    DivMod(x, a);
    DivMod(x / a, b);
    var q: nat, n: nat := x / a, x % a;
    var r: nat, m: nat := q / b, q % b;
    NestedQuotient(x, a, b, q, n, r, m);
    QuotientIs(x, a * b, r, a * m + n);
  }
}
