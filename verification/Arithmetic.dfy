/** Facts about products, quotients and powers that several modules rest on. */
module Arithmetic {

  /** A multiplication by something smaller is smaller. */
  lemma {:induction false} ProductMonotone(a: nat, b: nat, s: nat)
    requires a <= b
    ensures a * s <= b * s
  {
    assert (b - a) * s >= 0;
  }

  lemma {:induction false} CancelFactor(x: nat, a: nat, b: nat)
    requires x * a < x * b
    ensures a < b
  {
    if a >= b {
      ProductMonotone(b, a, x);
    }
  }

  lemma {:induction false} DivisionAntitone(n: nat, x: nat, y: nat)
    requires 0 < x <= y
    ensures n / y <= n / x
  {
    var (p, q) := (n / x, n / y);
    assert n < x * (p + 1);
    assert y * q <= n;
    ProductMonotone(x, y, q);
    CancelFactor(x, q, p + 1);
  }

  lemma {:induction false} QuotientIs(value: nat, divisor: nat, quotient: nat, rest: nat)
    requires rest < divisor && value == quotient * divisor + rest
    ensures value / divisor == quotient && value % divisor == rest
  {
    var (q, r) := (value / divisor, value % divisor);
    assert value == q * divisor + r;
    assert (q + 1) * divisor == q * divisor + divisor;
    assert (quotient + 1) * divisor == quotient * divisor + divisor;
    if q < quotient {
      ProductMonotone(q + 1, quotient, divisor);
    } else if quotient < q {
      ProductMonotone(quotient + 1, q, divisor);
    }
  }

  function Pow2(n: nat): (r: nat)
    ensures r > 0
  {
    if n == 0 then 1 else 2 * Pow2(n - 1)
  }

  lemma {:induction false} Pow2Grows(m: nat, n: nat)
    requires m <= n
    ensures Pow2(m) <= Pow2(n)
    decreases n
  {
    if m < n {
      Pow2Grows(m, n - 1);
    }
  }

  lemma {:induction false} Pow2Adds(m: nat, n: nat)
    ensures Pow2(m + n) == Pow2(m) * Pow2(n)
  {
    if n > 0 {
      Pow2Adds(m, n - 1);
      assert 2 * (Pow2(m) * Pow2(n - 1)) == Pow2(m) * (2 * Pow2(n - 1));
    }
  }

  function Pow256(n: nat): (r: nat)
    ensures r > 0
  {
    if n == 0 then 1 else 256 * Pow256(n - 1)
  }

  lemma {:induction false} Pow256Adds(m: nat, n: nat)
    ensures Pow256(m + n) == Pow256(m) * Pow256(n)
  {
    if n > 0 {
      Pow256Adds(m, n - 1);
      assert 256 * (Pow256(m) * Pow256(n - 1)) == Pow256(m) * (256 * Pow256(n - 1));
    }
  }
}
