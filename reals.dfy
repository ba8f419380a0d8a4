/**
 * Facts about products and quotients of reals that the confidence formulas
 * need and the solver does not find on its own.
 */
module Reals {

  lemma MulSign(q: real, n: real)
    requires n > 0.0
    ensures q > 0.0 <==> q * n > 0.0
    ensures q == 0.0 <==> q * n == 0.0
  {
  }

  lemma CancelPositive(x: real, y: real, n: real)
    requires n > 0.0 && x * n == y * n
    ensures x == y
  {
    assert (x - y) * n == 0.0;
    MulSign(x - y, n);
  }

  /** Dividing by a positive number keeps the sign. */
  lemma DivSign(x: real, n: real)
    requires n > 0.0
    ensures x / n > 0.0 <==> x > 0.0
    ensures x / n == 0.0 <==> x == 0.0
  {
    var q := x / n;
    assert q * n == x;
    MulSign(q, n);
  }

  /** A quotient is at most one exactly when the numerator is at most the divisor. */
  lemma DivAtMostOne(x: real, n: real)
    requires n > 0.0
    ensures x / n <= 1.0 <==> x <= n
    ensures x / n == 1.0 <==> x == n
  {
    var q, r := x / n, (n - x) / n;
    assert q * n == x && r * n == n - x;
    assert (1.0 - q) * n == n - x;
    CancelPositive(r, 1.0 - q, n);
    DivSign(n - x, n);
  }

  /** A count over a positive total it does not exceed is a fraction in [0, 1]. */
  lemma Fraction(k: nat, n: nat)
    requires 0 < n && k <= n
    ensures 0.0 <= k as real / n as real <= 1.0
  {
    DivAtMostOne(k as real, n as real);
    DivSign(k as real, n as real);
  }

  /** Comparing two fractions by cross-multiplication. */
  lemma RatioAtLeast(k: nat, n: nat, p: nat, q: nat)
    requires n > 0 && q > 0 && k * q >= p * n
    ensures k as real / n as real >= p as real / q as real
  {
    var x, y := k as real / n as real, p as real / q as real;
    assert x * n as real == k as real;
    assert y * q as real == p as real;
    assert (k * q) as real >= (p * n) as real;
    assert x * (n * q) as real >= y * (n * q) as real;
  }

  /** The product of two numbers in [0, 1]: in [0, 1], and 1 only when both are. */
  function Product(a: real, v: real): (p: real)
    requires 0.0 <= a <= 1.0 && 0.0 <= v <= 1.0
    ensures 0.0 <= p <= 1.0
    ensures p > 0.0 ==> a > 0.0 && v > 0.0
    ensures p == 1.0 ==> a == 1.0 && v == 1.0
    ensures v == 1.0 ==> p == a
  {
    assert 0.0 <= a * v;
    assert a * v <= a;
    assert a * v <= v;
    a * v
  }
}
