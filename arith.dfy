/** Small facts of integer arithmetic the back-off proofs rest on. */
module Arith {

  lemma MulLe(k: int, a: int, b: int)
    requires k >= 0 && a <= b
    ensures k * a <= k * b
  {
    var diff := b - a;
    assert k * b == k * a + k * diff;
  }

  lemma Distrib(k: int, a: int, b: int)
    ensures k * (a + b) == k * a + k * b
  {
  }

  lemma CancelLe(m: int, a: int, b: int)
    requires m > 0 && m * a <= m * b
    ensures a <= b
  {
    if a > b {
      MulLe(m, b + 1, a);
      Distrib(m, b, 1);
    }
  }

  lemma DivMonotone(a: int, b: int, m: int)
    requires 0 <= a <= b && m > 0
    ensures a / m <= b / m
  {
    var qa, ra := a / m, a % m;
    var qb, rb := b / m, b % m;
    assert a == m * qa + ra && 0 <= ra < m;
    assert b == m * qb + rb && 0 <= rb < m;
    if qa > qb {
      MulLe(m, qb + 1, qa);
    }
  }

  lemma SquareLe(n: int, m: int)
    requires 0 <= n <= m
    ensures n * (n + 1) <= m * (m + 1)
  {
    MulLe(n, n + 1, m + 1);
    MulLe(m + 1, n, m);
    assert n * (m + 1) == (m + 1) * n;
    assert (m + 1) * m == m * (m + 1);
  }

  /** One more term in the weighted sum keeps it under the triangle bound. */
  lemma TriangleStep(d: int, m: int, n: int, t: int, dl: int)
    requires n >= 1
    requires 2 * (m * t) <= d * ((n - 1) * n)
    requires m * dl <= d * n
    ensures 2 * (m * (t + dl)) <= d * (n * (n + 1))
  {
    Distrib(m, t, dl);
    assert n * (n + 1) == (n - 1) * n + 2 * n by {
      Distrib(n, n - 1, 2);
      assert n * (n - 1) == (n - 1) * n;
    }
    Distrib(d, (n - 1) * n, 2 * n);
    assert d * (2 * n) == 2 * (d * n);
  }

  /** From M·2t <= D·n(n+1) with n <= M, conclude 2t <= D·(M+1). */
  lemma TriangleUnweighted(d: int, m: int, n: int, t: int)
    requires d >= 0 && m > 0 && 0 <= n <= m
    requires 2 * (m * t) <= d * (n * (n + 1))
    ensures 2 * t <= d * (m + 1)
  {
    SquareLe(n, m);
    MulLe(d, n * (n + 1), m * (m + 1));
    var x := d * (m + 1);
    assert d * (m * (m + 1)) == m * x;
    assert m * (2 * t) == 2 * (m * t);
    CancelLe(m, 2 * t, x);
  }
}
