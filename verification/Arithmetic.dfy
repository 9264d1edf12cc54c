/** The few nonlinear facts the proofs lean on. */
module Arithmetic {

  lemma MulMono(a: int, b: int, c: int)
    requires a <= b && c >= 0
    ensures a * c <= b * c && c * a <= c * b
  {
  }

  lemma Distribute(a: int, x: int, y: int)
    ensures a * (x + y) == a * x + a * y && (x + y) * a == x * a + y * a
  {
  }

  /** A quotient is pinned down by the multiples around the dividend. */
  lemma DivUnique(a: int, p: int, q: int)
    requires p >= 1 && q * p <= a < q * p + p
    ensures a / p == q
  {
    var d := a / p;
    assert d * p <= a < d * p + p;
    Distribute(p, d, 1);
    Distribute(p, q, 1);
    if d < q {
      MulMono(d + 1, q, p);
    } else if q < d {
      MulMono(q + 1, d, p);
    }
  }

  lemma DivBounds(a: int, p: int)
    requires p >= 1
    ensures a / p * p <= a < a / p * p + p
  {
  }

  lemma MultipleHasNoRemainder(q: int, p: int)
    requires p >= 1
    ensures q * p % p == 0
  {
    DivUnique(q * p, p, q);
  }

  /** Multiples of `p` are at least `p` apart. */
  lemma MultiplesApart(a: int, b: int, p: int)
    requires p >= 1 && a % p == 0 && b % p == 0 && a < b
    ensures a + p <= b
  {
    var i, j := a / p, b / p;
    assert a == i * p && b == j * p;
    if j <= i {
      MulMono(j, i, p);
    }
    MulMono(i + 1, j, p);
    Distribute(p, i, 1);
  }
}
