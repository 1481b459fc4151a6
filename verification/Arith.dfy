// Facts of nonlinear arithmetic that several modules lean on.

module Arith {

  lemma Mono(a: nat, b: nat, d: nat)
    ensures a <= b ==> a * d <= b * d
  {
  }

  /** Whatever lies between v * d and (v + 1) * d has the quotient v. */
  lemma QuotientIs(u: nat, d: nat, v: nat)
    requires d >= 1 && v * d <= u < v * d + d
    ensures u / d == v
  {
    var q := u / d;
    assert q * d <= u < q * d + d;
    Mono(q + 1, v, d);
    Mono(v + 1, q, d);
    assert (q + 1) * d == q * d + d && (v + 1) * d == v * d + d;
  }

  lemma Rounds(n: nat, p: nat)
    requires p >= 1
    ensures n < p ==> n / p == 0
    ensures n >= p ==> n / p == 1 + (n - p) / p
  {
    if n >= p {
      var q := (n - p) / p;
      assert q * p <= n - p < q * p + p;
      assert (q + 1) * p == q * p + p;
      QuotientIs(n, p, q + 1);
    } else {
      QuotientIs(n, p, 0);
    }
  }
}
