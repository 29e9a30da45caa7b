/** Products and quotients of naturals. */
module Arithmetic {
  lemma Spread(a: nat, x: nat, y: nat)
    ensures a * (x + y) == a * x + a * y
  {
  }

  lemma Regroup(a: nat, x: nat, y: nat)
    ensures a * (x * y) == (a * x) * y
  {
  }

  lemma {:induction false} AtLeast(a: nat, k: nat)
    requires k >= 1
    ensures a * k >= a && k * a >= a
  {
    if k > 1 {
      AtLeast(a, k - 1);
      Spread(a, k - 1, 1);
    }
  }

  lemma Apart(d: nat, a: nat, b: nat)
    requires a > b
    ensures d * a >= d * b + d
  {
    Spread(d, b, a - b);
    AtLeast(d, a - b);
  }

  lemma Quotient(n: nat, d: nat, q: nat, r: nat)
    requires n == d * q + r && r < d
    ensures n / d == q && n % d == r
  {
    var (q1, r1) := (n / d, n % d);
    assert n == d * q1 + r1;
    if q1 > q {
      Apart(d, q1, q);
    } else if q > q1 {
      Apart(d, q, q1);
    }
  }
}
