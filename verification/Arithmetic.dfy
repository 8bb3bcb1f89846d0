/** Facts about products and quotients that the solver is not left to find. */
module Arithmetic {

  lemma {:induction false} AtLeastOnce(n: nat, p: nat)
    requires n > 0
    ensures n * p >= p
  {
    if n > 1 {
      AtLeastOnce(n - 1, p);
      assert n * p == (n - 1) * p + p;
    }
  }

  /** The multiples of `m` are at least `m` apart. */
  lemma {:induction false} LaterBlock(i: nat, j: nat, m: nat)
    requires i < j
    ensures i * m + m <= j * m
  {
    AtLeastOnce(j - i, m);
    assert j * m == i * m + (j - i) * m;
  }

  lemma {:induction false} DivUnique(n: nat, c: nat, q: nat, r: nat)
    requires c > 0 && r < c && n == q * c + r
    ensures n / c == q
  {
    var d := n / c;
    assert n == d * c + n % c;
    if d < q {
      LaterBlock(d, q, c);
    } else if q < d {
      LaterBlock(q, d, c);
    }
  }

  lemma {:induction false} QuotientDrops(p: nat, c: nat)
    requires p >= c > 0
    ensures (p - c) / c == p / c - 1
  {
    var q, r := p / c, p % c;
    assert p == q * c + r;
    if q > 0 {
      assert (q - 1) * c == q * c - c;
      DivUnique(p - c, c, q - 1, r);
    }
  }
}
