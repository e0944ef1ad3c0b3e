/** Facts of non-linear arithmetic that the solver does not find by itself. */
module Arithmetic {
  lemma MulMono(a: nat, b: nat, d: nat)
    requires a <= b
    ensures a * d <= b * d
  {
  }

  /** Division brackets its dividend. */
  lemma DivBounds(n: nat, d: nat, q: nat)
    requires d > 0
    ensures q * d <= n ==> q <= n / d
    ensures n <= q * d ==> n / d <= q
    ensures n < q * d ==> n / d < q
  {
    var r := n / d;
    assert r * d <= n < (r + 1) * d by {
      assert n == r * d + n % d;
    }
    if r + 1 <= q {
      MulMono(r + 1, q, d);
    } else {
      MulMono(q, r, d);
      if q + 1 <= r {
        MulMono(q + 1, r, d);
        assert (q + 1) * d == q * d + d;
      }
    }
  }

  lemma DivAtMost(n: nat, d: nat)
    requires d > 0
    ensures n / d <= n
  {
    MulMono(1, d, n);
    DivBounds(n, d, n);
  }

  lemma DivMono(a: nat, b: nat, d: nat)
    requires a <= b && d > 0
    ensures a / d <= b / d
  {
    assert a / d * d <= a by {
      assert a == a / d * d + a % d;
    }
    DivBounds(b, d, a / d);
  }

  /** A larger divisor gives no larger quotient. */
  lemma DivAntitone(n: nat, d: nat, d': nat)
    requires 0 < d <= d'
    ensures n / d' <= n / d
  {
    var q := n / d';
    assert q * d' <= n by {
      assert n == q * d' + n % d';
    }
    MulMono(d, d', q);
    DivBounds(n, d, q);
  }

  lemma SmallQuotient(n: nat, d: nat)
    requires d > 0
    ensures n / d == 0 <==> n < d
  {
    DivBounds(n, d, 1);
  }

  lemma ProductBound(a: nat, b: nat, hiA: nat, hiB: nat)
    requires 0 < a <= hiA && 0 < b <= hiB
    ensures 0 < a * b <= hiA * hiB
  {
    MulMono(a, hiA, b);
    MulMono(b, hiB, hiA);
  }

  lemma ModSmall(x: nat, m: nat)
    requires x < m
    ensures x % m == x
  {
  }

  /** A quotient is what its dividend and divisor say. */
  lemma QuotientIs(n: nat, d: nat)
    requires d > 0
    ensures n / d * d <= n < (n / d + 1) * d
  {
    assert n == n / d * d + n % d;
  }
}
