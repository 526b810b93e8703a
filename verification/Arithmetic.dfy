/** Quotients and remainders. */
module Arithmetic {
  lemma MulAtLeast(n: int, d: int)
    requires n > 0 && d >= 1
    ensures n * d >= n
  {
  }

  /** Quotient and remainder are unique. */
  lemma {:induction false} QuotientUnique(n: int, q: int, r: int, q': int, r': int)
    requires n > 0 && 0 <= r < n && 0 <= r' < n && n * q + r == n * q' + r'
    ensures q == q' && r == r'
  {
    assert n * (q - q') == n * q - n * q' == r' - r;
    assert n * (q' - q) == r - r';
    if q > q' {
      MulAtLeast(n, q - q');
    } else if q < q' {
      MulAtLeast(n, q' - q);
    }
  }

  lemma DivDiv(n: nat, d: nat, p: nat)
    requires d > 0 && p > 0
    ensures n / d / p == n / (d * p)
  {
    var outer := n / d;
    Parts(n, d, outer, n % d, p, outer / p, outer % p);
  }

  lemma {:induction false} Parts(n: nat, d: nat, outer: nat, low: nat, p: nat, q: nat, r: nat)
    requires d > 0 && p > 0 && n == d * outer + low && low < d && outer == p * q + r && r < p
    ensures n / (d * p) == q
  {
    Regrouped(d, p, q, r);
    Below(d, p, r, low);
    Divides(n, d * p, q, d * r + low);
  }

  lemma {:induction false} Divides(n: int, d: int, q: int, r: int)
    requires d > 0 && 0 <= r < d && n == d * q + r
    ensures n / d == q
  {
    QuotientUnique(d, q, r, n / d, n % d);
  }

  lemma Regrouped(d: nat, p: nat, q: nat, r: nat)
    ensures d * (p * q + r) == (d * p) * q + d * r
  {
  }

  lemma Below(d: nat, p: nat, r: nat, low: nat)
    requires r < p && low < d
    ensures 0 <= d * r + low < d * p
  {
    assert d * p == d * r + d * (p - r);
    MulAtLeast(d, p - r);
  }
}
