/** Facts about products and quotients that the solver does not find by itself. */
module Arithmetic {

  lemma Times(a: nat, b: nat, c: nat)
    requires a <= b
    ensures a * c <= b * c
  {
    assert b * c == a * c + (b - a) * c;
  }

  /** A multiple of m that is smaller than m is zero. */
  lemma SmallMultiple(d: int, m: nat, e: int)
    requires d * m == e && e < m && -e < m
    ensures d == 0
  {
    assert (-d) * m == -e;
    if d >= 1 {
      Times(1, d, m);
    } else if d <= -1 {
      Times(1, -d, m);
    }
  }

  /** Quotient and remainder are determined. */
  lemma Euclidean(n: nat, q: nat, r: nat, m: nat)
    requires r < m && n == q * m + r
    ensures n / m == q && n % m == r
  {
    assert n == (n / m) * m + n % m;
    assert (n / m - q) * m == (n / m) * m - q * m;
    SmallMultiple(n / m - q, m, r - n % m);
  }
}
