/** Products, quotients and remainders. */
module Arithmetic {

  type Positive = n: nat | n > 0 witness 1

  lemma Division(n: nat, d: Positive)
    ensures n == d * (n / d) + n % d && n % d < d
  {
  }

  lemma Spread(d: int, a: int, b: int)
    ensures d * (a + b) == d * a + d * b && (a + b) * d == a * d + b * d
  {
  }

  lemma Monotone(d: nat, a: int, b: int)
    ensures a <= b ==> d * a <= d * b && a * d <= b * d
  {
    if a <= b {
      assert d * (b - a) >= 0;
      Spread(d, a, b - a);
    }
  }

  lemma Quotient(d: Positive, q: nat, r: nat)
    requires r < d
    ensures (d * q + r) / d == q && (d * q + r) % d == r
  {
    var n := d * q + r;
    var k := n / d;
    Division(n, d);
    Monotone(d, k + 1, q);
    Monotone(d, q + 1, k);
    Spread(d, k, 1);
    Spread(d, q, 1);
  }

  lemma Multiple(k: nat, d: Positive)
    ensures (k * d) % d == 0
  {
    Quotient(d, k, 0);
    assert d * k == k * d;
  }

  /** `q * d + r` determines `q` and `r`. */
  lemma Digits(d: nat, q: nat, r: nat, p: nat, t: nat)
    requires r < d && t < d && q * d + r == p * d + t
    ensures q == p && r == t
  {
    Monotone(d, q + 1, p);
    Monotone(d, p + 1, q);
    Spread(d, q, 1);
    Spread(d, p, 1);
  }

  lemma DigitsBelow(d: nat, q: nat, r: nat, n: nat)
    requires r < d && q < n
    ensures q * d + r < n * d
  {
    Monotone(d, q + 1, n);
    Spread(d, q, 1);
  }
}
