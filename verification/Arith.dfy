/** Products, quotients and powers of two */
module Arith {
  function Pow2(k: nat): (r: nat)
    ensures r > 0
  {
    if k == 0 then 1 else 2 * Pow2(k - 1)
  }

  lemma {:induction false} Pow2Add(j: nat, k: nat)
    ensures Pow2(j) * Pow2(k) == Pow2(j + k)
    decreases j
  {
    if j > 0 {
      Pow2Add(j - 1, k);
      Product3(2, Pow2(j - 1), Pow2(k));
    }
  }

  lemma {:induction false} Pow2Monotone(j: nat, k: nat)
    requires j <= k
    ensures Pow2(j) <= Pow2(k)
    decreases k - j
  {
    if j < k { Pow2Monotone(j + 1, k); }
  }

  lemma Product3(a: int, b: int, c: int)
    ensures a * b * c == a * (b * c)
  {
  }

  lemma Distribute(a: int, b: int, c: int)
    ensures a * (b + c) == a * b + a * c && a * (b - c) == a * b - a * c
  {
  }

  lemma Commute(a: int, b: int)
    ensures a * b == b * a
  {
  }

  /** Multiplication keeps the order, also strictly. */
  lemma ProductOrder(c: nat, a: int, b: int)
    requires a <= b
    ensures c * a <= c * b && (a < b && c > 0 ==> c * a + c <= c * b)
  {
    Distribute(c, b, a);
    ProductSign(c, b - a);
    if a < b {
      Distribute(c, b - a, 1);
      ProductSign(c, b - a - 1);
    }
  }

  lemma ProductSign(c: nat, d: nat)
    ensures c * d >= 0
  {
  }

  lemma ProductBelow(a: nat, b: nat, c: nat, d: nat)
    requires a < c && b < d
    ensures a * b < c * d
  {
    ProductOrder(a, b, d);
    ProductOrder(d, a, c);
    Commute(a, d);
    Commute(c, d);
  }

  lemma Quotient(m: nat, d: nat)
    requires d > 0
    ensures m == d * (m / d) + m % d && m % d < d && m / d >= 0
  {
  }

  lemma QuotientIs(m: nat, d: nat, q: nat, r: nat)
    requires d > 0 && m == d * q + r && r < d
    ensures m / d == q
  {
    Quotient(m, d);
    var e := m / d;
    if e < q {
      ProductOrder(d, e, q);
      assert false;
    }
    if q < e {
      ProductOrder(d, q, e);
      assert false;
    }
  }

  lemma QuotientMonotone(x: nat, y: nat, d: nat)
    requires d > 0 && x <= y
    ensures x / d <= y / d
  {
    Quotient(x, d);
    Quotient(y, d);
    if y / d < x / d {
      ProductOrder(d, y / d, x / d);
      assert false;
    }
  }

  lemma HalfQuotient(m: nat, p: nat)
    requires p > 0
    ensures m / p / 2 == m / (2 * p)
  {
    Quotient(m, p);
    var q, r := m / p, m % p;
    var h, b := q / 2, q % 2;
    HalfParts(p, h, b);
    QuotientIs(m, 2 * p, h, p * b + r);
  }

  lemma HalfParts(p: nat, h: nat, b: nat)
    requires b <= 1
    ensures p * (2 * h + b) == (2 * p) * h + p * b && p * b <= p
  {
    Distribute(p, 2 * h, b);
    Product3(p, 2, h);
    if b == 0 { assert p * b == 0; } else { assert p * b == p; }
  }

  lemma QuotientIsZero(m: nat, p: nat)
    requires p > 0
    ensures m / p == 0 <==> m < p
  {
    Quotient(m, p);
    if m / p > 0 { ProductOrder(p, 0, m / p); }
  }
}
