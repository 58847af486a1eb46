/**
 Python's round() on a quotient of integers: to the nearest integer, ties to even.
 */
module Rounding {

  function RoundHalfEven(n: nat, d: nat): nat
    requires d > 0
  {
    var q, r := n / d, n % d;
    if 2 * r < d then q else if 2 * r > d then q + 1 else if q % 2 == 0 then q else q + 1
  }

  /** The result is a nearest integer. */
  lemma RoundIsNearest(n: nat, d: nat)
    requires d > 0
    ensures 0 - d <= 2 * (n - d * RoundHalfEven(n, d)) <= d
  {
    var q, r := n / d, n % d;
    assert n == d * q + r;
    assert d * (q + 1) == d * q + d;
  }

  /** Exactly: the nearest integer, and of two that are as near the even one. */
  lemma RoundExactly(n: nat, d: nat, q: nat)
    requires d > 0
    ensures RoundHalfEven(n, d) == q <==>
            && 0 - d <= 2 * (n - d * q) <= d
            && (2 * (n - d * q) == d || 2 * (n - d * q) == 0 - d ==> q % 2 == 0)
  {
    var k, r := n / d, n % d;
    assert n == d * k + r;
    assert d * (k + 1) == d * k + d;
    if q < k {
      Scaled(q, k, d);
    } else if q > k + 1 {
      Scaled(k + 1, q, d);
    }
  }

  lemma Scaled(a: int, b: int, d: int)
    requires d > 0 && a < b
    ensures d * a + d <= d * b
  {
    ProductOfNaturals(d, b - a - 1);
    assert d * b == d * a + d + d * (b - a - 1);
  }

  lemma {:induction false} ProductOfNaturals(x: nat, y: nat)
    ensures x * y >= 0
  {
    if y > 0 {
      ProductOfNaturals(x, y - 1);
      assert x * y == x * (y - 1) + x;
    }
  }

  lemma RoundMonotone(n: nat, m: nat, d: nat)
    requires d > 0 && n <= m
    ensures RoundHalfEven(n, d) <= RoundHalfEven(m, d)
  {
    var a, b := RoundHalfEven(n, d), RoundHalfEven(m, d);
    // were the order turned round, both values would sit exactly half way, and be equal
    if b < a && n < m {
      RoundIsNearest(n, d);
      RoundIsNearest(m, d);
      Scaled(b, a, d);
    }
  }

  /** Quotients more than one apart round to different integers. */
  lemma RoundStrict(n: nat, m: nat, d: nat)
    requires d > 0 && m - n > d
    ensures RoundHalfEven(n, d) < RoundHalfEven(m, d)
  {
    RoundMonotone(n, m, d);
    var a, b := RoundHalfEven(n, d), RoundHalfEven(m, d);
    if a == b {
      RoundIsNearest(n, d);
      RoundIsNearest(m, d);
    }
  }

  lemma RoundExact(q: nat, d: nat)
    requires d > 0
    ensures RoundHalfEven(q * d, d) == q
  {
    RoundIsNearest(q * d, d);
    var a := RoundHalfEven(q * d, d);
    if a < q {
      Scaled(a, q, d);
    } else if q < a {
      Scaled(q, a, d);
    }
  }
}
