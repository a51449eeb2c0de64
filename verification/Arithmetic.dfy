/** Products and quotients of natural numbers. */
module Arithmetic {

  lemma Scaled(a: nat, b: nat, d: nat)
    requires a <= b
    ensures a * d <= b * d
  {
    assert (b - a) * d >= 0;
  }

  lemma QuotientBounds(x: nat, d: nat)
    requires d > 0
    ensures x / d * d <= x < (x / d + 1) * d
  {
    assert x == x / d * d + x % d;
  }

  lemma QuotientIs(x: nat, d: nat, q: nat)
    requires d > 0 && q * d <= x < (q + 1) * d
    ensures x / d == q
  {
    var p := x / d;
    QuotientBounds(x, d);
    if p < q { Scaled(p + 1, q, d); }
    if q < p { Scaled(q + 1, p, d); }
  }

  /** Adding at least the divisor raises the quotient. */
  lemma QuotientRises(x: nat, a: nat, d: nat)
    requires d > 0 && a >= d
    ensures x / d < (x + a) / d
  {
    var q, p := x / d, (x + a) / d;
    QuotientBounds(x, d);
    QuotientBounds(x + a, d);
    assert (q + 1) * d == q * d + d;
    if p < q + 1 { Scaled(p + 1, q + 1, d); }
  }

  lemma QuotientWithin(index: nat, a: nat, d: nat)
    requires index <= d && d > 0
    ensures index * a / d <= a
  {
    var p := index * a / d;
    QuotientBounds(index * a, d);
    Scaled(index, d, a);
    assert d * a == a * d && (a + 1) * d == a * d + d;
    if p > a { Scaled(a + 1, p, d); }
  }
}
