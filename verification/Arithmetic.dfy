/** The few facts about products and quotients that the limiters need. */
module Arithmetic {

  lemma Scale(a: int, b: int, l: nat)
    requires a <= b
    ensures a * l <= b * l
  {}

  lemma QuotientAtLeast(a: int, l: int, r: int)
    requires l >= 1 && a >= r * l
    ensures a / l >= r
  {
    var q := a / l;
    if q <= r - 1 {
      Scale(q, r - 1, l);
    }
  }

  lemma QuotientMonotone(a: int, b: int, l: int)
    requires l >= 1 && a <= b
    ensures a / l <= b / l
  {
    QuotientAtLeast(b, l, a / l);
  }

  lemma QuotientBelow(a: int, l: int, r: int)
    requires l >= 1 && a < r * l
    ensures a / l < r
  {
    if a / l >= r {
      Scale(r, a / l, l);
    }
  }

  lemma QuotientIs(a: int, l: int, r: int)
    requires l >= 1 && r * l <= a < r * l + l
    ensures a / l == r
  {
    QuotientAtLeast(a, l, r);
    OneMore(r, l);
    QuotientBelow(a, l, r + 1);
  }

  lemma QuotientShift(d: int, l: int, x: int)
    requires l >= 1
    ensures (x * l + d) / l == x + d / l
  {
    QuotientEnds(d, l);
    var q := d / l;
    assert (x + q) * l == x * l + q * l;
    QuotientIs(x * l + d, l, x + q);
  }

  lemma QuotientEnds(a: int, l: int)
    requires l >= 1
    ensures a / l * l <= a < a / l * l + l
  {}

  /** Rounding down both ends of a span lengthens it by less than one. */
  lemma QuotientSpan(a: int, b: int, l: int)
    requires l >= 1
    ensures b / l - a / l <= (b - a) / l + 1
  {
    var p, q := a / l, b / l;
    assert (q - p - 1) * l == q * l - p * l - l;
    QuotientAtLeast(b - a, l, q - p - 1);
  }

  lemma OneMore(a: int, l: int)
    ensures (a + 1) * l == a * l + l
  {}

  lemma OneMoreFits(a: int, b: int, l: nat)
    requires a < b
    ensures a * l + l <= b * l
  {
    Scale(a + 1, b, l);
    OneMore(a, l);
  }

  /** `d` times `n`, by repeated addition. */
  function Times(d: nat, n: nat): nat { if d == 0 then 0 else Times(d - 1, n) + n }

  lemma {:induction false} TimesIsProduct(d: nat, n: nat)
    ensures Times(d, n) == d * n
  {
    if d > 0 {
      TimesIsProduct(d - 1, n);
      assert d * n == (d - 1) * n + n;
    }
  }
}
