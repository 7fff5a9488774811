/** `Math.round(n / d)` on exact rationals: the floor of `n / d + 1/2`. */
module Rounding {

  function RoundDiv(n: int, d: int): (r: int)
    requires d > 0
    ensures -d < 2 * (d * r - n) <= d
  {
    var r := (2 * n + d) / (2 * d);
    assert 2 * n + d == 2 * d * r + (2 * n + d) % (2 * d);
    r
  }

  lemma MulStep(d: int, q: int, r: int)
    requires d > 0 && q < r
    ensures d * q + d <= d * r
  {
    var k := r - q - 1;
    assert d * k >= 0;
    assert d * r == d * q + d + d * k;
  }

  /** The bounds name one integer only. */
  lemma RoundDivUnique(n: int, d: int, r: int)
    requires d > 0 && -d < 2 * (d * r - n) <= d
    ensures RoundDiv(n, d) == r
  {
    hide RoundDiv;
    var q := RoundDiv(n, d);
    if q < r {
      MulStep(d, q, r);
    } else if q > r {
      MulStep(d, r, q);
    }
  }

  lemma RoundDivMonotone(n: int, k: int, d: int)
    requires d > 0 && n <= k
    ensures RoundDiv(n, d) <= RoundDiv(k, d)
  {
    hide RoundDiv;
    if RoundDiv(k, d) < RoundDiv(n, d) {
      MulStep(d, RoundDiv(k, d), RoundDiv(n, d));
    }
  }

  /** A whole number is not moved. */
  lemma RoundDivExact(n: int, d: int)
    requires d > 0
    ensures RoundDiv(d * n, d) == n
  {
    RoundDivUnique(d * n, d, n);
  }
}
