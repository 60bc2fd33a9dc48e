/** `Math.round` and the rounded percentages the charts and metrics display,
    computed on exact reals. */
module Rounding {

  /** `Math.round(x)`: the nearest integer, halves rounded up. */
  function Round(x: real): (r: int)
    ensures x - 0.5 < r as real <= x + 0.5
  {
    (x + 0.5).Floor
  }

  /** A quotient of a part by a larger positive whole lies in 0..1. */
  lemma QuotientWithinOne(part: real, whole: real)
    requires 0.0 <= part <= whole && whole > 0.0
    ensures 0.0 <= part / whole <= 1.0
  {
    var q := part / whole;
    assert q * whole == part;
  }

  /** `Math.round((part / whole) * 100)` for a positive `whole`. */
  function Percent(part: int, whole: int): (r: int)
    requires whole > 0
    ensures 0 <= part <= whole ==> 0 <= r <= 100
    ensures part == whole ==> r == 100
    ensures part == 0 ==> r == 0
  {
    var q := part as real / whole as real;
    assert 0 <= part <= whole ==> 0.0 <= q <= 1.0 by {
      if 0 <= part <= whole {
        QuotientWithinOne(part as real, whole as real);
      }
    }
    assert part == whole ==> q == 1.0;
    Round(q * 100.0)
  }
}
