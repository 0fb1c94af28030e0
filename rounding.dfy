/** Rounding to the nearest integer the way numpy's `round` does: ties go to the even neighbour. */
module Rounding {

  function RoundHalfEven(x: real): (r: int)
    ensures 2.0 * (x - r as real) <= 1.0 && 2.0 * (r as real - x) <= 1.0
    ensures (2.0 * (x - r as real) == 1.0 || 2.0 * (r as real - x) == 1.0) ==> r % 2 == 0
  {
    var f := x.Floor;
    var d := x - f as real;
    if d < 0.5 then f
    else if d > 0.5 then f + 1
    else if f % 2 == 0 then f else f + 1
  }

  /** An integral value rounds to itself. */
  lemma RoundOfInteger(n: int)
    ensures RoundHalfEven(n as real) == n
  {
    var r := RoundHalfEven(n as real);
    assert -1 < 2 * (n - r) < 2 by {
      assert 2.0 * (n as real - r as real) <= 1.0;
      assert 2.0 * (r as real - n as real) <= 1.0;
    }
  }

  /** Rounding never reverses the order of two values. */
  lemma RoundMonotone(x: real, y: real)
    requires x <= y
    ensures RoundHalfEven(x) <= RoundHalfEven(y)
  {
    var rx, ry := RoundHalfEven(x), RoundHalfEven(y);
    assert 2.0 * (rx as real - x) <= 1.0 && 2.0 * (y - ry as real) <= 1.0;
  }

  /** Exactly the values within half a unit of zero round to zero (both halves go to the even 0). */
  lemma RoundsToZero(x: real)
    ensures RoundHalfEven(x) == 0 <==> -0.5 <= x <= 0.5
  {
    var r := RoundHalfEven(x);
    if -0.5 <= x <= 0.5 {
      assert -1 <= r <= 1;
    }
  }
}
