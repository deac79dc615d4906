/** Python's round() on numbers taken as reals: half to even. */
module Rounding {

  function RoundHalfEven(x: real): (n: int)
    ensures x - 0.5 <= n as real <= x + 0.5
    ensures (n as real == x - 0.5 || n as real == x + 0.5) ==> n % 2 == 0
  {
    var f := x.Floor;
    var d := x - f as real;
    if d < 0.5 then f
    else if d > 0.5 then f + 1
    else if f % 2 == 0 then f else f + 1
  }

  lemma RoundMonotone(x: real, y: real)
    requires x <= y
    ensures RoundHalfEven(x) <= RoundHalfEven(y)
  {
  }

  lemma RatioInRange(part: real, whole: real)
    requires 0.0 <= part <= whole && whole > 0.0
    ensures 0.0 <= part / whole <= 1.0
  {
    var ratio := part / whole;
    assert ratio * whole == part;
    assert ratio > 1.0 ==> (ratio - 1.0) * whole > 0.0;
    assert ratio < 0.0 ==> ratio * whole < 0.0;
  }

  /** round(x, 1) */
  function RoundToTenth(x: real): real { RoundHalfEven(x * 10.0) as real / 10.0 }

  lemma RoundToTenthInRange(x: real)
    requires 0.0 <= x <= 100.0
    ensures 0.0 <= RoundToTenth(x) <= 100.0
  {
    RoundMonotone(0.0, x * 10.0);
    RoundMonotone(x * 10.0, 1000.0);
    assert RoundHalfEven(0.0) == 0 && RoundHalfEven(1000.0) == 1000;
  }
}
