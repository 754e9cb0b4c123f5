/** The three integer conversions the system applies to numbers. */
module Numeric {

  /** round_half_up(a / d) for d > 0: ties go away from zero, as
      Decimal.quantize(0, ROUND_HALF_UP) does. */
  function RoundHalfUpDiv(a: int, d: int): (r: int)
    requires d > 0
    ensures -d <= 2 * (r * d - a) <= d
    ensures 2 * (r * d - a) == d ==> a > 0
    ensures 2 * (r * d - a) == -d ==> a < 0
  {
    if a >= 0 then (2 * a + d) / (2 * d) else -((2 * -a + d) / (2 * d))
  }

  /** Python's `round(x)` to an integer: nearest integer, ties to even. */
  function RoundHalfEven(x: real): (r: int)
    ensures -0.5 <= r as real - x <= 0.5
    ensures (r as real - x == 0.5 || r as real - x == -0.5) ==> r % 2 == 0
  {
    var f := x.Floor;
    var frac := x - f as real;
    if frac < 0.5 then f
    else if frac > 0.5 then f + 1
    else if f % 2 == 0 then f
    else f + 1
  }

  /** Python's `int(x)` on a number: truncation toward zero. */
  function TruncateToInt(x: real): (r: int)
    ensures x >= 0.0 ==> 0 <= r && r as real <= x < r as real + 1.0
    ensures x < 0.0 ==> r <= 0 && r as real - 1.0 < x <= r as real
  {
    if x >= 0.0 then x.Floor else -((-x).Floor)
  }
}
