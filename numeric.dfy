/** Integer conversions of reals that mirror Python's built-ins. */
module Numeric {

  /** Python's `int(x)` on a float: truncation toward zero. */
  function Trunc(r: real): (n: int)
    ensures 0.0 <= r ==> n as real <= r < n as real + 1.0
    ensures r < 0.0 ==> n as real - 1.0 < r <= n as real
  {
    if 0.0 <= r then r.Floor else -((-r).Floor)
  }

  /** Python's `round(x)`: nearest integer, ties to the even neighbour. */
  function RoundHalfEven(r: real): (n: int)
    ensures -0.5 <= r - n as real <= 0.5
    ensures r - n as real == 0.5 || r - n as real == -0.5 ==> n % 2 == 0
  {
    var f := r.Floor;
    var frac := r - f as real;
    if frac < 0.5 then f
    else if frac > 0.5 then f + 1
    else if f % 2 == 0 then f
    else f + 1
  }

  /** `round` picks the unique nearest integer whenever the distance is below one half. */
  lemma RoundHalfEvenNearest(r: real, m: int)
    requires -0.5 < r - m as real < 0.5
    ensures RoundHalfEven(r) == m
  {
  }
}
