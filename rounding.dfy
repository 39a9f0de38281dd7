/**
 * Rounding of computed coin quantities to four decimal places, as
 * `round(amount, 4)` does in gann/trader.py. The model rounds the exact real
 * to the nearest multiple of 1/10000 and breaks ties towards the even
 * multiple, which is the rule Python's `round` applies to exact decimals.
 */
module Rounding {

  /** True when `x` is an integral number of ten-thousandths. */
  predicate OnGrid(x: real) {
    (x * 10000.0).Floor as real == x * 10000.0
  }

  /** The nearest integer to `y`, ties to the even neighbour. */
  function RoundHalfEven(y: real): (n: int)
    ensures -0.5 <= n as real - y <= 0.5
    ensures n as real - y == 0.5 || y - n as real == 0.5 ==> n % 2 == 0
  {
    var f := y.Floor;
    var frac := y - f as real;
    if frac < 0.5 then f
    else if frac > 0.5 then f + 1
    else if f % 2 == 0 then f
    else f + 1
  }

  /** `round(x, 4)` on exact reals. */
  function Round4(x: real): (r: real)
    ensures r * 10000.0 == RoundHalfEven(x * 10000.0) as real
    ensures OnGrid(r)
    ensures -1.0 / 20000.0 <= r - x <= 1.0 / 20000.0
  {
    var n := RoundHalfEven(x * 10000.0);
    assert (n as real / 10000.0) * 10000.0 == n as real;
    n as real / 10000.0
  }

  /** Rounding a value that already has four decimals leaves it unchanged. */
  lemma Round4OnGrid(x: real)
    requires OnGrid(x)
    ensures Round4(x) == x
  {
    var y := x * 10000.0;
    assert y.Floor as real == y;
    assert RoundHalfEven(y) == y.Floor;
  }

  /** Rounding is idempotent. */
  lemma Round4Idempotent(x: real)
    ensures Round4(Round4(x)) == Round4(x)
  {
    Round4OnGrid(Round4(x));
  }
}
