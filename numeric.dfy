/** The two rounding rules the rollups use, on exact reals: `Math.round`
    and `Number(x.toFixed(1))`. */
module Numeric {

  /** `Math.round(x)`: the nearest integer, a tie going towards +infinity. */
  function RoundHalfUp(x: real): (n: int)
    ensures n as real - 0.5 <= x < n as real + 0.5
  {
    (x + 0.5).Floor
  }

  /** Rounding to an integer is the identity on integers. */
  lemma RoundHalfUpOfInt(v: int)
    ensures RoundHalfUp(v as real) == v
  {
  }

  /** Rounding to an integer never reverses the order of two values. */
  lemma RoundHalfUpMonotone(x: real, y: real)
    requires x <= y
    ensures RoundHalfUp(x) <= RoundHalfUp(y)
  {
  }

  /** The number of tenths `x.toFixed(1)` prints: the magnitude is rounded to
      the nearest tenth with ties going up, then the sign is put back, so a
      tie goes away from zero. */
  function Tenths(x: real): (n: int)
    ensures x >= 0.0 ==> -0.5 < n as real - 10.0 * x <= 0.5
    ensures x < 0.0 ==> -0.5 <= n as real - 10.0 * x < 0.5
  {
    if x < 0.0 then -RoundHalfUp(-x * 10.0) else RoundHalfUp(x * 10.0)
  }

  /** `Number(x.toFixed(1))`: `x` rounded to one decimal place. */
  function ToFixed1(x: real): (r: real)
    ensures x >= 0.0 ==> -0.05 < r - x <= 0.05
    ensures x < 0.0 ==> -0.05 <= r - x < 0.05
    ensures (10.0 * r).Floor as real == 10.0 * r
  {
    Tenths(x) as real / 10.0
  }

  /** Rounding to a tenth never reverses the order of two values. */
  lemma ToFixed1Monotone(x: real, y: real)
    requires x <= y
    ensures ToFixed1(x) <= ToFixed1(y)
  {
    if x < 0.0 && y < 0.0 {
      RoundHalfUpMonotone(-y * 10.0, -x * 10.0);
    } else if 0.0 <= x {
      RoundHalfUpMonotone(x * 10.0, y * 10.0);
    }
  }

  /** A value that is already a whole number of tenths is left unchanged. */
  lemma ToFixed1OfTenths(n: int)
    ensures ToFixed1(n as real / 10.0) == n as real / 10.0
  {
    if n < 0 {
      assert -(n as real / 10.0) * 10.0 == (-n) as real;
      RoundHalfUpOfInt(-n);
    } else {
      assert (n as real / 10.0) * 10.0 == n as real;
      RoundHalfUpOfInt(n);
    }
  }
}
