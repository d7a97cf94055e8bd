/** Scalar helpers: Python's `int()` on a float, and the trigonometric
    functions, which the model takes as an input rather than defining. */
module Numbers {

  /** `int(r)` in Python: truncation toward zero. */
  function Trunc(r: real): (n: int)
    ensures 0.0 <= r ==> n as real <= r < n as real + 1.0
    ensures r < 0.0 ==> n as real - 1.0 < r <= n as real
  {
    if r >= 0.0 then r.Floor else -((-r).Floor)
  }

  /** `math.cos` and `math.sin`, supplied by the caller. */
  datatype Trig = Trig(cos: real -> real, sin: real -> real)

  /** The two values every trig library agrees on at angle zero. */
  predicate ExactAtZero(trig: Trig) {
    trig.cos(0.0) == 1.0 && trig.sin(0.0) == 0.0
  }

  /** cos² + sin² = 1 at the given angle. */
  predicate OnUnitCircle(trig: Trig, angle: real) {
    trig.cos(angle) * trig.cos(angle) + trig.sin(angle) * trig.sin(angle) == 1.0
  }
}
