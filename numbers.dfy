/** The two JavaScript `Math` helpers the component clamps with, on exact numbers. */
module Numbers {

  /** `Math.max` on two reals. */
  function Max(a: real, b: real): (m: real)
    ensures m >= a && m >= b
    ensures m == a || m == b
  {
    if a >= b then a else b
  }

  /** `Math.min` on two reals. */
  function Min(a: real, b: real): (m: real)
    ensures m <= a && m <= b
    ensures m == a || m == b
  {
    if a <= b then a else b
  }

  /**
    `Math.max` on two integers. It exists only for the clamp of the
    remaining-day count at zero, which keeps that count an integer rather
    than converting through `Max` on reals.
   */
  function MaxInt(a: int, b: int): (m: int)
    ensures m >= a && m >= b
    ensures m == a || m == b
  {
    if a >= b then a else b
  }
}
