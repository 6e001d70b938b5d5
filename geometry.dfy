/**
 * Plain 2D vectors and the scalar helpers (`Math.max`, `Math.min`,
 * `Math.abs`) shared by the three demo components. All quantities are
 * modelled as mathematical reals.
 */
module Geometry {

  /** A 2D vector in world coordinates (`{ x: , y: }` in the demos). */
  datatype Vec = Vec(x: real, y: real) {

    function Plus(other: Vec): Vec {
      Vec(x + other.x, y + other.y)
    }

    function Times(k: real): Vec {
      Vec(x * k, y * k)
    }
  }

  /** A width and height, in world or in pixel units (`{ width: , height: }`). */
  datatype Extent = Extent(width: real, height: real)

  /** `Math.max` on two numbers. */
  function Max(a: real, b: real): (r: real)
    ensures r >= a && r >= b
    ensures r == a || r == b
  {
    if a >= b then a else b
  }

  /** `Math.min` on two numbers. */
  function Min(a: real, b: real): (r: real)
    ensures r <= a && r <= b
    ensures r == a || r == b
  {
    if a <= b then a else b
  }

  /** `Math.abs`. */
  function Abs(a: real): (r: real)
    ensures r >= 0.0
    ensures r == a || r == -a
  {
    if a >= 0.0 then a else -a
  }
}
