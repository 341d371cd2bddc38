/**
 * Integer plane geometry shared by the spiral model: points with y growing
 * downwards, the Chebyshev shell index of a point, and an integer square root.
 */
module Geometry {

  /** A position on the plane; `x` grows to the right and `y` grows downwards. */
  datatype Point = Point(x: int, y: int)

  datatype Option<T> = None | Some(value: T)

  function Abs(n: int): nat
  {
    if n < 0 then -n else n
  }

  function Max(a: int, b: int): int
  {
    if a < b then b else a
  }

  /** The shell holding `p`: its Chebyshev distance max(|x|, |y|) from the origin. */
  function ShellIndexOf(p: Point): nat
  {
    Max(Abs(p.x), Abs(p.y))
  }

  /** The point `p` moved by the vector `d`. */
  function Add(p: Point, d: Point): Point
  {
    Point(p.x + d.x, p.y + d.y)
  }

  /** The largest natural number whose square does not exceed `n`. */
  function FloorSqrt(n: nat): (r: nat)
    ensures r * r <= n < (r + 1) * (r + 1)
  {
    if n == 0 then 0
    else
      var r := FloorSqrt(n - 1);
      if (r + 1) * (r + 1) <= n then r + 1 else r
  }

  lemma SquareMonotonic(a: int, b: int)
    requires 0 <= a <= b
    ensures a * a <= b * b
  {
  }

  /** Any `r` with r² ≤ n < (r+1)² is the floor square root of `n`. */
  lemma FloorSqrtUnique(n: nat, r: nat)
    requires r * r <= n < (r + 1) * (r + 1)
    ensures FloorSqrt(n) == r
  {
    var s := FloorSqrt(n);
    if s < r {
      SquareMonotonic(s + 1, r);
    } else if r < s {
      SquareMonotonic(r + 1, s);
    }
  }
}
