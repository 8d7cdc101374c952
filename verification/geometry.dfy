/** Integer screen points (java.awt.Point) and real-valued positions. */
module Geometry {

  /** A point with integer pixel coordinates. */
  datatype Point = Point(x: int, y: int)

  /** A point or direction with real coordinates. */
  datatype Vec = Vec(x: real, y: real)

  function ToVec(p: Point): Vec {
    Vec(p.x as real, p.y as real)
  }

  /** The midpoint of two integer points, as `(a + b) / 2.0` per coordinate. */
  function Midpoint(a: Point, b: Point): (m: Vec)
    ensures m.x - a.x as real == b.x as real - m.x
    ensures m.y - a.y as real == b.y as real - m.y
  {
    Vec((a.x + b.x) as real / 2.0, (a.y + b.y) as real / 2.0)
  }

  /** Squared Euclidean distance. */
  function Dist2(a: Vec, b: Vec): (d: real)
    ensures d >= 0.0
  {
    (a.x - b.x) * (a.x - b.x) + (a.y - b.y) * (a.y - b.y)
  }
}
