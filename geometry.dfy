/** Basic value types shared by the layout and session modules: pixel sizes, points
    and rectangles. Pixel quantities are `real`; the floating-point
    rounding of the toolkit is not modelled. */
module Geometry {

  /** A width and a height in logical pixels. */
  datatype Size = Size(width: real, height: real)

  /** A position in logical pixels. */
  datatype Point = Point(x: real, y: real)

  /** An axis-aligned rectangle given by two corners, as the toolkit stores layout rectangles. */
  datatype Rect = Rect(x0: real, y0: real, x1: real, y1: real) {
    function Width(): real { x1 - x0 }
    function Height(): real { y1 - y0 }
  }

  const ZeroRect := Rect(0.0, 0.0, 0.0, 0.0)

  /** A point moved by a fixed offset on both axes, as `pos + (dx, dy)` does. */
  function Offset(p: Point, dx: real, dy: real): (r: Point)
    ensures r.x - p.x == dx && r.y - p.y == dy
  {
    Point(p.x + dx, p.y + dy)
  }
}
