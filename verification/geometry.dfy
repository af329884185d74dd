/** Integer pixel geometry, as the host's QRect. */
module Geometry {

  /** An axis-aligned rectangle; the engine compares rectangles field by field,
      which is exactly datatype equality. */
  datatype Rect = Rect(x: int, y: int, width: int, height: int)

  /** The geometry a tile starts with before it is first laid out. */
  const Zero := Rect(0, 0, 0, 0)

  /** First row below the rectangle. */
  function Bottom(r: Rect): int {
    r.y + r.height
  }

  /** First column right of the rectangle. */
  function Right(r: Rect): int {
    r.x + r.width
  }
}
