/**
 * Planar points in projected (layer) space and the handful of point
 * operations the overlay engine uses from the map library's point type:
 * add, subtract, multiplyBy and divideBy.
 */
module Geometry {

  datatype Point = Point(x: real, y: real)
  {
    function Add(q: Point): Point { Point(x + q.x, y + q.y) }

    function Subtract(q: Point): Point { Point(x - q.x, y - q.y) }

    function MultiplyBy(k: real): Point { Point(x * k, y * k) }

    function DivideBy(k: real): Point
      requires k != 0.0
    {
      Point(x / k, y / k)
    }
  }

  const Origin := Point(0.0, 0.0)

  datatype Option<+T> = None | Some(value: T)
}
