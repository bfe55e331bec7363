/** Small value types shared by every part of the overlay model. */
module Common {

  datatype Option<T> = None | Some(value: T)

  /** A screen point or offset, in integer pixels. */
  datatype Point = Point(x: int, y: int) {
    function Minus(other: Point): (d: Point)
      ensures d.Plus(other) == this
    {
      Point(x - other.x, y - other.y)
    }

    function Plus(other: Point): Point
    {
      Point(x + other.x, y + other.y)
    }
  }

  /** A window rectangle as (left, top, right, bottom). */
  datatype Rect = Rect(left: int, top: int, right: int, bottom: int)
}
