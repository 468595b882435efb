/** Integer rectangles in the compositor-global logical space.

    The source's coordinates are `i32`. They are modelled by `int`, and every
    operation that the source or Smithay saturates is written with `SatAdd` or
    `SatSub`. Pointer positions are `f64` in the source and `real` here. */
module Geometry {

  const I32_MIN: int := -0x8000_0000
  const I32_MAX: int := 0x7fff_ffff

  predicate InI32(n: int) {
    I32_MIN <= n <= I32_MAX
  }

  function Min(a: int, b: int): int {
    if a <= b then a else b
  }

  function Max(a: int, b: int): int {
    if a <= b then b else a
  }

  /** The nearest `i32` to an exact result. */
  function Saturate(n: int): int {
    if n < I32_MIN then I32_MIN else if n > I32_MAX then I32_MAX else n
  }

  function SatAdd(a: int, b: int): int {
    Saturate(a + b)
  }

  function SatSub(a: int, b: int): int {
    Saturate(a - b)
  }

  datatype Point = Point(x: int, y: int) {
    function Plus(other: Point): Point {
      Point(SatAdd(x, other.x), SatAdd(y, other.y))
    }

    function Minus(other: Point): Point {
      Point(SatSub(x, other.x), SatSub(y, other.y))
    }
  }

  datatype Size = Size(w: int, h: int)

  datatype RealPoint = RealPoint(x: real, y: real)

  datatype Rect = Rect(loc: Point, size: Size) {
    function Right(): int {
      SatAdd(loc.x, size.w)
    }

    function Bottom(): int {
      SatAdd(loc.y, size.h)
    }

    /** Smithay's `Rectangle::merge`: the box of both rectangles' corners. */
    function Merge(other: Rect): Rect {
      var left := Min(loc.x, other.loc.x);
      var top := Min(loc.y, other.loc.y);
      var right := Max(Right(), other.Right());
      var bottom := Max(Bottom(), other.Bottom());
      Rect(Point(left, top), Size(SatSub(right, left), SatSub(bottom, top)))
    }

    /** Smithay's `Rectangle::overlaps`. */
    predicate Overlaps(other: Rect) {
      && loc.x < other.Right() && other.loc.x < Right()
      && loc.y < other.Bottom() && other.loc.y < Bottom()
    }

    /** `to_f64().contains(..)`: the far edges are excluded. */
    predicate Contains(p: RealPoint) {
      && loc.x as real <= p.x < (loc.x + size.w) as real
      && loc.y as real <= p.y < (loc.y + size.h) as real
    }
  }
}
