/** Points of the plane and the Green's-theorem edge built from two of them. */
module Geometry {

  /** An immutable coordinate pair. */
  datatype Point = Point(x: real, y: real)

  /** An edge as the engine sees it: both end points plus the coordinate
      deltas from the start point to the end point. */
  datatype Line = Line(X0: real, X1: real, Y0: real, Y1: real, Dx: real, Dy: real)
  {
    /** The deltas agree with the end points. */
    predicate Consistent() {
      Dx == X1 - X0 && Dy == Y1 - Y0
    }
  }

  /** Builds an edge; note the argument order (x0, x1, y0, y1). */
  function MakeLine(x0: real, x1: real, y0: real, y1: real): (l: Line)
    ensures l.X0 == x0 && l.X1 == x1 && l.Y0 == y0 && l.Y1 == y1
    ensures l.X0 + l.Dx == l.X1 && l.Y0 + l.Dy == l.Y1
    ensures l.Consistent()
  {
    Line(x0, x1, y0, y1, x1 - x0, y1 - y0)
  }

  /** The edge from `p0` to `p1`, built with the engine's argument order,
      so that (X0, Y0) is the start point `p0`. */
  function EdgeOf(p0: Point, p1: Point): (l: Line)
    ensures l.X0 == p0.x && l.Y0 == p0.y
    ensures l.X0 + l.Dx == p1.x && l.Y0 + l.Dy == p1.y
  {
    MakeLine(p0.x, p1.x, p0.y, p1.y)
  }

  /** Swapping the end points negates both deltas. */
  lemma SwapNegatesDeltas(p0: Point, p1: Point)
    ensures EdgeOf(p1, p0).Dx == -EdgeOf(p0, p1).Dx
    ensures EdgeOf(p1, p0).Dy == -EdgeOf(p0, p1).Dy
  {
  }

  /** A zero-length edge has zero deltas, and only such an edge does. */
  lemma ZeroLengthEdge(p0: Point, p1: Point)
    ensures p0 == p1 <==> EdgeOf(p0, p1).Dx == 0.0 && EdgeOf(p0, p1).Dy == 0.0
  {
  }

  /** Reflection of a point in the vertical axis x = 0. */
  function Mirror(p: Point): (q: Point)
    ensures q.x == -p.x && q.y == p.y
  {
    Point(-p.x, p.y)
  }

  /** Translation of a point by (a, b). */
  function Shift(p: Point, a: real, b: real): (q: Point)
    ensures q.x - p.x == a && q.y - p.y == b
  {
    Point(p.x + a, p.y + b)
  }
}
