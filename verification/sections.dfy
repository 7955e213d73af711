/** The section builders: each lays out the outline of a standard cross
    section as a closed vertex list, counter-clockwise from the bottom, and
    hands it to the engine. */
module Sections {
  import opened Geometry
  import opened Moments
  import opened Integration
  import opened Envelope
  import opened Engine

  // The outlines.

  /** A bw × h rectangle with its bottom-left corner at the origin. */
  function Rectangular(bw: real, h: real): (ps: seq<Point>)
    ensures |ps| == 5 && Closed(ps)
  {
    [Point(0.0, 0.0), Point(bw, 0.0), Point(bw, h), Point(0.0, h), Point(0.0, 0.0)]
  }

  /** A T section: a web bw wide under a flange bf wide and hf deep, total
      depth h, centred on x = 0; the list starts at the bottom-right corner. */
  function TWithoutCorbel(bf: real, hf: real, bw: real, h: real): (ps: seq<Point>)
    ensures |ps| == 9 && Closed(ps)
  {
    [Point(bw / 2.0, 0.0), Point(bw / 2.0, h - hf), Point(bf / 2.0, h - hf), Point(bf / 2.0, h),
     Point(-bf / 2.0, h), Point(-bf / 2.0, h - hf), Point(-bw / 2.0, h - hf), Point(-bw / 2.0, 0.0),
     Point(bw / 2.0, 0.0)]
  }

  /** A T section with a triangular haunch bmis wide and hmis high on each
      side of the web under the flange; the list starts at the bottom-left
      corner. The haunches are always drawn, even when they are empty. */
  function TTriangularCorbel(bf: real, hf: real, bw: real, h: real, bmis: real, hmis: real): (ps: seq<Point>)
    ensures |ps| == 11 && Closed(ps)
  {
    [Point(-bw / 2.0, 0.0), Point(bw / 2.0, 0.0), Point(bw / 2.0, h - hf - hmis),
     Point(bw / 2.0 + bmis, h - hf), Point(bf / 2.0, h - hf), Point(bf / 2.0, h),
     Point(-bf / 2.0, h), Point(-bf / 2.0, h - hf), Point(-bw / 2.0 - bmis, h - hf),
     Point(-bw / 2.0, h - hf - hmis), Point(-bw / 2.0, 0.0)]
  }

  /** An I section: a bottom flange bi wide and hi deep, a web bw wide and a
      top flange bf wide and hf deep, total depth h, centred on x = 0. */
  function IWithoutCorbel(bf: real, hf: real, bw: real, h: real, bi: real, hi: real): (ps: seq<Point>)
    ensures |ps| == 13 && Closed(ps)
  {
    [Point(-bi / 2.0, 0.0), Point(bi / 2.0, 0.0), Point(bi / 2.0, hi), Point(bw / 2.0, hi),
     Point(bw / 2.0, h - hf), Point(bf / 2.0, h - hf), Point(bf / 2.0, h), Point(-bf / 2.0, h),
     Point(-bf / 2.0, h - hf), Point(-bw / 2.0, h - hf), Point(-bw / 2.0, hi), Point(-bi / 2.0, hi),
     Point(-bi / 2.0, 0.0)]
  }

  /** Whether a haunch of the given width and height is drawn: only when
      both are positive. */
  predicate Drawn(b: real, hh: real) {
    b > 0.0 && hh > 0.0
  }

  /** An I section with optional triangular haunches: bmissup × hmissup
      under the top flange and bmisinf × hmisinf over the bottom flange, on
      both sides of the web. A haunch that is not drawn leaves the plain
      corner of the I section. */
  function ITriangularCorbel(bf: real, hf: real, bw: real, h: real, bi: real, hi: real,
                             bmissup: real, hmissup: real, bmisinf: real, hmisinf: real): (ps: seq<Point>)
    ensures |ps| == 13 + (if Drawn(bmisinf, hmisinf) then 2 else 0) + (if Drawn(bmissup, hmissup) then 2 else 0)
    ensures Closed(ps)
  {
    var inf, sup := Drawn(bmisinf, hmisinf), Drawn(bmissup, hmissup);
    [Point(-bi / 2.0, 0.0), Point(bi / 2.0, 0.0), Point(bi / 2.0, hi)]
    + (if inf then [Point(bw / 2.0 + bmisinf, hi), Point(bw / 2.0, hi + hmisinf)] else [Point(bw / 2.0, hi)])
    + (if sup then [Point(bw / 2.0, h - hf - hmissup), Point(bw / 2.0 + bmissup, h - hf)]
       else [Point(bw / 2.0, h - hf)])
    + [Point(bf / 2.0, h - hf), Point(bf / 2.0, h), Point(-bf / 2.0, h), Point(-bf / 2.0, h - hf)]
    + (if sup then [Point(-bw / 2.0 - bmissup, h - hf), Point(-bw / 2.0, h - hf - hmissup)]
       else [Point(-bw / 2.0, h - hf)])
    + (if inf then [Point(-bw / 2.0, hi + hmisinf), Point(-bw / 2.0 - bmisinf, hi)] else [Point(-bw / 2.0, hi)])
    + [Point(-bi / 2.0, hi), Point(-bi / 2.0, 0.0)]
  }

  // Reference: every outline above is a stack of axis-parallel rectangles
  // (plus the haunch triangles), whose integrals are known in closed form.

  /** The six integrals of the rectangle [x0, x1] × [y0, y1], by direct
      integration. */
  function Block(x0: real, x1: real, y0: real, y1: real): Moments {
    Moments((x1 - x0) * (y1 - y0),
            (x1 - x0) * (y1 * y1 - y0 * y0) / 2.0,
            (x1 * x1 - x0 * x0) * (y1 - y0) / 2.0,
            (x1 - x0) * (y1 * y1 * y1 - y0 * y0 * y0) / 3.0,
            (x1 * x1 * x1 - x0 * x0 * x0) * (y1 - y0) / 3.0,
            (x1 * x1 - x0 * x0) * (y1 * y1 - y0 * y0) / 4.0)
  }

  /** The T section's web and flange. */
  function TBlocks(bf: real, hf: real, bw: real, h: real): Moments {
    Block(-bw / 2.0, bw / 2.0, 0.0, h - hf).Plus(Block(-bf / 2.0, bf / 2.0, h - hf, h))
  }

  /** The I section's bottom flange, web and top flange. */
  function IBlocks(bf: real, hf: real, bw: real, h: real, bi: real, hi: real): Moments {
    Block(-bi / 2.0, bi / 2.0, 0.0, hi).Plus(Block(-bw / 2.0, bw / 2.0, hi, h - hf))
      .Plus(Block(-bf / 2.0, bf / 2.0, h - hf, h))
  }

  /** The integrals over the strip between the y axis and a vertical edge
      from (x, y0) to (x, y1). */
  function Upright(x: real, y0: real, y1: real): Moments {
    Moments(x * (y1 - y0),
            x * (y1 * y1 - y0 * y0) / 2.0,
            x * x * (y1 - y0) / 2.0,
            x * (y1 * y1 * y1 - y0 * y0 * y0) / 3.0,
            x * x * x * (y1 - y0) / 3.0,
            x * x * (y1 * y1 - y0 * y0) / 4.0)
  }

  /** The engine's terms for a vertical edge are the strip's integrals. */
  lemma UprightEdge(x: real, y0: real, y1: real)
    ensures EdgeMoments(Point(x, y0), Point(x, y1)) == Upright(x, y0, y1)
  {
    var p0, p1 := Point(x, y0), Point(x, y1);
    EdgeFields(p0, p1);
    var l := EdgeOf(p0, p1);
    assert l == Line(x, x, y0, y1, 0.0, y1 - y0);
    var d := y1 - y0;
    assert SxTerm(l) == x * (y0 + d / 2.0) * d;
    assert IxTerm(l) == x * (y0 * (d + y0) + d * d / 3.0) * d;
    assert IyTerm(l) == x * x * x * d / 3.0;
    assert IxyTerm(l) == x * x * (y0 + d / 2.0) * d / 2.0;
  }

  /** The two vertical sides of a rectangle, right side upwards and left
      side downwards, together give the rectangle's integrals. */
  lemma UprightPair(x0: real, x1: real, y0: real, y1: real)
    ensures Upright(x1, y0, y1).Plus(Upright(x0, y1, y0)) == Block(x0, x1, y0, y1)
  {
  }

  /** The sum of a list of records, left to right. */
  function Total(ms: seq<Moments>): Moments
    decreases |ms|
  {
    if |ms| == 0 then Zero else Total(ms[..|ms| - 1]).Plus(ms[|ms| - 1])
  }

  /** Every prefix total is the one before it plus one more record. */
  lemma TotalPrefixes(ms: seq<Moments>)
    ensures ms[..|ms|] == ms && Total(ms[..0]) == Zero
    ensures forall k :: 1 <= k <= |ms| ==> Total(ms[..k]) == Total(ms[..k - 1]).Plus(ms[k - 1])
  {
    forall k | 1 <= k <= |ms|
      ensures Total(ms[..k]) == Total(ms[..k - 1]).Plus(ms[k - 1])
    {
      assert ms[..k][..k - 1] == ms[..k - 1];
    }
  }

  /** An edge sum is the total of its per-edge values, whatever they are. */
  lemma {:induction false} SumAsTotal(ps: seq<Point>, f: (Point, Point) -> Moments, ms: seq<Moments>)
    requires |ps| >= 1 && |ms| == |ps| - 1
    requires forall i :: 0 <= i < |ms| ==> f(ps[i], ps[i + 1]) == ms[i]
    ensures SumEdges(ps, f) == Total(ms)
    decreases |ms|
  {
    if |ms| == 0 {
      SumShort(ps, f);
    } else {
      var n := |ps|;
      SumStep(ps, f);
      SumAsTotal(ps[..n - 1], f, ms[..n - 2]);
    }
  }

  /** An axis-parallel edge: horizontal edges add nothing, vertical ones
      add their strip. */
  predicate AxisEdge(p: Point, q: Point, m: Moments) {
    (p.y == q.y && m == Zero) || (p.x == q.x && m == Upright(p.x, p.y, q.y))
  }

  /** The integrals of an outline whose edges are all axis-parallel are the
      total of its strips. */
  lemma AxisOutline(ps: seq<Point>, ms: seq<Moments>)
    requires |ps| >= 1 && |ms| == |ps| - 1
    requires forall i :: 0 <= i < |ms| ==> AxisEdge(ps[i], ps[i + 1], ms[i])
    ensures Integrate(ps) == Total(ms)
  {
    forall i | 0 <= i < |ms|
      ensures EdgeMoments(ps[i], ps[i + 1]) == ms[i]
    {
      if ps[i].y == ps[i + 1].y && ms[i] == Zero {
        FlatEdgeAddsNothing(ps[i], ps[i + 1]);
      } else {
        UprightEdge(ps[i].x, ps[i].y, ps[i + 1].y);
      }
    }
    SumAsTotal(ps, EdgeMoments, ms);
  }

  /** The rectangle's integrals are those of [0, bw] × [0, h]. */
  lemma RectangleIntegrals(bw: real, h: real)
    ensures Integrate(Rectangular(bw, h)) == Block(0.0, bw, 0.0, h)
  {
    var ms := [Zero, Upright(bw, 0.0, h), Zero, Upright(0.0, h, 0.0)];
    AxisOutline(Rectangular(bw, h), ms);
    TotalPrefixes(ms);
    UprightPair(0.0, bw, 0.0, h);
  }

  /** The strips of a T outline pair up: the outer ones bound the web, the
      inner ones the flange. */
  lemma TStrips(u1: Moments, u2: Moments, u3: Moments, u4: Moments)
    ensures Total([u1, Zero, u2, Zero, u3, Zero, u4, Zero]) == u1.Plus(u4).Plus(u2.Plus(u3))
  {
    var ms := [u1, Zero, u2, Zero, u3, Zero, u4, Zero];
    TotalPrefixes(ms);
    assert Total(ms[..1]) == u1 by { PlusZero(u1); }
    assert Total(ms[..3]) == u1.Plus(u2) by { PlusZero(u1); }
    assert Total(ms[..5]) == u1.Plus(u2).Plus(u3) by { PlusZero(u1.Plus(u2)); }
    assert Total(ms[..7]) == u1.Plus(u2).Plus(u3).Plus(u4) by { PlusZero(u1.Plus(u2).Plus(u3)); }
    PlusZero(u1.Plus(u2).Plus(u3).Plus(u4));
  }

  /** A T section is its web [−bw/2, bw/2] × [0, h − hf] under its flange
      [−bf/2, bf/2] × [h − hf, h]. */
  lemma TIntegrals(bf: real, hf: real, bw: real, h: real)
    ensures Integrate(TWithoutCorbel(bf, hf, bw, h)) == TBlocks(bf, hf, bw, h)
  {
    var u1, u2, u3, u4 := Upright(bw / 2.0, 0.0, h - hf), Upright(bf / 2.0, h - hf, h),
                          Upright(-bf / 2.0, h, h - hf), Upright(-bw / 2.0, h - hf, 0.0);
    AxisOutline(TWithoutCorbel(bf, hf, bw, h), [u1, Zero, u2, Zero, u3, Zero, u4, Zero]);
    TStrips(u1, u2, u3, u4);
    UprightPair(-bw / 2.0, bw / 2.0, 0.0, h - hf);
    UprightPair(-bf / 2.0, bf / 2.0, h - hf, h);
  }

  /** The strips of an I outline pair up from the outside in: bottom
      flange, web, top flange. */
  lemma IStrips(u1: Moments, u2: Moments, u3: Moments, u4: Moments, u5: Moments, u6: Moments)
    ensures Total([Zero, u1, Zero, u2, Zero, u3, Zero, u4, Zero, u5, Zero, u6])
            == u1.Plus(u6).Plus(u2.Plus(u5)).Plus(u3.Plus(u4))
  {
    var ms := [Zero, u1, Zero, u2, Zero, u3, Zero, u4, Zero, u5, Zero, u6];
    TotalPrefixes(ms);
    assert Total(ms[..2]) == u1 by { PlusZero(Zero); PlusZero(u1); }
    assert Total(ms[..4]) == u1.Plus(u2) by { PlusZero(u1); }
    assert Total(ms[..6]) == u1.Plus(u2).Plus(u3) by { PlusZero(u1.Plus(u2)); }
    assert Total(ms[..8]) == u1.Plus(u2).Plus(u3).Plus(u4) by { PlusZero(u1.Plus(u2).Plus(u3)); }
    assert Total(ms[..10]) == u1.Plus(u2).Plus(u3).Plus(u4).Plus(u5) by { PlusZero(u1.Plus(u2).Plus(u3).Plus(u4)); }
  }

  /** The I outline's strips. */
  function IUprights(bf: real, hf: real, bw: real, h: real, bi: real, hi: real): (us: seq<Moments>)
    ensures |us| == 6
  {
    [Upright(bi / 2.0, 0.0, hi), Upright(bw / 2.0, hi, h - hf), Upright(bf / 2.0, h - hf, h),
     Upright(-bf / 2.0, h, h - hf), Upright(-bw / 2.0, h - hf, hi), Upright(-bi / 2.0, hi, 0.0)]
  }

  lemma IOutline(bf: real, hf: real, bw: real, h: real, bi: real, hi: real)
    ensures var us := IUprights(bf, hf, bw, h, bi, hi);
            Integrate(IWithoutCorbel(bf, hf, bw, h, bi, hi))
            == us[0].Plus(us[5]).Plus(us[1].Plus(us[4])).Plus(us[2].Plus(us[3]))
  {
    var us := IUprights(bf, hf, bw, h, bi, hi);
    AxisOutline(IWithoutCorbel(bf, hf, bw, h, bi, hi),
                [Zero, us[0], Zero, us[1], Zero, us[2], Zero, us[3], Zero, us[4], Zero, us[5]]);
    IStrips(us[0], us[1], us[2], us[3], us[4], us[5]);
  }

  /** An I section is its bottom flange [−bi/2, bi/2] × [0, hi], its web
      [−bw/2, bw/2] × [hi, h − hf] and its top flange [−bf/2, bf/2] × [h − hf, h]. */
  lemma IIntegrals(bf: real, hf: real, bw: real, h: real, bi: real, hi: real)
    ensures Integrate(IWithoutCorbel(bf, hf, bw, h, bi, hi)) == IBlocks(bf, hf, bw, h, bi, hi)
  {
    IOutline(bf, hf, bw, h, bi, hi);
    UprightPair(-bi / 2.0, bi / 2.0, 0.0, hi);
    UprightPair(-bw / 2.0, bw / 2.0, hi, h - hf);
    UprightPair(-bf / 2.0, bf / 2.0, h - hf, h);
  }

  // The rectangle in closed form.

  /** The rectangle's vertices span [0, bw] × [0, h]. */
  lemma RectangleEnvelope(bw: real, h: real)
    requires bw >= 0.0 && h >= 0.0
    ensures Scan(Rectangular(bw, h)) == Some(Envelope(0.0, bw, 0.0, h))
  {
    var ps, e := Rectangular(bw, h), Envelope(0.0, bw, 0.0, h);
    assert ps[0].x == e.Xmin && ps[1].x == e.Xmax && ps[0].y == e.Ymin && ps[2].y == e.Ymax;
    assert Tight(ps, e);
    TightUnique(ps, Scan(ps).value, e);
  }

  /** The centroid of a rectangle with positive sides lies strictly
      between its bottom and its top. */
  lemma RectangleLevels(bw: real, h: real)
    requires bw > 0.0 && h > 0.0
    ensures var m := Block(0.0, bw, 0.0, h);
            m.A != 0.0 && CentroidY(m) != 0.0 && CentroidY(m) != h
  {
    var m := Block(0.0, bw, 0.0, h);
    OnLevel(m, 0.0);
    OnLevel(m, h);
    assert m.A == bw * h && m.Sx == bw * h * h / 2.0;
    assert h * m.A - m.Sx == bw * h * h / 2.0;
    assert bw * h * h > 0.0;
  }

  /** A rectangle with positive sides always has its properties. */
  lemma RectangleSucceeds(bw: real, h: real)
    requires bw > 0.0 && h > 0.0
    ensures Compute(Rectangular(bw, h)).Success?
  {
    var ps, m, e := Rectangular(bw, h), Block(0.0, bw, 0.0, h), Envelope(0.0, bw, 0.0, h);
    RectangleIntegrals(bw, h);
    RectangleEnvelope(bw, h);
    SuccessCondition(ps, m, e);
    RectangleLevels(bw, h);
  }

  /** The textbook values of a bw × h rectangle, from what the engine
      states about any result for it. */
  lemma RectangleValues(bw: real, h: real, p: Props)
    requires bw > 0.0 && h > 0.0
    requires Describes(Block(0.0, bw, 0.0, h), Envelope(0.0, bw, 0.0, h), p)
    ensures p.A == bw * h && p.Sx == bw * h * h / 2.0 && p.Sy == bw * bw * h / 2.0
    ensures p.Ix == bw * h * h * h / 3.0 && p.Iy == bw * bw * bw * h / 3.0 && p.Ixy == bw * bw * h * h / 4.0
    ensures p.Xg == bw / 2.0 && p.Yg == h / 2.0
    ensures p.Ixg == bw * h * h * h / 12.0 && p.Iyg == bw * bw * bw * h / 12.0 && p.Ixyg == 0.0
    ensures p.Xmin == 0.0 && p.Xmax == bw && p.Ymin == 0.0 && p.Ymax == h
    ensures p.Base == bw && p.Height == h
    ensures p.Y1 == -h / 2.0 && p.Y2 == h / 2.0
    ensures p.W1 == -bw * h * h / 6.0 && p.W2 == bw * h * h / 6.0
  {
    RectangleCentroid(bw, h, p.Xg, p.Yg);
    RectangleCentroidal(bw, h, p.Xg, p.Yg);
    assert p.Ixg == bw * h * h * h / 12.0;
    RectangleModuli(bw, h, p);
  }

  lemma RectangleCentroid(bw: real, h: real, xg: real, yg: real)
    requires bw > 0.0 && h > 0.0
    requires var m := Block(0.0, bw, 0.0, h); xg * m.A == m.Sy && yg * m.A == m.Sx
    ensures xg == bw / 2.0 && yg == h / 2.0
  {
    assert (xg - bw / 2.0) * (bw * h) == 0.0;
    assert (yg - h / 2.0) * (bw * h) == 0.0;
  }

  lemma RectangleCentroidal(bw: real, h: real, xg: real, yg: real)
    requires xg == bw / 2.0 && yg == h / 2.0
    ensures var c := Block(0.0, bw, 0.0, h).Shifted(-xg, -yg);
            c.Ix == bw * h * h * h / 12.0 && c.Iy == bw * bw * bw * h / 12.0 && c.Ixy == 0.0
  {
  }

  lemma RectangleModuli(bw: real, h: real, p: Props)
    requires bw > 0.0 && h > 0.0 && p.Yg == h / 2.0 && p.Ixg == bw * h * h * h / 12.0
    requires p.Y1 == 0.0 - p.Yg && p.Y2 == h - p.Yg
    requires p.W1 * p.Y1 == p.Ixg && p.W2 * p.Y2 == p.Ixg
    ensures p.Y1 == -h / 2.0 && p.Y2 == h / 2.0
    ensures p.W1 == -bw * h * h / 6.0 && p.W2 == bw * h * h / 6.0
  {
    assert (p.W1 + bw * h * h / 6.0) * h == 0.0;
    assert (p.W2 - bw * h * h / 6.0) * h == 0.0;
  }

  /** A bw × h rectangle with positive sides: the engine's result is the
      textbook one. */
  lemma RectangleSection(bw: real, h: real, p: Props)
    requires bw > 0.0 && h > 0.0 && Compute(Rectangular(bw, h)) == Success(p)
    ensures p.A == bw * h && p.Sx == bw * h * h / 2.0 && p.Sy == bw * bw * h / 2.0
    ensures p.Ix == bw * h * h * h / 3.0 && p.Iy == bw * bw * bw * h / 3.0 && p.Ixy == bw * bw * h * h / 4.0
    ensures p.Xg == bw / 2.0 && p.Yg == h / 2.0
    ensures p.Ixg == bw * h * h * h / 12.0 && p.Iyg == bw * bw * bw * h / 12.0 && p.Ixyg == 0.0
    ensures p.Xmin == 0.0 && p.Xmax == bw && p.Ymin == 0.0 && p.Ymax == h
    ensures p.Base == bw && p.Height == h
    ensures p.Y1 == -h / 2.0 && p.Y2 == h / 2.0
    ensures p.W1 == -bw * h * h / 6.0 && p.W2 == bw * h * h / 6.0
  {
    Described(Rectangular(bw, h), p);
    RectangleIntegrals(bw, h);
    RectangleEnvelope(bw, h);
    RectangleValues(bw, h, p);
  }

  // The rectangle of the repository's unit tests.

  lemma RectangleExampleSucceeds()
    ensures Compute(Rectangular(20.0, 60.0)).Success?
  {
    RectangleSucceeds(20.0, 60.0);
  }

  /** A 20 × 60 rectangle. */
  lemma RectangleExample(bw: real, h: real, p: Props)
    requires bw == 20.0 && h == 60.0 && Compute(Rectangular(bw, h)) == Success(p)
    ensures p.A == 1200.0 && p.Sx == 36000.0 && p.Sy == 12000.0
    ensures p.Ix == 1440000.0 && p.Iy == 160000.0 && p.Ixy == 360000.0
    ensures p.Xg == 10.0 && p.Yg == 30.0
    ensures p.Ixg == 360000.0 && p.Iyg == 40000.0 && p.Ixyg == 0.0
    ensures p.Y1 == -30.0 && p.Y2 == 30.0 && p.W1 == -12000.0 && p.W2 == 12000.0
    ensures p.Height == 60.0 && p.Base == 20.0 && p.Xmin == 0.0 && p.Xmax == 20.0
  {
    RectangleSection(bw, h, p);
    RectangleNumbers(bw, h, p);
  }

  lemma RectangleNumbers(bw: real, h: real, p: Props)
    requires bw == 20.0 && h == 60.0
    requires p.A == bw * h && p.Sx == bw * h * h / 2.0 && p.Sy == bw * bw * h / 2.0
    requires p.Ix == bw * h * h * h / 3.0 && p.Iy == bw * bw * bw * h / 3.0 && p.Ixy == bw * bw * h * h / 4.0
    requires p.Xg == bw / 2.0 && p.Yg == h / 2.0
    requires p.Ixg == bw * h * h * h / 12.0 && p.Iyg == bw * bw * bw * h / 12.0 && p.Ixyg == 0.0
    requires p.Xmin == 0.0 && p.Xmax == bw && p.Ymin == 0.0 && p.Ymax == h
    requires p.Base == bw && p.Height == h
    requires p.Y1 == -h / 2.0 && p.Y2 == h / 2.0
    requires p.W1 == -bw * h * h / 6.0 && p.W2 == bw * h * h / 6.0
    ensures p.A == 1200.0 && p.Sx == 36000.0 && p.Sy == 12000.0
    ensures p.Ix == 1440000.0 && p.Iy == 160000.0 && p.Ixy == 360000.0
    ensures p.Xg == 10.0 && p.Yg == 30.0
    ensures p.Ixg == 360000.0 && p.Iyg == 40000.0 && p.Ixyg == 0.0
    ensures p.Y1 == -30.0 && p.Y2 == 30.0 && p.W1 == -12000.0 && p.W2 == 12000.0
    ensures p.Height == 60.0 && p.Base == 20.0 && p.Xmin == 0.0 && p.Xmax == 20.0
  {
  }

  // Mirror symmetry: each outline, mirrored and traced backwards, is the
  // same outline started at another vertex.

  lemma TSymmetric(bf: real, hf: real, bw: real, h: real)
    ensures var ps := TWithoutCorbel(bf, hf, bw, h); MirrorAll(Reverse(ps)) == RotateBy(ps, 7)
  {
    var ps := TWithoutCorbel(bf, hf, bw, h);
    var qs, rs := MirrorAll(Reverse(ps)), RotateBy(ps, 7);
    assert forall i :: 0 <= i < 9 ==> qs[i] == rs[i];
  }

  lemma TCorbelSymmetric(bf: real, hf: real, bw: real, h: real, bmis: real, hmis: real)
    ensures var ps := TTriangularCorbel(bf, hf, bw, h, bmis, hmis); MirrorAll(Reverse(ps)) == RotateBy(ps, 1)
  {
    var ps := TTriangularCorbel(bf, hf, bw, h, bmis, hmis);
    var qs, rs := MirrorAll(Reverse(ps)), RotateBy(ps, 1);
    assert forall i :: 0 <= i < 11 ==> qs[i] == rs[i];
  }

  lemma ISymmetric(bf: real, hf: real, bw: real, h: real, bi: real, hi: real)
    ensures var ps := IWithoutCorbel(bf, hf, bw, h, bi, hi); MirrorAll(Reverse(ps)) == RotateBy(ps, 1)
  {
    var ps := IWithoutCorbel(bf, hf, bw, h, bi, hi);
    var qs, rs := MirrorAll(Reverse(ps)), RotateBy(ps, 1);
    assert forall i :: 0 <= i < 13 ==> qs[i] == rs[i];
  }

  lemma ICorbelSymmetric(bf: real, hf: real, bw: real, h: real, bi: real, hi: real,
                         bmissup: real, hmissup: real, bmisinf: real, hmisinf: real)
    ensures var ps := ITriangularCorbel(bf, hf, bw, h, bi, hi, bmissup, hmissup, bmisinf, hmisinf);
            MirrorAll(Reverse(ps)) == RotateBy(ps, 1)
  {
    var inf, sup := Drawn(bmisinf, hmisinf), Drawn(bmissup, hmissup);
    if inf && sup {
      ICorbelSymmetricBoth(bf, hf, bw, h, bi, hi, bmissup, hmissup, bmisinf, hmisinf);
    } else if inf {
      ICorbelSymmetricLower(bf, hf, bw, h, bi, hi, bmissup, hmissup, bmisinf, hmisinf);
    } else if sup {
      ICorbelSymmetricUpper(bf, hf, bw, h, bi, hi, bmissup, hmissup, bmisinf, hmisinf);
    } else {
      CorbelsNotDrawn(bf, hf, bw, h, bi, hi, bmissup, hmissup, bmisinf, hmisinf);
      ISymmetric(bf, hf, bw, h, bi, hi);
    }
  }

  lemma ICorbelSymmetricBoth(bf: real, hf: real, bw: real, h: real, bi: real, hi: real,
                         bmissup: real, hmissup: real, bmisinf: real, hmisinf: real)
    requires Drawn(bmisinf, hmisinf) && Drawn(bmissup, hmissup)
    ensures var ps := ITriangularCorbel(bf, hf, bw, h, bi, hi, bmissup, hmissup, bmisinf, hmisinf);
            MirrorAll(Reverse(ps)) == RotateBy(ps, 1)
  {
    var ps := ITriangularCorbel(bf, hf, bw, h, bi, hi, bmissup, hmissup, bmisinf, hmisinf);
    var qs, rs := MirrorAll(Reverse(ps)), RotateBy(ps, 1);
    assert forall i :: 0 <= i < |ps| ==> qs[i] == rs[i];
  }

  lemma ICorbelSymmetricLower(bf: real, hf: real, bw: real, h: real, bi: real, hi: real,
                         bmissup: real, hmissup: real, bmisinf: real, hmisinf: real)
    requires Drawn(bmisinf, hmisinf) && !Drawn(bmissup, hmissup)
    ensures var ps := ITriangularCorbel(bf, hf, bw, h, bi, hi, bmissup, hmissup, bmisinf, hmisinf);
            MirrorAll(Reverse(ps)) == RotateBy(ps, 1)
  {
    var ps := ITriangularCorbel(bf, hf, bw, h, bi, hi, bmissup, hmissup, bmisinf, hmisinf);
    var qs, rs := MirrorAll(Reverse(ps)), RotateBy(ps, 1);
    assert forall i :: 0 <= i < |ps| ==> qs[i] == rs[i];
  }

  lemma ICorbelSymmetricUpper(bf: real, hf: real, bw: real, h: real, bi: real, hi: real,
                         bmissup: real, hmissup: real, bmisinf: real, hmisinf: real)
    requires !Drawn(bmisinf, hmisinf) && Drawn(bmissup, hmissup)
    ensures var ps := ITriangularCorbel(bf, hf, bw, h, bi, hi, bmissup, hmissup, bmisinf, hmisinf);
            MirrorAll(Reverse(ps)) == RotateBy(ps, 1)
  {
    var ps := ITriangularCorbel(bf, hf, bw, h, bi, hi, bmissup, hmissup, bmisinf, hmisinf);
    var qs, rs := MirrorAll(Reverse(ps)), RotateBy(ps, 1);
    assert forall i :: 0 <= i < |ps| ==> qs[i] == rs[i];
  }

  /** Whatever the haunches, a T section with haunches that has its
      properties has its centroid on the axis of symmetry and no product of
      inertia, about the origin or about the centroid. */
  lemma TCorbelSection(bf: real, hf: real, bw: real, h: real, bmis: real, hmis: real, p: Props)
    requires Compute(TTriangularCorbel(bf, hf, bw, h, bmis, hmis)) == Success(p)
    ensures p.Sy == 0.0 && p.Ixy == 0.0 && p.Xg == 0.0 && p.Ixyg == 0.0
  {
    TCorbelSymmetric(bf, hf, bw, h, bmis, hmis);
    SymmetricSection(TTriangularCorbel(bf, hf, bw, h, bmis, hmis), 1, p);
  }

  /** The same for an I section with haunches, drawn or not. */
  lemma ICorbelSection(bf: real, hf: real, bw: real, h: real, bi: real, hi: real,
                       bmissup: real, hmissup: real, bmisinf: real, hmisinf: real, p: Props)
    requires Compute(ITriangularCorbel(bf, hf, bw, h, bi, hi, bmissup, hmissup, bmisinf, hmisinf)) == Success(p)
    ensures p.Sy == 0.0 && p.Ixy == 0.0 && p.Xg == 0.0 && p.Ixyg == 0.0
  {
    ICorbelSymmetric(bf, hf, bw, h, bi, hi, bmissup, hmissup, bmisinf, hmisinf);
    SymmetricSection(ITriangularCorbel(bf, hf, bw, h, bi, hi, bmissup, hmissup, bmisinf, hmisinf), 1, p);
  }

  /** Without haunches the I section with haunches is the plain I section,
      vertex for vertex. */
  lemma CorbelsNotDrawn(bf: real, hf: real, bw: real, h: real, bi: real, hi: real,
                        bmissup: real, hmissup: real, bmisinf: real, hmisinf: real)
    requires !Drawn(bmisinf, hmisinf) && !Drawn(bmissup, hmissup)
    ensures ITriangularCorbel(bf, hf, bw, h, bi, hi, bmissup, hmissup, bmisinf, hmisinf)
            == IWithoutCorbel(bf, hf, bw, h, bi, hi)
  {
  }

  /** With empty haunches the T section with haunches draws each haunch
      corner twice and starts at another corner, which changes nothing: the
      engine gives the plain T section's result. */
  lemma EmptyHaunches(bf: real, hf: real, bw: real, h: real)
    ensures Compute(TTriangularCorbel(bf, hf, bw, h, 0.0, 0.0)) == Compute(TWithoutCorbel(bf, hf, bw, h))
  {
    EmptyHaunchOutline(bf, hf, bw, h);
    SameSumsSameResult(TTriangularCorbel(bf, hf, bw, h, 0.0, 0.0), TWithoutCorbel(bf, hf, bw, h));
  }

  /** The two outlines have the same integrals and the same envelope. */
  lemma EmptyHaunchOutline(bf: real, hf: real, bw: real, h: real)
    ensures var c, t := TTriangularCorbel(bf, hf, bw, h, 0.0, 0.0), TWithoutCorbel(bf, hf, bw, h);
            Integrate(c) == Integrate(t) && Scan(c) == Scan(t)
  {
    var t := TWithoutCorbel(bf, hf, bw, h);
    var c := TTriangularCorbel(bf, hf, bw, h, 0.0, 0.0);
    var q := RotateBy(t, 7);
    var a, b, d, e := Point(-bw / 2.0, 0.0), Point(bw / 2.0, 0.0), Point(bw / 2.0, h - hf), Point(bf / 2.0, h - hf);
    var f, g, k, l := Point(bf / 2.0, h), Point(-bf / 2.0, h), Point(-bf / 2.0, h - hf), Point(-bw / 2.0, h - hf);
    assert q == [a, b, d, e, f, g, k, l, a];
    var q1 := q[..3] + q[2..];
    assert q1 == [a, b, d, d, e, f, g, k, l, a];
    assert c == [a, b, d, d, e, f, g, k, l, l, a];
    assert c == q1[..9] + q1[8..];
    IntegrateRepeat(q1, 8);
    IntegrateRepeat(q, 2);
    IntegrateRotate(t, 7);
    assert forall v :: v in c <==> v in t;
    ScanSameVertices(c, t);
  }

  // Where the centroid lies.

  /** A region of positive area whose centroid lies strictly between the
      levels lo and hi. */
  predicate Inside(m: Moments, lo: real, hi: real) {
    m.A > 0.0 && lo * m.A < m.Sx < hi * m.A
  }

  /** A rectangle of positive width between the levels lo and hi has its
      centroid strictly between them. */
  lemma BlockInside(x0: real, x1: real, y0: real, y1: real, hi: real)
    requires x0 < x1 && 0.0 <= y0 < y1 <= hi
    ensures Inside(Block(x0, x1, y0, y1), 0.0, hi)
  {
    var m := Block(x0, x1, y0, y1);
    StripInside(x1 - x0, y0, y1, 0.0, hi, m.A, m.Sx);
  }

  /** The area and first moment of a strip w wide between y0 and y1. */
  lemma StripInside(w: real, y0: real, y1: real, lo: real, hi: real, a: real, sx: real)
    requires w > 0.0 && lo <= y0 < y1 <= hi
    requires a == w * (y1 - y0) && sx == w * (y1 * y1 - y0 * y0) / 2.0
    ensures a > 0.0 && lo * a < sx < hi * a
  {
    var c := (y1 + y0) / 2.0;
    assert a > 0.0 by { PositiveProduct(w, y1 - y0); }
    assert sx == a * c by { assert y1 * y1 - y0 * y0 == (y1 - y0) * (y1 + y0); }
    ScaledBetween(a, c, lo, hi);
  }

  lemma PositiveProduct(a: real, b: real)
    requires a > 0.0 && b > 0.0
    ensures a * b > 0.0
  {
  }

  lemma ScaledBetween(k: real, c: real, lo: real, hi: real)
    requires k > 0.0 && lo < c < hi
    ensures lo * k < k * c < hi * k
  {
    assert k * c - lo * k == k * (c - lo);
    assert hi * k - k * c == k * (hi - c);
    PositiveProduct(k, c - lo);
    PositiveProduct(k, hi - c);
  }

  /** Two regions whose centroids lie between the same levels make one
      whose centroid does too. */
  lemma PlusInside(m: Moments, n: Moments, lo: real, hi: real)
    requires Inside(m, lo, hi) && Inside(n, lo, hi)
    ensures Inside(m.Plus(n), lo, hi)
  {
    assert lo * (m.A + n.A) == lo * m.A + lo * n.A;
    assert hi * (m.A + n.A) == hi * m.A + hi * n.A;
  }

  /** Such a region passes the engine's two division checks. */
  lemma InsideLevels(m: Moments, lo: real, hi: real)
    requires Inside(m, lo, hi)
    ensures m.A != 0.0 && CentroidY(m) != lo && CentroidY(m) != hi
  {
    OnLevel(m, lo);
    OnLevel(m, hi);
  }

  /** What the engine states about a region that is symmetric about the
      y axis and whose centroid lies strictly inside its envelope's
      height: the centroid is on the axis, the centroidal moments follow
      the parallel-axis theorem, and the fibre distances are those to the
      bottom and to the top. */
  lemma UprightSection(m: Moments, e: Envelope, p: Props)
    requires Describes(m, e, p) && Inside(m, e.Ymin, e.Ymax) && m.Sy == 0.0 && m.Ixy == 0.0
    ensures p.Xg == 0.0 && e.Ymin < p.Yg < e.Ymax
    ensures p.Ixg == p.Ix - p.Yg * p.Yg * p.A && p.Iyg == p.Iy && p.Ixyg == 0.0
    ensures p.Y1 == e.Ymin - p.Yg && p.Y2 == e.Ymax - p.Yg
    ensures p.Height == e.Ymax - e.Ymin
  {
    ZeroQuotient(p.Xg, m.A);
    ParallelAxis(m, p.Xg, p.Yg);
    assert (p.Yg - e.Ymin) * m.A > 0.0;
    assert (e.Ymax - p.Yg) * m.A > 0.0;
  }

  // The T section.

  /** The larger of two widths. */
  function Wider(b1: real, b2: real): (b: real)
    ensures b >= b1 && b >= b2 && (b == b1 || b == b2)
  {
    if b1 >= b2 then b1 else b2
  }

  lemma WiderAbsorbs(b1: real, b2: real)
    requires b2 <= b1
    ensures Wider(b1, b2) == b1
  {
  }

  /** A T section spans its wider part, flange or web, and the full
      depth. */
  lemma TEnvelope(bf: real, hf: real, bw: real, h: real)
    requires 0.0 <= bw && 0.0 <= bf && 0.0 <= hf <= h
    ensures Scan(TWithoutCorbel(bf, hf, bw, h)) == Some(Envelope(-Wider(bf, bw) / 2.0, Wider(bf, bw) / 2.0, 0.0, h))
  {
    var ps, e := TWithoutCorbel(bf, hf, bw, h), Envelope(-Wider(bf, bw) / 2.0, Wider(bf, bw) / 2.0, 0.0, h);
    if Wider(bf, bw) == bf {
      assert ps[4].x == e.Xmin && ps[3].x == e.Xmax;
    } else {
      assert ps[7].x == e.Xmin && ps[0].x == e.Xmax;
    }
    assert ps[0].y == e.Ymin && ps[3].y == e.Ymax;
    assert Tight(ps, e);
    TightUnique(ps, Scan(ps).value, e);
  }

  /** A T section with a positive web no wider than its flange, and a
      flange thinner than the whole depth, always has its properties. */
  lemma TSucceeds(bf: real, hf: real, bw: real, h: real)
    requires 0.0 < bw <= bf && 0.0 < hf < h
    ensures Compute(TWithoutCorbel(bf, hf, bw, h)).Success?
  {
    var ps, m, e := TWithoutCorbel(bf, hf, bw, h), TBlocks(bf, hf, bw, h), Envelope(-bf / 2.0, bf / 2.0, 0.0, h);
    TIntegrals(bf, hf, bw, h);
    TEnvelope(bf, hf, bw, h);
    SuccessCondition(ps, m, e);
    TInside(bf, hf, bw, h);
    InsideLevels(m, 0.0, h);
  }

  lemma TInside(bf: real, hf: real, bw: real, h: real)
    requires 0.0 < bw <= bf && 0.0 < hf < h
    ensures Inside(TBlocks(bf, hf, bw, h), 0.0, h)
  {
    BlockInside(-bw / 2.0, bw / 2.0, 0.0, h - hf, h);
    BlockInside(-bf / 2.0, bf / 2.0, h - hf, h, h);
    PlusInside(Block(-bw / 2.0, bw / 2.0, 0.0, h - hf), Block(-bf / 2.0, bf / 2.0, h - hf, h), 0.0, h);
  }

  /** What the engine gives for such a T section: the integrals of its web
      and flange, the centroid on the axis of symmetry, the centroidal
      moments by the parallel-axis theorem, the fibres at the bottom and the
      top of the web and the flange. */
  lemma TSection(bf: real, hf: real, bw: real, h: real, p: Props)
    requires 0.0 < bw <= bf && 0.0 < hf < h
    requires Compute(TWithoutCorbel(bf, hf, bw, h)) == Success(p)
    ensures Moments(p.A, p.Sx, p.Sy, p.Ix, p.Iy, p.Ixy) == TBlocks(bf, hf, bw, h)
    ensures p.Xg == 0.0 && 0.0 < p.Yg < h && p.Yg * p.A == p.Sx
    ensures p.Ixg == p.Ix - p.Yg * p.Yg * p.A && p.Iyg == p.Iy && p.Ixyg == 0.0
    ensures p.Xmin == -bf / 2.0 && p.Xmax == bf / 2.0 && p.Ymin == 0.0 && p.Ymax == h
    ensures p.Base == bf && p.Height == h
    ensures p.Y1 == -p.Yg && p.Y2 == h - p.Yg
    ensures p.W1 * p.Y1 == p.Ixg && p.W2 * p.Y2 == p.Ixg
  {
    Described(TWithoutCorbel(bf, hf, bw, h), p);
    TIntegrals(bf, hf, bw, h);
    TEnvelope(bf, hf, bw, h);
    TValues(bf, hf, bw, h, p);
  }

  lemma TValues(bf: real, hf: real, bw: real, h: real, p: Props)
    requires 0.0 < bw <= bf && 0.0 < hf < h
    requires Describes(TBlocks(bf, hf, bw, h), Envelope(-bf / 2.0, bf / 2.0, 0.0, h), p)
    ensures Moments(p.A, p.Sx, p.Sy, p.Ix, p.Iy, p.Ixy) == TBlocks(bf, hf, bw, h)
    ensures p.Xg == 0.0 && 0.0 < p.Yg < h && p.Yg * p.A == p.Sx
    ensures p.Ixg == p.Ix - p.Yg * p.Yg * p.A && p.Iyg == p.Iy && p.Ixyg == 0.0
    ensures p.Xmin == -bf / 2.0 && p.Xmax == bf / 2.0 && p.Ymin == 0.0 && p.Ymax == h
    ensures p.Base == bf && p.Height == h
    ensures p.Y1 == -p.Yg && p.Y2 == h - p.Yg
    ensures p.W1 * p.Y1 == p.Ixg && p.W2 * p.Y2 == p.Ixg
  {
    TInside(bf, hf, bw, h);
    UprightSection(TBlocks(bf, hf, bw, h), Envelope(-bf / 2.0, bf / 2.0, 0.0, h), p);
  }

  // The I section.

  /** Proper I dimensions: positive widths with the web no wider than
      either flange, and positive thicknesses that fit in the depth. */
  predicate IProper(bf: real, hf: real, bw: real, h: real, bi: real, hi: real) {
    0.0 < bw <= bf && bw <= bi && 0.0 < hi && 0.0 < hf && hi + hf < h
  }

  /** An I section spans its widest part, either flange or the web, and
      the full depth. */
  lemma IEnvelope(bf: real, hf: real, bw: real, h: real, bi: real, hi: real)
    requires 0.0 <= bw && 0.0 <= bf && 0.0 <= bi && 0.0 <= hi && 0.0 <= hf && hi + hf <= h
    ensures Scan(IWithoutCorbel(bf, hf, bw, h, bi, hi))
            == Some(Envelope(-Wider(Wider(bf, bi), bw) / 2.0, Wider(Wider(bf, bi), bw) / 2.0, 0.0, h))
  {
    var ps := IWithoutCorbel(bf, hf, bw, h, bi, hi);
    var e := Envelope(-Wider(Wider(bf, bi), bw) / 2.0, Wider(Wider(bf, bi), bw) / 2.0, 0.0, h);
    IContains(bf, hf, bw, h, bi, hi, e);
    IAttains(bf, hf, bw, h, bi, hi, e);
    TightUnique(ps, Scan(ps).value, e);
  }

  lemma IContains(bf: real, hf: real, bw: real, h: real, bi: real, hi: real, e: Envelope)
    requires 0.0 <= bw && 0.0 <= bf && 0.0 <= bi && 0.0 <= hi && 0.0 <= hf && hi + hf <= h
    requires e == Envelope(-Wider(Wider(bf, bi), bw) / 2.0, Wider(Wider(bf, bi), bw) / 2.0, 0.0, h)
    ensures Contains(IWithoutCorbel(bf, hf, bw, h, bi, hi), e)
  {
  }

  lemma IAttains(bf: real, hf: real, bw: real, h: real, bi: real, hi: real, e: Envelope)
    requires e == Envelope(-Wider(Wider(bf, bi), bw) / 2.0, Wider(Wider(bf, bi), bw) / 2.0, 0.0, h)
    ensures Attained(IWithoutCorbel(bf, hf, bw, h, bi, hi), e)
  {
    var ps := IWithoutCorbel(bf, hf, bw, h, bi, hi);
    if Wider(Wider(bf, bi), bw) == bw {
      assert ps[10].x == e.Xmin && ps[3].x == e.Xmax;
    } else if Wider(bf, bi) == bf {
      assert ps[7].x == e.Xmin && ps[6].x == e.Xmax;
    } else {
      assert ps[0].x == e.Xmin && ps[1].x == e.Xmax;
    }
    assert ps[0].y == e.Ymin && ps[6].y == e.Ymax;
  }

  /** With the web no wider than either flange, the wider flange sets the
      width. */
  lemma IProperEnvelope(bf: real, hf: real, bw: real, h: real, bi: real, hi: real)
    requires IProper(bf, hf, bw, h, bi, hi)
    ensures Scan(IWithoutCorbel(bf, hf, bw, h, bi, hi))
            == Some(Envelope(-Wider(bf, bi) / 2.0, Wider(bf, bi) / 2.0, 0.0, h))
  {
    var ps := IWithoutCorbel(bf, hf, bw, h, bi, hi);
    var e := Envelope(-Wider(bf, bi) / 2.0, Wider(bf, bi) / 2.0, 0.0, h);
    WiderAbsorbs(Wider(bf, bi), bw);
    IContains(bf, hf, bw, h, bi, hi, e);
    IAttains(bf, hf, bw, h, bi, hi, e);
    TightUnique(ps, Scan(ps).value, e);
  }

  lemma IInside(bf: real, hf: real, bw: real, h: real, bi: real, hi: real)
    requires IProper(bf, hf, bw, h, bi, hi)
    ensures Inside(IBlocks(bf, hf, bw, h, bi, hi), 0.0, h)
  {
    var b1, b2, b3 := Block(-bi / 2.0, bi / 2.0, 0.0, hi), Block(-bw / 2.0, bw / 2.0, hi, h - hf),
                      Block(-bf / 2.0, bf / 2.0, h - hf, h);
    BlockInside(-bi / 2.0, bi / 2.0, 0.0, hi, h);
    BlockInside(-bw / 2.0, bw / 2.0, hi, h - hf, h);
    BlockInside(-bf / 2.0, bf / 2.0, h - hf, h, h);
    PlusInside(b1, b2, 0.0, h);
    PlusInside(b1.Plus(b2), b3, 0.0, h);
  }

  /** A proper I section always has its properties. */
  lemma ISucceeds(bf: real, hf: real, bw: real, h: real, bi: real, hi: real)
    requires IProper(bf, hf, bw, h, bi, hi)
    ensures Compute(IWithoutCorbel(bf, hf, bw, h, bi, hi)).Success?
  {
    var ps, m := IWithoutCorbel(bf, hf, bw, h, bi, hi), IBlocks(bf, hf, bw, h, bi, hi);
    var e := Envelope(-Wider(bf, bi) / 2.0, Wider(bf, bi) / 2.0, 0.0, h);
    IIntegrals(bf, hf, bw, h, bi, hi);
    IProperEnvelope(bf, hf, bw, h, bi, hi);
    SuccessCondition(ps, m, e);
    IInside(bf, hf, bw, h, bi, hi);
    InsideLevels(m, 0.0, h);
  }

  /** What the engine gives for a proper I section: the integrals of its
      three rectangles, the centroid on the axis of symmetry, the centroidal
      moments by the parallel-axis theorem, the fibres at the bottom and the
      top. */
  lemma ISection(bf: real, hf: real, bw: real, h: real, bi: real, hi: real, p: Props)
    requires IProper(bf, hf, bw, h, bi, hi)
    requires Compute(IWithoutCorbel(bf, hf, bw, h, bi, hi)) == Success(p)
    ensures Moments(p.A, p.Sx, p.Sy, p.Ix, p.Iy, p.Ixy) == IBlocks(bf, hf, bw, h, bi, hi)
    ensures p.Xg == 0.0 && 0.0 < p.Yg < h && p.Yg * p.A == p.Sx
    ensures p.Ixg == p.Ix - p.Yg * p.Yg * p.A && p.Iyg == p.Iy && p.Ixyg == 0.0
    ensures p.Xmin == -Wider(bf, bi) / 2.0 && p.Xmax == Wider(bf, bi) / 2.0 && p.Ymin == 0.0 && p.Ymax == h
    ensures p.Base == Wider(bf, bi) && p.Height == h
    ensures p.Y1 == -p.Yg && p.Y2 == h - p.Yg
    ensures p.W1 * p.Y1 == p.Ixg && p.W2 * p.Y2 == p.Ixg
  {
    Described(IWithoutCorbel(bf, hf, bw, h, bi, hi), p);
    IIntegrals(bf, hf, bw, h, bi, hi);
    IProperEnvelope(bf, hf, bw, h, bi, hi);
    IValues(bf, hf, bw, h, bi, hi, p);
  }

  lemma IValues(bf: real, hf: real, bw: real, h: real, bi: real, hi: real, p: Props)
    requires IProper(bf, hf, bw, h, bi, hi)
    requires Describes(IBlocks(bf, hf, bw, h, bi, hi), Envelope(-Wider(bf, bi) / 2.0, Wider(bf, bi) / 2.0, 0.0, h), p)
    ensures Moments(p.A, p.Sx, p.Sy, p.Ix, p.Iy, p.Ixy) == IBlocks(bf, hf, bw, h, bi, hi)
    ensures p.Xg == 0.0 && 0.0 < p.Yg < h && p.Yg * p.A == p.Sx
    ensures p.Ixg == p.Ix - p.Yg * p.Yg * p.A && p.Iyg == p.Iy && p.Ixyg == 0.0
    ensures p.Xmin == -Wider(bf, bi) / 2.0 && p.Xmax == Wider(bf, bi) / 2.0 && p.Ymin == 0.0 && p.Ymax == h
    ensures p.Base == Wider(bf, bi) && p.Height == h
    ensures p.Y1 == -p.Yg && p.Y2 == h - p.Yg
    ensures p.W1 * p.Y1 == p.Ixg && p.W2 * p.Y2 == p.Ixg
  {
    IInside(bf, hf, bw, h, bi, hi);
    UprightSection(IBlocks(bf, hf, bw, h, bi, hi), Envelope(-Wider(bf, bi) / 2.0, Wider(bf, bi) / 2.0, 0.0, h), p);
  }

  // The T and I sections of the repository's unit tests.

  lemma TExampleSucceeds()
    ensures Compute(TWithoutCorbel(60.0, 9.0, 12.0, 40.0)).Success?
  {
    TSucceeds(60.0, 9.0, 12.0, 40.0);
  }

  /** A T section with a 60 × 9 flange on a web 12 wide, 40 deep in all. */
  lemma TExample(bf: real, hf: real, bw: real, h: real, p: Props)
    requires bf == 60.0 && hf == 9.0 && bw == 12.0 && h == 40.0
    requires Compute(TWithoutCorbel(bf, hf, bw, h)) == Success(p)
    ensures p.A == 912.0 && p.Sx == 24936.0 && p.Sy == 0.0
    ensures p.Ix == 803344.0 && p.Iy == 166464.0 && p.Ixy == 0.0
    ensures p.Xg == 0.0 && p.Yg * 38.0 == 1039.0
    ensures p.Ixg * 19.0 == 2309284.0 && p.Iyg == 166464.0 && p.Ixyg == 0.0
    ensures p.Y1 * 38.0 == -1039.0 && p.Y2 * 38.0 == 481.0
    ensures p.W1 * 1039.0 == -4618568.0 && p.W2 * 481.0 == 4618568.0
    ensures p.Height == 40.0 && p.Base == 60.0 && p.Xmin == -30.0 && p.Xmax == 30.0
  {
    TSection(bf, hf, bw, h, p);
    TExampleBlocks();
    TNumbers(p);
  }

  lemma TNumbers(p: Props)
    requires p.A == 912.0 && p.Sx == 24936.0 && p.Ix == 803344.0
    requires p.Yg * p.A == p.Sx && p.Ixg == p.Ix - p.Yg * p.Yg * p.A
    requires p.Y1 == -p.Yg && p.Y2 == 40.0 - p.Yg
    requires p.W1 * p.Y1 == p.Ixg && p.W2 * p.Y2 == p.Ixg
    ensures p.Yg * 38.0 == 1039.0 && p.Ixg * 19.0 == 2309284.0
    ensures p.Y1 * 38.0 == -1039.0 && p.Y2 * 38.0 == 481.0
    ensures p.W1 * 1039.0 == -4618568.0 && p.W2 * 481.0 == 4618568.0
  {
  }

  lemma IExampleSucceeds()
    ensures Compute(IWithoutCorbel(80.0, 20.0, 20.0, 120.0, 60.0, 20.0)).Success?
  {
    ISucceeds(80.0, 20.0, 20.0, 120.0, 60.0, 20.0);
  }

  /** An I section with an 80 × 20 top flange, a 60 × 20 bottom flange and
      a web 20 wide, 120 deep in all. */
  lemma IExample(bf: real, hf: real, bw: real, h: real, bi: real, hi: real, p: Props)
    requires bf == 80.0 && hf == 20.0 && bw == 20.0 && h == 120.0 && bi == 60.0 && hi == 20.0
    requires Compute(IWithoutCorbel(bf, hf, bw, h, bi, hi)) == Success(p)
    ensures p.A == 4400.0 && p.Sx == 284000.0 && p.Sy == 0.0
    ensures p.Ix * 3.0 == 78560000.0 && p.Iy * 3.0 == 3800000.0 && p.Ixy == 0.0
    ensures p.Xg == 0.0 && p.Yg * 11.0 == 710.0
    ensures p.Ixg * 33.0 == 259240000.0 && p.Iyg * 3.0 == 3800000.0 && p.Ixyg == 0.0
    ensures p.Y1 * 11.0 == -710.0 && p.Y2 * 11.0 == 610.0
    ensures p.W1 * 213.0 == -25924000.0 && p.W2 * 183.0 == 25924000.0
    ensures p.Height == 120.0 && p.Base == 80.0 && p.Xmin == -40.0 && p.Xmax == 40.0
  {
    ISection(bf, hf, bw, h, bi, hi, p);
    IExampleBlocks();
    INumbers(p);
  }

  lemma INumbers(p: Props)
    requires p.A == 4400.0 && p.Sx == 284000.0 && p.Ix * 3.0 == 78560000.0
    requires p.Yg * p.A == p.Sx && p.Ixg == p.Ix - p.Yg * p.Yg * p.A
    requires p.Y1 == -p.Yg && p.Y2 == 120.0 - p.Yg
    requires p.W1 * p.Y1 == p.Ixg && p.W2 * p.Y2 == p.Ixg
    ensures p.Yg * 11.0 == 710.0 && p.Ixg * 33.0 == 259240000.0
    ensures p.Y1 * 11.0 == -710.0 && p.Y2 * 11.0 == 610.0
    ensures p.W1 * 213.0 == -25924000.0 && p.W2 * 183.0 == 25924000.0
  {
  }

  /** The examples' stacks of rectangles, evaluated. */
  lemma TExampleBlocks()
    ensures TBlocks(60.0, 9.0, 12.0, 40.0) == Moments(912.0, 24936.0, 0.0, 803344.0, 166464.0, 0.0)
  {
  }

  lemma IExampleBlocks()
    ensures var m := IBlocks(80.0, 20.0, 20.0, 120.0, 60.0, 20.0);
            m.A == 4400.0 && m.Sx == 284000.0 && m.Sy == 0.0 && m.Ix * 3.0 == 78560000.0
            && m.Iy * 3.0 == 3800000.0 && m.Ixy == 0.0
  {
  }
}
