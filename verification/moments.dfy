/** The six area integrals and the closed-form contribution of one edge
    to each of them (Green's theorem applied to a straight segment). */
module Moments {
  import opened Geometry

  /** Area, first moments and second moments about the global origin:
      A = ∫dA, Sx = ∫y dA, Sy = ∫x dA, Ix = ∫y² dA, Iy = ∫x² dA, Ixy = ∫xy dA. */
  datatype Moments = Moments(A: real, Sx: real, Sy: real, Ix: real, Iy: real, Ixy: real)
  {
    function Plus(o: Moments): Moments {
      Moments(A + o.A, Sx + o.Sx, Sy + o.Sy, Ix + o.Ix, Iy + o.Iy, Ixy + o.Ixy)
    }

    function Minus(o: Moments): Moments {
      Moments(A - o.A, Sx - o.Sx, Sy - o.Sy, Ix - o.Ix, Iy - o.Iy, Ixy - o.Ixy)
    }

    function Neg(): Moments {
      Moments(-A, -Sx, -Sy, -Ix, -Iy, -Ixy)
    }

    /** The same region's integrals once it has been reflected in x = 0
        (the orientation flips, and so do the odd powers of x). */
    function Mirrored(): Moments {
      Moments(-A, -Sx, Sy, -Ix, -Iy, Ixy)
    }

    /** The same region's integrals once every point has been moved by (a, b),
        as the binomial expansion of (x + a) and (y + b) gives them. */
    function Shifted(a: real, b: real): Moments {
      Moments(A,
              Sx + b * A,
              Sy + a * A,
              Ix + 2.0 * b * Sx + b * b * A,
              Iy + 2.0 * a * Sy + a * a * A,
              Ixy + a * Sx + b * Sy + a * b * A)
    }
  }

  const Zero := Moments(0.0, 0.0, 0.0, 0.0, 0.0, 0.0)

  // Algebra of the six-integral record, used to keep sums of edge terms linear.

  lemma PlusZero(m: Moments)
    ensures m.Plus(Zero) == m && Zero.Plus(m) == m
  {
  }

  lemma ZeroShifted(a: real, b: real)
    ensures Zero.Shifted(a, b) == Zero
  {
    assert a * 0.0 == 0.0 && b * 0.0 == 0.0 && a * b * 0.0 == 0.0;
    assert 2.0 * a * 0.0 == 0.0 && 2.0 * b * 0.0 == 0.0;
    assert a * a * 0.0 == 0.0 && b * b * 0.0 == 0.0;
  }

  lemma MinusSelf(m: Moments)
    ensures m.Minus(m) == Zero
  {
  }

  /** A vertical shift followed by a horizontal one is the combined shift. */
  lemma ShiftedTwice(m: Moments, a: real, b: real)
    ensures m.Shifted(0.0, b).Shifted(a, 0.0) == m.Shifted(a, b)
  {
    var v := m.Shifted(0.0, b);
    var l, r := v.Shifted(a, 0.0), m.Shifted(a, b);
    assert v.Sy == m.Sy && v.Iy == m.Iy by {
      assert 0.0 * m.A == 0.0 && 2.0 * 0.0 * m.Sy == 0.0 && 0.0 * 0.0 * m.A == 0.0;
    }
    assert l.Sy == r.Sy;
    assert l.Iy == r.Iy;
    assert l.Ixy == r.Ixy by {
      assert a * (m.Sx + b * m.A) == a * m.Sx + a * b * m.A;
    }
  }

  /** Shifting a sum is summing the shifts: the shift is linear in the integrals. */
  lemma ShiftedPlus(m: Moments, o: Moments, a: real, b: real)
    ensures m.Plus(o).Shifted(a, b) == m.Shifted(a, b).Plus(o.Shifted(a, b))
  {
    ShiftedPlusSx(m, o, a, b);
    ShiftedPlusSy(m, o, a, b);
    ShiftedPlusIx(m, o, a, b);
    ShiftedPlusIy(m, o, a, b);
    ShiftedPlusIxy(m, o, a, b);
  }

  lemma ShiftedPlusSx(m: Moments, o: Moments, a: real, b: real)
    ensures m.Plus(o).Shifted(a, b).Sx == m.Shifted(a, b).Sx + o.Shifted(a, b).Sx
  {
    Distributes(b, m.A, o.A);
  }

  lemma ShiftedPlusSy(m: Moments, o: Moments, a: real, b: real)
    ensures m.Plus(o).Shifted(a, b).Sy == m.Shifted(a, b).Sy + o.Shifted(a, b).Sy
  {
    Distributes(a, m.A, o.A);
  }

  lemma ShiftedPlusIx(m: Moments, o: Moments, a: real, b: real)
    ensures m.Plus(o).Shifted(a, b).Ix == m.Shifted(a, b).Ix + o.Shifted(a, b).Ix
  {
    Distributes(2.0 * b, m.Sx, o.Sx);
    Distributes(b * b, m.A, o.A);
  }

  lemma ShiftedPlusIy(m: Moments, o: Moments, a: real, b: real)
    ensures m.Plus(o).Shifted(a, b).Iy == m.Shifted(a, b).Iy + o.Shifted(a, b).Iy
  {
    Distributes(2.0 * a, m.Sy, o.Sy);
    Distributes(a * a, m.A, o.A);
  }

  lemma ShiftedPlusIxy(m: Moments, o: Moments, a: real, b: real)
    ensures m.Plus(o).Shifted(a, b).Ixy == m.Shifted(a, b).Ixy + o.Shifted(a, b).Ixy
  {
    Distributes(a, m.Sx, o.Sx);
    Distributes(b, m.Sy, o.Sy);
    Distributes(a * b, m.A, o.A);
  }

  lemma Distributes(c: real, x: real, y: real)
    ensures c * (x + y) == c * x + c * y
  {
  }

  lemma MirroredPlus(m: Moments, o: Moments)
    ensures m.Plus(o).Mirrored() == m.Mirrored().Plus(o.Mirrored())
  {
  }

  lemma NegPlus(m: Moments, o: Moments)
    ensures m.Plus(o).Neg() == o.Neg().Plus(m.Neg())
  {
  }

  /** Integrals equal to their own reflected negation have no odd part in x. */
  lemma SelfReflected(m: Moments, r: Moments)
    requires r == m.Neg().Mirrored()
    requires r == m
    ensures m.Sy == 0.0 && m.Ixy == 0.0
  {
  }

  lemma PlusCommutes(m: Moments, o: Moments)
    ensures m.Plus(o).Plus(Zero) == o.Plus(m)
  {
  }

  lemma PlusAssociates(m: Moments, o: Moments, p: Moments)
    ensures m.Plus(o).Plus(p) == m.Plus(o.Plus(p))
  {
  }

  lemma PlusRearranged(s: Moments, d: Moments, e: Moments, t: Moments)
    ensures s.Plus(d).Plus(e.Plus(t)) == s.Plus(e).Plus(t).Plus(d)
  {
  }

  /** Two consecutive potential differences collapse into one. */
  lemma TelescopeStep(s: Moments, e: Moments, p0: Moments, p1: Moments, p2: Moments)
    ensures s.Plus(p1.Minus(p0)).Plus(e.Plus(p2.Minus(p1))) == s.Plus(e).Plus(p2.Minus(p0))
  {
  }

  // The six per-edge accumulators, in the engine's own formula structure
  // (powers written as repeated products).

  function AreaTerm(l: Line): real {
    (l.X0 + l.Dx / 2.0) * l.Dy
  }

  function SxTerm(l: Line): real {
    (l.X0 * (l.Y0 + l.Dy / 2.0) + l.Dx * (l.Y0 / 2.0 + l.Dy / 3.0)) * l.Dy
  }

  function SyTerm(l: Line): real {
    (l.X0 * (l.X0 + l.Dx) + l.Dx * l.Dx / 3.0) * l.Dy / 2.0
  }

  function IxTerm(l: Line): real {
    (l.X0 * (l.Y0 * (l.Dy + l.Y0) + l.Dy * l.Dy / 3.0)
     + l.Dx * (l.Y0 * (l.Y0 / 2.0 + 2.0 * l.Dy / 3.0) + l.Dy * l.Dy / 4.0)) * l.Dy
  }

  function IyTerm(l: Line): real {
    (l.Dx * l.Dx * l.Dx / 4.0 + l.X0 * (l.Dx * l.Dx + l.X0 * (3.0 * l.Dx / 2.0 + l.X0))) * l.Dy / 3.0
  }

  function IxyTerm(l: Line): real {
    (l.X0 * (l.X0 * (l.Y0 + l.Dy / 2.0) + l.Dx * (l.Y0 + 2.0 * l.Dy / 3.0))
     + l.Dx * l.Dx * (l.Y0 / 3.0 + l.Dy / 4.0)) * l.Dy / 2.0
  }

  /** The contribution of one edge to all six integrals. */
  function EdgeTerms(l: Line): (m: Moments)
    ensures l.Dy == 0.0 ==> m == Zero
  {
    Moments(AreaTerm(l), SxTerm(l), SyTerm(l), IxTerm(l), IyTerm(l), IxyTerm(l))
  }

  /** The contribution of the edge from `p0` to `p1`. */
  function EdgeMoments(p0: Point, p1: Point): Moments {
    EdgeTerms(EdgeOf(p0, p1))
  }

  /** Twice the signed area of the triangle (origin, p0, p1). */
  function Cross(p0: Point, p1: Point): real {
    p0.x * p1.y - p1.x * p0.y
  }

  // Reference definition: the signed integrals over the triangle
  // (origin, p0, p1). Summed over a closed outline these are the classical
  // polygon formulas for area, first and second moments.

  function FanA(p0: Point, p1: Point): real {
    Cross(p0, p1) / 2.0
  }

  function FanSx(p0: Point, p1: Point): real {
    Cross(p0, p1) * (p0.y + p1.y) / 6.0
  }

  function FanSy(p0: Point, p1: Point): real {
    Cross(p0, p1) * (p0.x + p1.x) / 6.0
  }

  function FanIx(p0: Point, p1: Point): real {
    Cross(p0, p1) * (p0.y * p0.y + p0.y * p1.y + p1.y * p1.y) / 12.0
  }

  function FanIy(p0: Point, p1: Point): real {
    Cross(p0, p1) * (p0.x * p0.x + p0.x * p1.x + p1.x * p1.x) / 12.0
  }

  function FanIxy(p0: Point, p1: Point): real {
    Cross(p0, p1) * (p0.x * p1.y + 2.0 * p0.x * p0.y + 2.0 * p1.x * p1.y + p1.x * p0.y) / 24.0
  }

  function FanTerms(p0: Point, p1: Point): Moments {
    Moments(FanA(p0, p1), FanSx(p0, p1), FanSy(p0, p1), FanIx(p0, p1), FanIy(p0, p1), FanIxy(p0, p1))
  }

  // A potential whose difference between an edge's end points is what the
  // edge formula and the triangle formula disagree by.

  function PotentialA(p: Point): real {
    p.x * p.y / 2.0
  }

  function PotentialSx(p: Point): real {
    p.x * p.y * p.y / 3.0
  }

  function PotentialSy(p: Point): real {
    p.x * p.x * p.y / 6.0
  }

  function PotentialIx(p: Point): real {
    p.x * p.y * p.y * p.y / 4.0
  }

  function PotentialIy(p: Point): real {
    p.x * p.x * p.x * p.y / 12.0
  }

  function PotentialIxy(p: Point): real {
    p.x * p.x * p.y * p.y / 8.0
  }

  function Potential(p: Point): Moments {
    Moments(PotentialA(p), PotentialSx(p), PotentialSy(p), PotentialIx(p), PotentialIy(p), PotentialIxy(p))
  }

  // The part of an edge's contribution, after a horizontal shift by a, that
  // depends only on the height of one end point: summed along an outline it
  // telescopes to its value at the last point minus that at the first.

  function EndA(p: Point, a: real): real {
    a * p.y
  }

  function EndSx(p: Point, a: real): real {
    a * p.y * p.y / 2.0
  }

  function EndSy(p: Point, a: real): real {
    a * a * p.y / 2.0
  }

  function EndIx(p: Point, a: real): real {
    a * p.y * p.y * p.y / 3.0
  }

  function EndIy(p: Point, a: real): real {
    a * a * a * p.y / 3.0
  }

  function EndIxy(p: Point, a: real): real {
    a * a * p.y * p.y / 4.0
  }

  function ShiftEnds(p: Point, a: real): Moments {
    Moments(EndA(p, a), EndSx(p, a), EndSy(p, a), EndIx(p, a), EndIy(p, a), EndIxy(p, a))
  }

  // The records above, field by field. The identities below are proved one
  // field at a time, on the real-valued functions, and the records are then
  // assembled by the abstract lemmas further down.

  lemma EdgeFields(p0: Point, p1: Point)
    ensures EdgeMoments(p0, p1).A == AreaTerm(EdgeOf(p0, p1))
    ensures EdgeMoments(p0, p1).Sx == SxTerm(EdgeOf(p0, p1))
    ensures EdgeMoments(p0, p1).Sy == SyTerm(EdgeOf(p0, p1))
    ensures EdgeMoments(p0, p1).Ix == IxTerm(EdgeOf(p0, p1))
    ensures EdgeMoments(p0, p1).Iy == IyTerm(EdgeOf(p0, p1))
    ensures EdgeMoments(p0, p1).Ixy == IxyTerm(EdgeOf(p0, p1))
  {
  }

  lemma FanFields(p0: Point, p1: Point)
    ensures FanTerms(p0, p1).A == FanA(p0, p1) && FanTerms(p0, p1).Sx == FanSx(p0, p1)
    ensures FanTerms(p0, p1).Sy == FanSy(p0, p1) && FanTerms(p0, p1).Ix == FanIx(p0, p1)
    ensures FanTerms(p0, p1).Iy == FanIy(p0, p1) && FanTerms(p0, p1).Ixy == FanIxy(p0, p1)
  {
  }

  lemma PotentialFields(p: Point)
    ensures Potential(p).A == PotentialA(p) && Potential(p).Sx == PotentialSx(p)
    ensures Potential(p).Sy == PotentialSy(p) && Potential(p).Ix == PotentialIx(p)
    ensures Potential(p).Iy == PotentialIy(p) && Potential(p).Ixy == PotentialIxy(p)
  {
  }

  lemma EndsFields(p: Point, a: real)
    ensures ShiftEnds(p, a).A == EndA(p, a) && ShiftEnds(p, a).Sx == EndSx(p, a)
    ensures ShiftEnds(p, a).Sy == EndSy(p, a) && ShiftEnds(p, a).Ix == EndIx(p, a)
    ensures ShiftEnds(p, a).Iy == EndIy(p, a) && ShiftEnds(p, a).Ixy == EndIxy(p, a)
  {
  }

  /** Multiplying equals by the same factor gives equals. */
  lemma Scaled(c: real, x: real, y: real)
    requires x == y
    ensures c * x == c * y
  {
  }

  // Reversal: each term is an integral along the edge, which changes sign
  // with the direction of travel.

  lemma AreaTermSwapped(p0: Point, p1: Point)
    ensures AreaTerm(EdgeOf(p1, p0)) == -AreaTerm(EdgeOf(p0, p1))
  {
  }

  lemma SxTermSwapped(p0: Point, p1: Point)
    ensures SxTerm(EdgeOf(p1, p0)) == -SxTerm(EdgeOf(p0, p1))
  {
  }

  lemma SyTermSwapped(p0: Point, p1: Point)
    ensures SyTerm(EdgeOf(p1, p0)) == -SyTerm(EdgeOf(p0, p1))
  {
  }

  lemma IxTermSwapped(p0: Point, p1: Point)
    ensures IxTerm(EdgeOf(p1, p0)) == -IxTerm(EdgeOf(p0, p1))
  {
  }

  lemma IyTermSwapped(p0: Point, p1: Point)
    ensures IyTerm(EdgeOf(p1, p0)) == -IyTerm(EdgeOf(p0, p1))
  {
  }

  lemma IxyTermSwapped(p0: Point, p1: Point)
    ensures IxyTerm(EdgeOf(p1, p0)) == -IxyTerm(EdgeOf(p0, p1))
  {
  }

  lemma AssembleNeg(m: Moments, r: Moments)
    requires r.A == -m.A && r.Sx == -m.Sx && r.Sy == -m.Sy
    requires r.Ix == -m.Ix && r.Iy == -m.Iy && r.Ixy == -m.Ixy
    ensures r == m.Neg()
  {
  }

  /** Swapping the end points negates every term. */
  lemma EdgeAntisymmetric(p0: Point, p1: Point)
    ensures EdgeMoments(p1, p0) == EdgeMoments(p0, p1).Neg()
  {
    EdgeFields(p0, p1);
    EdgeFields(p1, p0);
    AreaTermSwapped(p0, p1);
    SxTermSwapped(p0, p1);
    SyTermSwapped(p0, p1);
    IxTermSwapped(p0, p1);
    IyTermSwapped(p0, p1);
    IxyTermSwapped(p0, p1);
    AssembleNeg(EdgeMoments(p0, p1), EdgeMoments(p1, p0));
  }

  // Reflection in x = 0: the orientation flips, and so do the odd powers of x.

  lemma AreaTermMirrored(p0: Point, p1: Point)
    ensures AreaTerm(EdgeOf(Mirror(p0), Mirror(p1))) == -AreaTerm(EdgeOf(p0, p1))
  {
  }

  lemma SxTermMirrored(p0: Point, p1: Point)
    ensures SxTerm(EdgeOf(Mirror(p0), Mirror(p1))) == -SxTerm(EdgeOf(p0, p1))
  {
  }

  lemma SyTermMirrored(p0: Point, p1: Point)
    ensures SyTerm(EdgeOf(Mirror(p0), Mirror(p1))) == SyTerm(EdgeOf(p0, p1))
  {
  }

  lemma IxTermMirrored(p0: Point, p1: Point)
    ensures IxTerm(EdgeOf(Mirror(p0), Mirror(p1))) == -IxTerm(EdgeOf(p0, p1))
  {
  }

  lemma IyTermMirrored(p0: Point, p1: Point)
    ensures IyTerm(EdgeOf(Mirror(p0), Mirror(p1))) == -IyTerm(EdgeOf(p0, p1))
  {
  }

  lemma IxyTermMirrored(p0: Point, p1: Point)
    ensures IxyTerm(EdgeOf(Mirror(p0), Mirror(p1))) == IxyTerm(EdgeOf(p0, p1))
  {
  }

  lemma AssembleMirrored(m: Moments, r: Moments)
    requires r.A == -m.A && r.Sx == -m.Sx && r.Sy == m.Sy
    requires r.Ix == -m.Ix && r.Iy == -m.Iy && r.Ixy == m.Ixy
    ensures r == m.Mirrored()
  {
  }

  /** Reflecting an edge in x = 0 reflects its contribution. */
  lemma EdgeMirror(p0: Point, p1: Point)
    ensures EdgeMoments(Mirror(p0), Mirror(p1)) == EdgeMoments(p0, p1).Mirrored()
  {
    EdgeFields(p0, p1);
    EdgeFields(Mirror(p0), Mirror(p1));
    AreaTermMirrored(p0, p1);
    SxTermMirrored(p0, p1);
    SyTermMirrored(p0, p1);
    IxTermMirrored(p0, p1);
    IyTermMirrored(p0, p1);
    IxyTermMirrored(p0, p1);
    AssembleMirrored(EdgeMoments(p0, p1), EdgeMoments(Mirror(p0), Mirror(p1)));
  }

  // The comparison with the triangle formulas, one integral at a time: each
  // is a polynomial identity of degree up to five.

  lemma AreaTermVersusFan(p0: Point, p1: Point)
    ensures AreaTerm(EdgeOf(p0, p1)) == FanA(p0, p1) + (PotentialA(p1) - PotentialA(p0))
  {
  }

  lemma SxTermVersusFan(p0: Point, p1: Point)
    ensures SxTerm(EdgeOf(p0, p1)) == FanSx(p0, p1) + (PotentialSx(p1) - PotentialSx(p0))
  {
  }

  lemma SyTermVersusFan(p0: Point, p1: Point)
    ensures SyTerm(EdgeOf(p0, p1)) == FanSy(p0, p1) + (PotentialSy(p1) - PotentialSy(p0))
  {
  }

  lemma IxTermVersusFan(p0: Point, p1: Point)
    ensures IxTerm(EdgeOf(p0, p1)) == FanIx(p0, p1) + (PotentialIx(p1) - PotentialIx(p0))
  {
  }

  lemma IyTermVersusFan(p0: Point, p1: Point)
    ensures IyTerm(EdgeOf(p0, p1)) == FanIy(p0, p1) + (PotentialIy(p1) - PotentialIy(p0))
  {
  }

  lemma IxyTermVersusFan(p0: Point, p1: Point)
    ensures IxyTerm(EdgeOf(p0, p1)) == FanIxy(p0, p1) + (PotentialIxy(p1) - PotentialIxy(p0))
  {
  }

  lemma AssembleFan(e: Moments, f: Moments, p: Moments, q: Moments)
    requires e.A == f.A + (q.A - p.A) && e.Sx == f.Sx + (q.Sx - p.Sx) && e.Sy == f.Sy + (q.Sy - p.Sy)
    requires e.Ix == f.Ix + (q.Ix - p.Ix) && e.Iy == f.Iy + (q.Iy - p.Iy) && e.Ixy == f.Ixy + (q.Ixy - p.Ixy)
    ensures e == f.Plus(q.Minus(p))
  {
  }

  /** Each edge term is the triangle term plus a potential difference
      between the edge's end points. */
  lemma EdgeVersusFan(p0: Point, p1: Point)
    ensures EdgeMoments(p0, p1) == FanTerms(p0, p1).Plus(Potential(p1).Minus(Potential(p0)))
  {
    EdgeFields(p0, p1);
    FanFields(p0, p1);
    PotentialFields(p0);
    PotentialFields(p1);
    AreaTermVersusFan(p0, p1);
    SxTermVersusFan(p0, p1);
    SyTermVersusFan(p0, p1);
    IxTermVersusFan(p0, p1);
    IyTermVersusFan(p0, p1);
    IxyTermVersusFan(p0, p1);
    AssembleFan(EdgeMoments(p0, p1), FanTerms(p0, p1), Potential(p0), Potential(p1));
  }

  // The shift identities, first in the edge's own variables (start point and
  // deltas), where a moved edge keeps its deltas.

  /** The edge moved vertically by b. */
  function Raised(l: Line, b: real): Line {
    Line(l.X0, l.X1, l.Y0 + b, l.Y1 + b, l.Dx, l.Dy)
  }

  /** The edge moved horizontally by a. */
  function Moved(l: Line, a: real): Line {
    Line(l.X0 + a, l.X1 + a, l.Y0, l.Y1, l.Dx, l.Dy)
  }

  lemma RaisedEdge(p0: Point, p1: Point, b: real)
    ensures EdgeOf(Shift(p0, 0.0, b), Shift(p1, 0.0, b)) == Raised(EdgeOf(p0, p1), b)
  {
  }

  lemma MovedEdge(p0: Point, p1: Point, a: real)
    ensures EdgeOf(Shift(p0, a, 0.0), Shift(p1, a, 0.0)) == Moved(EdgeOf(p0, p1), a)
  {
  }

  lemma AreaTermRaised(l: Line, b: real)
    ensures AreaTerm(Raised(l, b)) == AreaTerm(l)
  {
  }

  lemma SxTermRaised(l: Line, b: real)
    ensures SxTerm(Raised(l, b)) == SxTerm(l) + b * AreaTerm(l)
  {
  }

  lemma SyTermRaised(l: Line, b: real)
    ensures SyTerm(Raised(l, b)) == SyTerm(l)
  {
  }

  lemma IxTermRaised(l: Line, b: real)
    ensures IxTerm(Raised(l, b)) == IxTerm(l) + 2.0 * b * SxTerm(l) + b * b * AreaTerm(l)
  {
  }

  lemma IyTermRaised(l: Line, b: real)
    ensures IyTerm(Raised(l, b)) == IyTerm(l)
  {
  }

  lemma IxyTermRaised(l: Line, b: real)
    ensures IxyTerm(Raised(l, b)) == IxyTerm(l) + b * SyTerm(l)
  {
  }

  lemma AreaTermMoved(l: Line, a: real)
    ensures AreaTerm(Moved(l, a)) == AreaTerm(l) + a * l.Dy
  {
  }

  lemma SxTermMoved(l: Line, a: real)
    ensures SxTerm(Moved(l, a)) == SxTerm(l) + a * (l.Y0 + l.Dy / 2.0) * l.Dy
  {
  }

  lemma SyTermMoved(l: Line, a: real)
    ensures SyTerm(Moved(l, a)) == SyTerm(l) + a * AreaTerm(l) + a * a * l.Dy / 2.0
  {
  }

  lemma IxTermMoved(l: Line, a: real)
    ensures IxTerm(Moved(l, a)) == IxTerm(l) + a * (l.Y0 * l.Y0 + l.Y0 * l.Dy + l.Dy * l.Dy / 3.0) * l.Dy
  {
  }

  lemma IyTermMoved(l: Line, a: real)
    ensures IyTerm(Moved(l, a)) == IyTerm(l) + 2.0 * a * SyTerm(l) + a * a * AreaTerm(l) + a * a * a * l.Dy / 3.0
  {
  }

  lemma IxyTermMoved(l: Line, a: real)
    ensures IxyTerm(Moved(l, a)) == IxyTerm(l) + a * SxTerm(l) + a * a * (l.Y0 + l.Dy / 2.0) * l.Dy / 2.0
  {
  }

  // The end-point terms, differenced along an edge, in the edge's variables.

  lemma EndADifference(p0: Point, p1: Point, a: real)
    ensures EndA(p1, a) - EndA(p0, a) == a * EdgeOf(p0, p1).Dy
  {
  }

  lemma EndSxDifference(p0: Point, p1: Point, a: real)
    ensures EndSx(p1, a) - EndSx(p0, a) == a * (EdgeOf(p0, p1).Y0 + EdgeOf(p0, p1).Dy / 2.0) * EdgeOf(p0, p1).Dy
  {
  }

  lemma EndSyDifference(p0: Point, p1: Point, a: real)
    ensures EndSy(p1, a) - EndSy(p0, a) == a * a * EdgeOf(p0, p1).Dy / 2.0
  {
  }

  lemma EndIxDifference(p0: Point, p1: Point, a: real)
    ensures EndIx(p1, a) - EndIx(p0, a)
         == a * (EdgeOf(p0, p1).Y0 * EdgeOf(p0, p1).Y0 + EdgeOf(p0, p1).Y0 * EdgeOf(p0, p1).Dy
                 + EdgeOf(p0, p1).Dy * EdgeOf(p0, p1).Dy / 3.0) * EdgeOf(p0, p1).Dy
  {
  }

  lemma EndIyDifference(p0: Point, p1: Point, a: real)
    ensures EndIy(p1, a) - EndIy(p0, a) == a * a * a * EdgeOf(p0, p1).Dy / 3.0
  {
  }

  lemma EndIxyDifference(p0: Point, p1: Point, a: real)
    ensures EndIxy(p1, a) - EndIxy(p0, a)
         == a * a * (EdgeOf(p0, p1).Y0 + EdgeOf(p0, p1).Dy / 2.0) * EdgeOf(p0, p1).Dy / 2.0
  {
  }

  /** A vertical shift by b, written out: the integrals in x are unchanged. */
  lemma AssembleRaised(m: Moments, r: Moments, b: real)
    requires r.A == m.A && r.Sx == m.Sx + b * m.A && r.Sy == m.Sy
    requires r.Ix == m.Ix + 2.0 * b * m.Sx + b * b * m.A && r.Iy == m.Iy && r.Ixy == m.Ixy + b * m.Sy
    ensures r == m.Shifted(0.0, b)
  {
    assert 0.0 * m.A == 0.0 && 0.0 * b * m.A == 0.0 && 0.0 * m.Sx == 0.0;
    assert 2.0 * 0.0 * m.Sy == 0.0 && 0.0 * 0.0 * m.A == 0.0;
  }

  /** A horizontal shift by a, written out, plus a difference `q - p`:
      the integrals in y alone are unchanged by the shift. */
  lemma AssembleMoved(m: Moments, q: Moments, p: Moments, r: Moments, a: real)
    requires r.A == m.A + (q.A - p.A) && r.Sx == m.Sx + (q.Sx - p.Sx)
    requires r.Sy == m.Sy + a * m.A + (q.Sy - p.Sy)
    requires r.Ix == m.Ix + (q.Ix - p.Ix)
    requires r.Iy == m.Iy + 2.0 * a * m.Sy + a * a * m.A + (q.Iy - p.Iy)
    requires r.Ixy == m.Ixy + a * m.Sx + (q.Ixy - p.Ixy)
    ensures r == m.Shifted(a, 0.0).Plus(q.Minus(p))
  {
    assert 0.0 * m.A == 0.0 && a * 0.0 * m.A == 0.0 && 0.0 * m.Sy == 0.0;
    assert 2.0 * 0.0 * m.Sx == 0.0 && 0.0 * 0.0 * m.A == 0.0;
  }

  // The shift identities as relations between fields of the edge records.

  lemma ShiftYA(p0: Point, p1: Point, b: real)
    ensures EdgeMoments(Shift(p0, 0.0, b), Shift(p1, 0.0, b)).A == EdgeMoments(p0, p1).A
  {
    EdgeFields(p0, p1);
    EdgeFields(Shift(p0, 0.0, b), Shift(p1, 0.0, b));
    RaisedEdge(p0, p1, b);
    AreaTermRaised(EdgeOf(p0, p1), b);
  }

  lemma ShiftYSx(p0: Point, p1: Point, b: real)
    ensures EdgeMoments(Shift(p0, 0.0, b), Shift(p1, 0.0, b)).Sx == EdgeMoments(p0, p1).Sx + b * EdgeMoments(p0, p1).A
  {
    EdgeFields(p0, p1);
    EdgeFields(Shift(p0, 0.0, b), Shift(p1, 0.0, b));
    RaisedEdge(p0, p1, b);
    SxTermRaised(EdgeOf(p0, p1), b);
    Scaled(b, EdgeMoments(p0, p1).A, AreaTerm(EdgeOf(p0, p1)));
  }

  lemma ShiftYSy(p0: Point, p1: Point, b: real)
    ensures EdgeMoments(Shift(p0, 0.0, b), Shift(p1, 0.0, b)).Sy == EdgeMoments(p0, p1).Sy
  {
    EdgeFields(p0, p1);
    EdgeFields(Shift(p0, 0.0, b), Shift(p1, 0.0, b));
    RaisedEdge(p0, p1, b);
    SyTermRaised(EdgeOf(p0, p1), b);
  }

  lemma ShiftYIx(p0: Point, p1: Point, b: real)
    ensures EdgeMoments(Shift(p0, 0.0, b), Shift(p1, 0.0, b)).Ix == EdgeMoments(p0, p1).Ix + 2.0 * b * EdgeMoments(p0, p1).Sx + b * b * EdgeMoments(p0, p1).A
  {
    EdgeFields(p0, p1);
    EdgeFields(Shift(p0, 0.0, b), Shift(p1, 0.0, b));
    RaisedEdge(p0, p1, b);
    IxTermRaised(EdgeOf(p0, p1), b);
    Scaled(2.0 * b, EdgeMoments(p0, p1).Sx, SxTerm(EdgeOf(p0, p1)));
    Scaled(b * b, EdgeMoments(p0, p1).A, AreaTerm(EdgeOf(p0, p1)));
  }

  lemma ShiftYIy(p0: Point, p1: Point, b: real)
    ensures EdgeMoments(Shift(p0, 0.0, b), Shift(p1, 0.0, b)).Iy == EdgeMoments(p0, p1).Iy
  {
    EdgeFields(p0, p1);
    EdgeFields(Shift(p0, 0.0, b), Shift(p1, 0.0, b));
    RaisedEdge(p0, p1, b);
    IyTermRaised(EdgeOf(p0, p1), b);
  }

  lemma ShiftYIxy(p0: Point, p1: Point, b: real)
    ensures EdgeMoments(Shift(p0, 0.0, b), Shift(p1, 0.0, b)).Ixy == EdgeMoments(p0, p1).Ixy + b * EdgeMoments(p0, p1).Sy
  {
    EdgeFields(p0, p1);
    EdgeFields(Shift(p0, 0.0, b), Shift(p1, 0.0, b));
    RaisedEdge(p0, p1, b);
    IxyTermRaised(EdgeOf(p0, p1), b);
    Scaled(b, EdgeMoments(p0, p1).Sy, SyTerm(EdgeOf(p0, p1)));
  }

  lemma ShiftXA(p0: Point, p1: Point, a: real)
    ensures EdgeMoments(Shift(p0, a, 0.0), Shift(p1, a, 0.0)).A
         == EdgeMoments(p0, p1).A + (ShiftEnds(p1, a).A - ShiftEnds(p0, a).A)
  {
    EdgeFields(p0, p1);
    EdgeFields(Shift(p0, a, 0.0), Shift(p1, a, 0.0));
    EndsFields(p0, a);
    EndsFields(p1, a);
    MovedEdge(p0, p1, a);
    AreaTermMoved(EdgeOf(p0, p1), a);
    EndADifference(p0, p1, a);
  }

  lemma ShiftXSx(p0: Point, p1: Point, a: real)
    ensures EdgeMoments(Shift(p0, a, 0.0), Shift(p1, a, 0.0)).Sx
         == EdgeMoments(p0, p1).Sx + (ShiftEnds(p1, a).Sx - ShiftEnds(p0, a).Sx)
  {
    EdgeFields(p0, p1);
    EdgeFields(Shift(p0, a, 0.0), Shift(p1, a, 0.0));
    EndsFields(p0, a);
    EndsFields(p1, a);
    MovedEdge(p0, p1, a);
    SxTermMoved(EdgeOf(p0, p1), a);
    EndSxDifference(p0, p1, a);
  }

  lemma ShiftXSy(p0: Point, p1: Point, a: real)
    ensures EdgeMoments(Shift(p0, a, 0.0), Shift(p1, a, 0.0)).Sy
         == EdgeMoments(p0, p1).Sy + a * EdgeMoments(p0, p1).A + (ShiftEnds(p1, a).Sy - ShiftEnds(p0, a).Sy)
  {
    EdgeFields(p0, p1);
    EdgeFields(Shift(p0, a, 0.0), Shift(p1, a, 0.0));
    EndsFields(p0, a);
    EndsFields(p1, a);
    MovedEdge(p0, p1, a);
    SyTermMoved(EdgeOf(p0, p1), a);
    EndSyDifference(p0, p1, a);
    Scaled(a, EdgeMoments(p0, p1).A, AreaTerm(EdgeOf(p0, p1)));
  }

  lemma ShiftXIx(p0: Point, p1: Point, a: real)
    ensures EdgeMoments(Shift(p0, a, 0.0), Shift(p1, a, 0.0)).Ix
         == EdgeMoments(p0, p1).Ix + (ShiftEnds(p1, a).Ix - ShiftEnds(p0, a).Ix)
  {
    EdgeFields(p0, p1);
    EdgeFields(Shift(p0, a, 0.0), Shift(p1, a, 0.0));
    EndsFields(p0, a);
    EndsFields(p1, a);
    MovedEdge(p0, p1, a);
    IxTermMoved(EdgeOf(p0, p1), a);
    EndIxDifference(p0, p1, a);
  }

  lemma ShiftXIy(p0: Point, p1: Point, a: real)
    ensures EdgeMoments(Shift(p0, a, 0.0), Shift(p1, a, 0.0)).Iy
         == EdgeMoments(p0, p1).Iy + 2.0 * a * EdgeMoments(p0, p1).Sy + a * a * EdgeMoments(p0, p1).A + (ShiftEnds(p1, a).Iy - ShiftEnds(p0, a).Iy)
  {
    EdgeFields(p0, p1);
    EdgeFields(Shift(p0, a, 0.0), Shift(p1, a, 0.0));
    EndsFields(p0, a);
    EndsFields(p1, a);
    MovedEdge(p0, p1, a);
    IyTermMoved(EdgeOf(p0, p1), a);
    EndIyDifference(p0, p1, a);
    Scaled(2.0 * a, EdgeMoments(p0, p1).Sy, SyTerm(EdgeOf(p0, p1)));
    Scaled(a * a, EdgeMoments(p0, p1).A, AreaTerm(EdgeOf(p0, p1)));
  }

  lemma ShiftXIxy(p0: Point, p1: Point, a: real)
    ensures EdgeMoments(Shift(p0, a, 0.0), Shift(p1, a, 0.0)).Ixy
         == EdgeMoments(p0, p1).Ixy + a * EdgeMoments(p0, p1).Sx + (ShiftEnds(p1, a).Ixy - ShiftEnds(p0, a).Ixy)
  {
    EdgeFields(p0, p1);
    EdgeFields(Shift(p0, a, 0.0), Shift(p1, a, 0.0));
    EndsFields(p0, a);
    EndsFields(p1, a);
    MovedEdge(p0, p1, a);
    IxyTermMoved(EdgeOf(p0, p1), a);
    EndIxyDifference(p0, p1, a);
    Scaled(a, EdgeMoments(p0, p1).Sx, SxTerm(EdgeOf(p0, p1)));
  }

  /** A vertical shift changes the edge terms exactly as the binomial
      expansion says: every term is an integral in dy, with x unchanged. */
  lemma EdgeShiftY(p0: Point, p1: Point, b: real)
    ensures EdgeMoments(Shift(p0, 0.0, b), Shift(p1, 0.0, b)) == EdgeMoments(p0, p1).Shifted(0.0, b)
  {
    ShiftYA(p0, p1, b);
    ShiftYSx(p0, p1, b);
    ShiftYSy(p0, p1, b);
    ShiftYIx(p0, p1, b);
    ShiftYIy(p0, p1, b);
    ShiftYIxy(p0, p1, b);
    AssembleRaised(EdgeMoments(p0, p1), EdgeMoments(Shift(p0, 0.0, b), Shift(p1, 0.0, b)), b);
  }

  /** A horizontal shift changes the edge terms as the binomial expansion
      says, up to a difference of end-point terms. */
  lemma EdgeShiftX(p0: Point, p1: Point, a: real)
    ensures EdgeMoments(Shift(p0, a, 0.0), Shift(p1, a, 0.0))
         == EdgeMoments(p0, p1).Shifted(a, 0.0).Plus(ShiftEnds(p1, a).Minus(ShiftEnds(p0, a)))
  {
    ShiftXA(p0, p1, a);
    ShiftXSx(p0, p1, a);
    ShiftXSy(p0, p1, a);
    ShiftXIx(p0, p1, a);
    ShiftXIy(p0, p1, a);
    ShiftXIxy(p0, p1, a);
    AssembleMoved(EdgeMoments(p0, p1), ShiftEnds(p1, a), ShiftEnds(p0, a), EdgeMoments(Shift(p0, a, 0.0), Shift(p1, a, 0.0)), a);
  }

  /** Every edge, moved vertically, shifts as a region does. */
  lemma EveryEdgeShiftY(b: real)
    ensures forall p, q :: EdgeMoments(Shift(p, 0.0, b), Shift(q, 0.0, b))
                        == EdgeMoments(p, q).Shifted(0.0, b).Plus(Zero.Minus(Zero))
  {
    forall p, q
      ensures EdgeMoments(Shift(p, 0.0, b), Shift(q, 0.0, b))
           == EdgeMoments(p, q).Shifted(0.0, b).Plus(Zero.Minus(Zero))
    {
      EdgeShiftY(p, q, b);
      MinusSelf(Zero);
      PlusZero(EdgeMoments(p, q).Shifted(0.0, b));
    }
  }

  /** Every edge, moved horizontally, shifts as a region does up to end-point terms. */
  lemma EveryEdgeShiftX(a: real)
    ensures forall p, q :: EdgeMoments(Shift(p, a, 0.0), Shift(q, a, 0.0))
                        == EdgeMoments(p, q).Shifted(a, 0.0).Plus(ShiftEnds(q, a).Minus(ShiftEnds(p, a)))
  {
    forall p, q
      ensures EdgeMoments(Shift(p, a, 0.0), Shift(q, a, 0.0))
           == EdgeMoments(p, q).Shifted(a, 0.0).Plus(ShiftEnds(q, a).Minus(ShiftEnds(p, a)))
    {
      EdgeShiftX(p, q, a);
    }
  }

  /** Every edge term changes sign with the direction of travel. */
  lemma EveryEdgeAntisymmetric()
    ensures forall p, q :: EdgeMoments(q, p) == EdgeMoments(p, q).Neg()
  {
    forall p, q ensures EdgeMoments(q, p) == EdgeMoments(p, q).Neg() {
      EdgeAntisymmetric(p, q);
    }
  }

  /** Every edge term reflects with its edge. */
  lemma EveryEdgeMirror()
    ensures forall p, q :: EdgeMoments(Mirror(p), Mirror(q)) == EdgeMoments(p, q).Mirrored()
  {
    forall p, q ensures EdgeMoments(Mirror(p), Mirror(q)) == EdgeMoments(p, q).Mirrored() {
      EdgeMirror(p, q);
    }
  }
}
