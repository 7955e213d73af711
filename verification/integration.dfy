/** Edge-wise accumulation of the six integrals over an ordered vertex list,
    and the laws the accumulated sums obey. */
module Integration {
  import opened Geometry
  import opened Moments

  function Last(ps: seq<Point>): Point
    requires |ps| > 0
  {
    ps[|ps| - 1]
  }

  /** A closed outline: at least one edge, and the last vertex repeats the first. */
  predicate Closed(ps: seq<Point>) {
    |ps| >= 2 && ps[0] == Last(ps)
  }

  /** The sum of `f` over the |ps| − 1 consecutive pairs (ps[i], ps[i+1]),
      i = 0 .. |ps| − 2, taken in order. No pair from the last vertex back to
      the first is added. */
  function SumEdges(ps: seq<Point>, f: (Point, Point) -> Moments): Moments
    decreases |ps|
  {
    if |ps| < 2 then Zero
    else SumEdges(ps[..|ps| - 1], f).Plus(f(ps[|ps| - 2], Last(ps)))
  }

  /** The engine's sums: the Green's-theorem edge terms over consecutive
      vertices. An outline that is not closed is integrated as an open path. */
  function Integrate(ps: seq<Point>): Moments {
    SumEdges(ps, EdgeMoments)
  }

  /** Reference sums: the classical polygon formulas, one triangle
      (origin, ps[i], ps[i+1]) per edge. */
  function FanSum(ps: seq<Point>): Moments {
    SumEdges(ps, FanTerms)
  }

  function Reverse(ps: seq<Point>): (rs: seq<Point>)
    ensures |rs| == |ps|
    ensures forall i :: 0 <= i < |ps| ==> rs[i] == ps[|ps| - 1 - i]
    decreases |ps|
  {
    if |ps| == 0 then [] else [Last(ps)] + Reverse(ps[..|ps| - 1])
  }

  /** Every vertex moved by (a, b). */
  function Translate(ps: seq<Point>, a: real, b: real): (qs: seq<Point>)
    ensures |qs| == |ps|
    ensures forall i :: 0 <= i < |ps| ==> qs[i] == Shift(ps[i], a, b)
    decreases |ps|
  {
    if |ps| == 0 then [] else Translate(ps[..|ps| - 1], a, b) + [Shift(Last(ps), a, b)]
  }

  /** Every vertex reflected in x = 0. */
  function MirrorAll(ps: seq<Point>): (qs: seq<Point>)
    ensures |qs| == |ps|
    ensures forall i :: 0 <= i < |ps| ==> qs[i] == Mirror(ps[i])
    decreases |ps|
  {
    if |ps| == 0 then [] else MirrorAll(ps[..|ps| - 1]) + [Mirror(Last(ps))]
  }

  /** The same closed outline started at vertex k instead of vertex 0. */
  function RotateBy(ps: seq<Point>, k: nat): (qs: seq<Point>)
    requires Closed(ps) && k < |ps|
    ensures |qs| == |ps| && Closed(qs) && qs[0] == ps[k]
  {
    ps[k..] + ps[1..k + 1]
  }

  /** The same closed outline started one vertex later. */
  function RotateOne(qs: seq<Point>): (rs: seq<Point>)
    requires Closed(qs)
    ensures |rs| == |qs| && Closed(rs) && rs[0] == qs[1]
  {
    qs[1..] + [qs[1]]
  }

  // Laws of edge sums, for any per-edge function.

  /** The sum over a path is the sum over all but its last vertex plus the last edge. */
  lemma SumStep(ps: seq<Point>, f: (Point, Point) -> Moments)
    requires |ps| >= 2
    ensures SumEdges(ps, f) == SumEdges(ps[..|ps| - 1], f).Plus(f(ps[|ps| - 2], Last(ps)))
  {
  }

  /** A path with no edge sums to zero. */
  lemma SumShort(ps: seq<Point>, f: (Point, Point) -> Moments)
    requires |ps| < 2
    ensures SumEdges(ps, f) == Zero
  {
  }

  /** Joining two paths adds the sums of both plus the joining edge. */
  lemma {:induction false} SumAppend(xs: seq<Point>, ys: seq<Point>, f: (Point, Point) -> Moments)
    requires |xs| >= 1 && |ys| >= 1
    ensures SumEdges(xs + ys, f) == SumEdges(xs, f).Plus(f(Last(xs), ys[0])).Plus(SumEdges(ys, f))
    decreases |ys|
  {
    var zs := xs + ys;
    var j := SumEdges(xs, f).Plus(f(Last(xs), ys[0]));
    SumStep(zs, f);
    if |ys| == 1 {
      assert zs[..|zs| - 1] == xs;
      assert zs[|zs| - 2] == Last(xs) && Last(zs) == ys[0];
      SumShort(ys, f);
      PlusZero(j);
    } else {
      var ys' := ys[..|ys| - 1];
      assert zs[..|zs| - 1] == xs + ys';
      assert ys'[0] == ys[0];
      assert zs[|zs| - 2] == ys[|ys| - 2] && Last(zs) == Last(ys);
      SumStep(ys, f);
      SumAppend(xs, ys', f);
      PlusAssociates(j, SumEdges(ys', f), f(ys[|ys| - 2], Last(ys)));
    }
  }

  /** An edge sum can equally be taken from the front. */
  lemma SumFront(ps: seq<Point>, f: (Point, Point) -> Moments)
    requires |ps| >= 2
    ensures SumEdges(ps, f) == f(ps[0], ps[1]).Plus(SumEdges(ps[1..], f))
  {
    assert ps == [ps[0]] + ps[1..];
    SumAppend([ps[0]], ps[1..], f);
  }

  /** An antisymmetric edge function sums to the negation along the reversed path. */
  lemma {:induction false} SumReverse(ps: seq<Point>, f: (Point, Point) -> Moments)
    requires forall p, q :: f(q, p) == f(p, q).Neg()
    ensures SumEdges(Reverse(ps), f) == SumEdges(ps, f).Neg()
    decreases |ps|
  {
    var n := |ps|;
    if n >= 2 {
      var pre, rs := ps[..n - 1], Reverse(ps);
      var e := f(ps[n - 2], ps[n - 1]);
      assert rs[1..] == Reverse(pre) && rs[0] == ps[n - 1] && rs[1] == ps[n - 2];
      assert SumEdges(ps, f) == SumEdges(pre, f).Plus(e);
      assert f(rs[0], rs[1]) == e.Neg();
      SumFront(rs, f);
      SumReverse(pre, f);
      NegPlus(SumEdges(pre, f), e);
    }
  }

  /** Edge functions that differ by a potential difference have sums that
      differ by the potential difference between the path's two ends. */
  lemma {:induction false} SumTelescope(ps: seq<Point>, f: (Point, Point) -> Moments,
                                        g: (Point, Point) -> Moments, pot: Point -> Moments)
    requires |ps| >= 1
    requires forall p, q :: f(p, q) == g(p, q).Plus(pot(q).Minus(pot(p)))
    ensures SumEdges(ps, f) == SumEdges(ps, g).Plus(pot(Last(ps)).Minus(pot(ps[0])))
    decreases |ps|
  {
    var n := |ps|;
    if n == 1 {
      PlusZero(Zero);
    } else {
      var pre := ps[..n - 1];
      var p, q := ps[n - 2], ps[n - 1];
      assert Last(pre) == p && pre[0] == ps[0];
      assert SumEdges(ps, f) == SumEdges(pre, f).Plus(f(p, q));
      assert SumEdges(ps, g) == SumEdges(pre, g).Plus(g(p, q));
      assert f(p, q) == g(p, q).Plus(pot(q).Minus(pot(p)));
      SumTelescope(pre, f, g, pot);
      TelescopeStep(SumEdges(pre, g), g(p, q), pot(ps[0]), pot(p), pot(q));
    }
  }

  /** Moving the path by (a, b) shifts the sum when each edge term shifts,
      up to end-point terms that telescope. */
  lemma {:induction false} SumShift(ps: seq<Point>, f: (Point, Point) -> Moments,
                                    a: real, b: real, ends: Point -> Moments)
    requires |ps| >= 1
    requires forall p, q :: f(Shift(p, a, b), Shift(q, a, b)) == f(p, q).Shifted(a, b).Plus(ends(q).Minus(ends(p)))
    ensures SumEdges(Translate(ps, a, b), f)
         == SumEdges(ps, f).Shifted(a, b).Plus(ends(Last(ps)).Minus(ends(ps[0])))
    decreases |ps|
  {
    var n := |ps|;
    if n == 1 {
      ZeroShifted(a, b);
      PlusZero(Zero);
    } else {
      var pre, qs := ps[..n - 1], Translate(ps, a, b);
      var p, q := ps[n - 2], ps[n - 1];
      var e, s := f(p, q), SumEdges(pre, f);
      assert SumEdges(qs, f) == SumEdges(Translate(pre, a, b), f).Plus(f(Shift(p, a, b), Shift(q, a, b))) by {
        assert qs[..n - 1] == Translate(pre, a, b);
        assert qs[n - 2] == Shift(p, a, b) && qs[n - 1] == Shift(q, a, b);
      }
      assert Last(pre) == p && pre[0] == ps[0];
      assert SumEdges(ps, f) == s.Plus(e);
      SumShift(pre, f, a, b, ends);
      ShiftedPlus(s, e, a, b);
      TelescopeStep(s.Shifted(a, b), e.Shifted(a, b), ends(ps[0]), ends(p), ends(q));
    }
  }

  /** Reflecting the path reflects the sum when each edge term reflects. */
  lemma {:induction false} SumMirror(ps: seq<Point>, f: (Point, Point) -> Moments)
    requires forall p, q :: f(Mirror(p), Mirror(q)) == f(p, q).Mirrored()
    ensures SumEdges(MirrorAll(ps), f) == SumEdges(ps, f).Mirrored()
    decreases |ps|
  {
    if |ps| >= 2 {
      var n := |ps|;
      var qs := MirrorAll(ps);
      var pre := ps[..n - 1];
      assert qs[..n - 1] == MirrorAll(pre);
      SumMirror(pre, f);
      var e := f(ps[n - 2], ps[n - 1]);
      assert f(qs[n - 2], qs[n - 1]) == e.Mirrored();
      MirroredPlus(SumEdges(pre, f), e);
    }
  }

  /** Starting one vertex later is the same as rotating once more. */
  lemma RotateStep(ps: seq<Point>, k: nat)
    requires Closed(ps) && k + 1 < |ps|
    ensures RotateBy(ps, k + 1) == RotateOne(RotateBy(ps, k))
  {
    var qs := RotateBy(ps, k);
    assert qs[1] == ps[k + 1];
    assert qs[1..] == ps[k + 1..] + ps[1..k + 1];
    assert ps[1..k + 2] == ps[1..k + 1] + [ps[k + 1]];
  }

  /** Moving the first edge of a closed outline to its end. */
  lemma {:induction false} SumRotateOne(qs: seq<Point>, f: (Point, Point) -> Moments)
    requires Closed(qs)
    ensures SumEdges(RotateOne(qs), f) == SumEdges(qs, f)
  {
    var tail := qs[1..];
    var e := f(qs[0], qs[1]);
    assert Last(tail) == qs[0];
    assert SumEdges([qs[1]], f) == Zero;
    assert SumEdges(RotateOne(qs), f) == SumEdges(tail, f).Plus(e).Plus(Zero) by {
      SumAppend(tail, [qs[1]], f);
    }
    assert SumEdges(qs, f) == e.Plus(SumEdges(tail, f)) by {
      SumFront(qs, f);
    }
    PlusCommutes(SumEdges(tail, f), e);
  }

  /** Around a closed outline the starting vertex does not matter. */
  lemma {:induction false} SumRotate(ps: seq<Point>, k: nat, f: (Point, Point) -> Moments)
    requires Closed(ps) && k < |ps|
    ensures SumEdges(RotateBy(ps, k), f) == SumEdges(ps, f)
  {
    if k == 0 {
      assert ps[1..1] == [] && ps[0..] == ps;
      assert RotateBy(ps, k) == ps;
    } else {
      SumRotate(ps, k - 1, f);
      RotateStep(ps, k - 1);
      SumRotateOne(RotateBy(ps, k - 1), f);
    }
  }

  /** The mirror image traversed backwards: negated, then reflected. */
  lemma SumMirrorReverse(ps: seq<Point>, f: (Point, Point) -> Moments)
    requires forall p, q :: f(q, p) == f(p, q).Neg()
    requires forall p, q :: f(Mirror(p), Mirror(q)) == f(p, q).Mirrored()
    ensures SumEdges(MirrorAll(Reverse(ps)), f) == SumEdges(ps, f).Neg().Mirrored()
  {
    SumReverse(ps, f);
    SumMirror(Reverse(ps), f);
  }

  /** An antisymmetric, mirror-covariant edge function sums to a record
      with vanishing Sy and Ixy around an outline that is its own mirror
      image traversed backwards, up to the starting vertex. */
  lemma SumSymmetric(ps: seq<Point>, k: nat, f: (Point, Point) -> Moments)
    requires Closed(ps) && k < |ps|
    requires MirrorAll(Reverse(ps)) == RotateBy(ps, k)
    requires forall p, q :: f(q, p) == f(p, q).Neg()
    requires forall p, q :: f(Mirror(p), Mirror(q)) == f(p, q).Mirrored()
    ensures SumEdges(ps, f).Sy == 0.0 && SumEdges(ps, f).Ixy == 0.0
  {
    var m := SumEdges(ps, f);
    SumMirrorReverse(ps, f);
    SumRotate(ps, k, f);
    SelfReflected(m, SumEdges(RotateBy(ps, k), f));
  }

  /** Repeating vertex i adds the edge (ps[i], ps[i]) and nothing else. */
  lemma SumRepeat(ps: seq<Point>, i: nat, f: (Point, Point) -> Moments)
    requires i < |ps|
    ensures SumEdges(ps[..i + 1] + ps[i..], f) == SumEdges(ps, f).Plus(f(ps[i], ps[i]))
  {
    var front, back := ps[..i + 1], ps[i..];
    var d := f(ps[i], ps[i]);
    assert Last(front) == ps[i] && back[0] == ps[i];
    SumAppend(front, back, f);
    if i + 1 == |ps| {
      assert front == ps;
      SumShort(back, f);
      PlusZero(SumEdges(ps, f).Plus(d));
    } else {
      var rest := ps[i + 1..];
      assert back[1..] == rest && ps == front + rest && rest[0] == back[1];
      SumFront(back, f);
      SumAppend(front, rest, f);
      PlusRearranged(SumEdges(front, f), d, f(ps[i], ps[i + 1]), SumEdges(rest, f));
    }
  }

  // The same laws for the engine's integrals.

  /** A horizontal or zero-length edge contributes nothing to any integral:
      every per-edge term has Dy as a factor. */
  lemma FlatEdgeAddsNothing(p0: Point, p1: Point)
    requires p0.y == p1.y
    ensures EdgeMoments(p0, p1) == Zero
  {
  }

  /** Reversing the vertex order negates all six integrals. */
  lemma IntegrateReverse(ps: seq<Point>)
    ensures Integrate(Reverse(ps)) == Integrate(ps).Neg()
  {
    EveryEdgeAntisymmetric();
    SumReverse(ps, EdgeMoments);
  }

  /** The engine's sums and the classical polygon formulas differ by a
      potential difference between the last and the first vertex. */
  lemma IntegrateVersusFan(ps: seq<Point>)
    requires |ps| >= 1
    ensures Integrate(ps) == FanSum(ps).Plus(Potential(Last(ps)).Minus(Potential(ps[0])))
  {
    forall p, q ensures EdgeMoments(p, q) == FanTerms(p, q).Plus(Potential(q).Minus(Potential(p))) {
      EdgeVersusFan(p, q);
    }
    SumTelescope(ps, EdgeMoments, FanTerms, Potential);
  }

  /** On a closed outline the engine's sums are exactly the classical
      polygon area and moment formulas. */
  lemma ClosedOutlineFormulas(ps: seq<Point>)
    requires Closed(ps)
    ensures Integrate(ps) == FanSum(ps)
  {
    IntegrateVersusFan(ps);
  }

  /** Moving any path vertically by b shifts its integrals exactly as
      moving the region does. */
  lemma IntegrateShiftY(ps: seq<Point>, b: real)
    requires |ps| >= 1
    ensures Integrate(Translate(ps, 0.0, b)) == Integrate(ps).Shifted(0.0, b)
  {
    EveryEdgeShiftY(b);
    SumShift(ps, EdgeMoments, 0.0, b, _ => Zero);
    MinusSelf(Zero);
    PlusZero(Integrate(ps).Shifted(0.0, b));
  }

  /** Moving any path horizontally by a shifts its integrals up to a
      difference of end-point terms. */
  lemma IntegrateShiftX(ps: seq<Point>, a: real)
    requires |ps| >= 1
    ensures Integrate(Translate(ps, a, 0.0))
         == Integrate(ps).Shifted(a, 0.0).Plus(ShiftEnds(Last(ps), a).Minus(ShiftEnds(ps[0], a)))
  {
    EveryEdgeShiftX(a);
    SumShift(ps, EdgeMoments, a, 0.0, p => ShiftEnds(p, a));
  }

  /** Moving a closed outline by (a, b) changes its integrals exactly as
      moving the region does: the area is unchanged and the moments follow
      the binomial expansion of (x + a) and (y + b). */
  lemma IntegrateTranslate(ps: seq<Point>, a: real, b: real)
    requires Closed(ps)
    ensures Integrate(Translate(ps, a, b)) == Integrate(ps).Shifted(a, b)
  {
    var mid := Translate(ps, 0.0, b);
    assert Translate(ps, a, b) == Translate(mid, a, 0.0);
    assert mid[0] == Last(mid);
    IntegrateShiftY(ps, b);
    IntegrateShiftX(mid, a);
    MinusSelf(ShiftEnds(mid[0], a));
    PlusZero(Integrate(mid).Shifted(a, 0.0));
    ShiftedTwice(Integrate(ps), a, b);
  }

  /** Reflecting every vertex in x = 0 reflects the integrals. */
  lemma IntegrateMirror(ps: seq<Point>)
    ensures Integrate(MirrorAll(ps)) == Integrate(ps).Mirrored()
  {
    EveryEdgeMirror();
    SumMirror(ps, EdgeMoments);
  }

  /** Where a closed outline starts does not matter. */
  lemma IntegrateRotate(ps: seq<Point>, k: nat)
    requires Closed(ps) && k < |ps|
    ensures Integrate(RotateBy(ps, k)) == Integrate(ps)
  {
    SumRotate(ps, k, EdgeMoments);
  }

  /** Repeating a vertex inserts a zero-length edge, which changes nothing. */
  lemma IntegrateRepeat(ps: seq<Point>, i: nat)
    requires i < |ps|
    ensures Integrate(ps[..i + 1] + ps[i..]) == Integrate(ps)
  {
    SumRepeat(ps, i, EdgeMoments);
    FlatEdgeAddsNothing(ps[i], ps[i]);
  }

  /** A closed outline whose mirror image, traversed backwards, is the same
      outline started elsewhere encloses a region symmetric about x = 0:
      its first moment Sy and its product of inertia Ixy vanish. */
  lemma SymmetricOutline(ps: seq<Point>, k: nat)
    requires Closed(ps) && k < |ps|
    requires MirrorAll(Reverse(ps)) == RotateBy(ps, k)
    ensures Integrate(ps).Sy == 0.0 && Integrate(ps).Ixy == 0.0
  {
    EveryEdgeAntisymmetric();
    EveryEdgeMirror();
    SumSymmetric(ps, k, EdgeMoments);
  }

  /** The engine's edge loop: six accumulators, updated once per consecutive
      pair of vertices. */
  method AccumulateIntegrals(ps: seq<Point>)
    returns (a: real, sx: real, sy: real, ix: real, iy: real, ixy: real)
    requires |ps| >= 2
    ensures Moments(a, sx, sy, ix, iy, ixy) == Integrate(ps)
  {
    a, sx, sy, ix, iy, ixy := 0.0, 0.0, 0.0, 0.0, 0.0, 0.0;
    var i := 0;
    while i < |ps| - 1
      invariant 0 <= i <= |ps| - 1
      invariant Moments(a, sx, sy, ix, iy, ixy) == Integrate(ps[..i + 1])
    {
      var line := MakeLine(ps[i].x, ps[i + 1].x, ps[i].y, ps[i + 1].y);
      a := a + AreaTerm(line);
      sx := sx + SxTerm(line);
      sy := sy + SyTerm(line);
      ix := ix + IxTerm(line);
      iy := iy + IyTerm(line);
      ixy := ixy + IxyTerm(line);
      assert ps[..i + 2][..i + 1] == ps[..i + 1];
      i := i + 1;
    }
    assert ps[..i + 1] == ps;
  }
}
