/** The section-property engine: the six integrals of a vertex list, and
    everything derived from them and from the vertices' envelope. */
module Engine {
  import opened Geometry
  import opened Moments
  import opened Integration
  import opened Envelope

  /** Every value the engine exposes once it has been constructed. */
  datatype Props = Props(
    A: real, Sx: real, Sy: real, Ix: real, Iy: real, Ixy: real,
    Xg: real, Yg: real, Ixg: real, Iyg: real, Ixyg: real,
    Xmin: real, Xmax: real, Ymin: real, Ymax: real, Height: real, Base: real,
    Y1: real, Y2: real, W1: real, W2: real)

  /** Why no properties can be given: too short a list (the engine throws),
      or a division by zero (the engine's doubles become infinite or NaN). */
  datatype Error = TooFewPoints | ZeroArea | ZeroFibreDistance

  datatype Result = Success(props: Props) | Failure(error: Error)

  function Abs(x: real): (r: real)
    ensures r >= 0.0 && (r == x || r == -x)
  {
    if x < 0.0 then -x else x
  }

  /** The centroid's abscissa: the first moment about the y axis per unit area. */
  function CentroidX(m: Moments): (xg: real)
    requires m.A != 0.0
    ensures xg * m.A == m.Sy
  {
    m.Sy / m.A
  }

  /** The centroid's ordinate: the first moment about the x axis per unit area. */
  function CentroidY(m: Moments): (yg: real)
    requires m.A != 0.0
    ensures yg * m.A == m.Sx
  {
    m.Sx / m.A
  }

  /** The second moments about the axes through the centroid. */
  datatype Centroidal = Centroidal(Ixg: real, Iyg: real, Ixyg: real)

  /** The parallel-axis relation as the engine applies it: each centroidal
      second moment is the integral about the origin of the region moved so
      that its centroid sits at the origin. */
  function CentroidalOf(m: Moments, xg: real, yg: real): (c: Centroidal)
    requires xg * m.A == m.Sy && yg * m.A == m.Sx
    ensures c.Ixg == m.Shifted(-xg, -yg).Ix
    ensures c.Iyg == m.Shifted(-xg, -yg).Iy
    ensures c.Ixyg == m.Shifted(-xg, -yg).Ixy
  {
    ParallelAxis(m, xg, yg);
    Centroidal(m.Ix - yg * yg * m.A, m.Iy - xg * xg * m.A, m.Ixy - xg * yg * m.A)
  }

  lemma ShiftedFields(m: Moments, a: real, b: real)
    ensures m.Shifted(a, b).A == m.A
    ensures m.Shifted(a, b).Sx == m.Sx + b * m.A
    ensures m.Shifted(a, b).Sy == m.Sy + a * m.A
    ensures m.Shifted(a, b).Ix == m.Ix + 2.0 * b * m.Sx + b * b * m.A
    ensures m.Shifted(a, b).Iy == m.Iy + 2.0 * a * m.Sy + a * a * m.A
    ensures m.Shifted(a, b).Ixy == m.Ixy + a * m.Sx + b * m.Sy + a * b * m.A
  {
  }

  lemma ParallelAxisSquare(i: real, s: real, area: real, g: real)
    requires g * area == s
    ensures i - g * g * area == i + 2.0 * -g * s + -g * -g * area
  {
    assert 2.0 * -g * s == -2.0 * (g * (g * area));
  }

  lemma ParallelAxisProduct(i: real, sx: real, sy: real, area: real, xg: real, yg: real)
    requires xg * area == sy && yg * area == sx
    ensures i - xg * yg * area == i + -xg * sx + -yg * sy + -xg * -yg * area
  {
    assert -xg * sx == -(xg * (yg * area));
    assert -yg * sy == -(yg * (xg * area));
  }

  lemma ParallelAxis(m: Moments, xg: real, yg: real)
    requires xg * m.A == m.Sy && yg * m.A == m.Sx
    ensures m.Ix - yg * yg * m.A == m.Shifted(-xg, -yg).Ix
    ensures m.Iy - xg * xg * m.A == m.Shifted(-xg, -yg).Iy
    ensures m.Ixy - xg * yg * m.A == m.Shifted(-xg, -yg).Ixy
  {
    ShiftedFields(m, -xg, -yg);
    ParallelAxisSquare(m.Ix, m.Sx, m.A, yg);
    ParallelAxisSquare(m.Iy, m.Sy, m.A, xg);
    ParallelAxisProduct(m.Ixy, m.Sx, m.Sy, m.A, xg, yg);
  }

  /** About the centroid both first moments vanish. */
  lemma CentroidalFirstMoments(m: Moments, xg: real, yg: real)
    requires xg * m.A == m.Sy && yg * m.A == m.Sx
    ensures m.Shifted(-xg, -yg).A == m.A
    ensures m.Shifted(-xg, -yg).Sx == 0.0 && m.Shifted(-xg, -yg).Sy == 0.0
  {
    ShiftedFields(m, -xg, -yg);
  }

  /** The extreme-fibre distances and section moduli, with the engine's sign
      convention: the distance to the bottom fibre and its modulus are
      negated, once, after both have been computed. */
  datatype Fibres = Fibres(Y1: real, Y2: real, W1: real, W2: real)

  function FibresOf(yg: real, ymin: real, ymax: real, ixg: real): (f: Fibres)
    requires yg != ymin && yg != ymax
    ensures f.Y1 < 0.0 < f.Y2
    ensures f.Y1 == ymin - yg || f.Y1 == yg - ymin
    ensures f.Y2 == ymax - yg || f.Y2 == yg - ymax
    ensures ymin <= yg ==> f.Y1 == ymin - yg
    ensures yg <= ymax ==> f.Y2 == ymax - yg
    ensures f.W1 * f.Y1 == ixg && f.W2 * f.Y2 == ixg
  {
    var y1 := Abs(yg - ymin);
    var y2 := Abs(ymax - yg);
    var w1 := ixg / y1;
    var w2 := ixg / y2;
    Fibres(-y1, y2, -w1, w2)
  }

  /** What a successful result states about the integrals `m` and the
      envelope `e` it was derived from. */
  ghost predicate Describes(m: Moments, e: Envelope, p: Props) {
    && p.A != 0.0 && p.A == m.A && p.Sx == m.Sx && p.Sy == m.Sy
    && p.Ix == m.Ix && p.Iy == m.Iy && p.Ixy == m.Ixy
    && p.Xg * p.A == p.Sy && p.Yg * p.A == p.Sx
    && p.Ixg == m.Shifted(-p.Xg, -p.Yg).Ix
    && p.Iyg == m.Shifted(-p.Xg, -p.Yg).Iy
    && p.Ixyg == m.Shifted(-p.Xg, -p.Yg).Ixy
    && p.Xmin == e.Xmin && p.Xmax == e.Xmax && p.Ymin == e.Ymin && p.Ymax == e.Ymax
    && p.Height >= 0.0 && p.Base >= 0.0
    && (e.Ymin <= e.Ymax ==> p.Height == e.Ymax - e.Ymin)
    && (e.Xmin <= e.Xmax ==> p.Base == e.Xmax - e.Xmin)
    && p.Y1 < 0.0 < p.Y2
    && (p.Y1 == e.Ymin - p.Yg || p.Y1 == p.Yg - e.Ymin)
    && (p.Y2 == e.Ymax - p.Yg || p.Y2 == p.Yg - e.Ymax)
    && (e.Ymin <= p.Yg ==> p.Y1 == e.Ymin - p.Yg)
    && (p.Yg <= e.Ymax ==> p.Y2 == e.Ymax - p.Yg)
    && p.W1 * p.Y1 == p.Ixg && p.W2 * p.Y2 == p.Ixg
  }

  /** The result record from the integrals, the envelope and the derived
      values: the envelope dimensions are the absolute differences of its
      bounds. */
  function Summarize(m: Moments, e: Envelope, xg: real, yg: real, c: Centroidal, f: Fibres): Props {
    Props(m.A, m.Sx, m.Sy, m.Ix, m.Iy, m.Ixy, xg, yg, c.Ixg, c.Iyg, c.Ixyg,
          e.Xmin, e.Xmax, e.Ymin, e.Ymax, Abs(e.Ymax - e.Ymin), Abs(e.Xmax - e.Xmin),
          f.Y1, f.Y2, f.W1, f.W2)
  }

  lemma SummaryDescribes(m: Moments, e: Envelope, xg: real, yg: real, c: Centroidal, f: Fibres)
    requires m.A != 0.0 && xg * m.A == m.Sy && yg * m.A == m.Sx
    requires c.Ixg == m.Shifted(-xg, -yg).Ix && c.Iyg == m.Shifted(-xg, -yg).Iy
    requires c.Ixyg == m.Shifted(-xg, -yg).Ixy
    requires f.Y1 < 0.0 < f.Y2 && f.W1 * f.Y1 == c.Ixg && f.W2 * f.Y2 == c.Ixg
    requires f.Y1 == e.Ymin - yg || f.Y1 == yg - e.Ymin
    requires f.Y2 == e.Ymax - yg || f.Y2 == yg - e.Ymax
    requires e.Ymin <= yg ==> f.Y1 == e.Ymin - yg
    requires yg <= e.Ymax ==> f.Y2 == e.Ymax - yg
    ensures Describes(m, e, Summarize(m, e, xg, yg, c, f))
  {
  }

  /** Everything the engine derives from the six integrals and the envelope,
      in its order: centroid, centroidal inertias, envelope dimensions,
      fibre distances and moduli, sign correction. */
  function Derive(m: Moments, e: Envelope): (r: Result)
    ensures r == Failure(ZeroArea) <==> m.A == 0.0
    ensures r == Failure(ZeroFibreDistance)
        <==> m.A != 0.0 && (CentroidY(m) == e.Ymin || CentroidY(m) == e.Ymax)
    ensures r != Failure(TooFewPoints)
    ensures r.Success? ==> Describes(m, e, r.props)
  {
    if m.A == 0.0 then Failure(ZeroArea)
    else
      var xg := CentroidX(m);
      var yg := CentroidY(m);
      var c := CentroidalOf(m, xg, yg);
      if yg == e.Ymin || yg == e.Ymax then Failure(ZeroFibreDistance)
      else
        var f := FibresOf(yg, e.Ymin, e.Ymax, c.Ixg);
        SummaryDescribes(m, e, xg, yg, c, f);
        Success(Summarize(m, e, xg, yg, c, f))
  }

  /** The engine on a vertex list: it refuses fewer than two vertices, sums
      the edge terms over the consecutive pairs, scans all vertices for the
      envelope, and derives the rest. */
  function Compute(ps: seq<Point>): (r: Result)
    ensures r == Failure(TooFewPoints) <==> |ps| < 2
    ensures r == Failure(ZeroArea) <==> |ps| >= 2 && Integrate(ps).A == 0.0
    ensures r.Success? ==> |ps| >= 2 && Describes(Integrate(ps), Scan(ps).value, r.props)
    ensures r.Success? ==> Tight(ps, Envelope(r.props.Xmin, r.props.Xmax, r.props.Ymin, r.props.Ymax))
  {
    if |ps| < 2 then Failure(TooFewPoints)
    else Derive(Integrate(ps), Scan(ps).value)
  }

  // What the result means.

  /** Any result the engine gives describes the outline's integrals and
      envelope. */
  lemma Described(ps: seq<Point>, p: Props)
    requires Compute(ps) == Success(p)
    ensures |ps| >= 2 && Scan(ps).Some? && Describes(Integrate(ps), Scan(ps).value, p)
  {
  }

  /** About the centroid the first moments vanish and the second moments
      are the centroidal ones (the parallel-axis theorem). */
  lemma AboutCentroid(m: Moments, e: Envelope, p: Props)
    requires Describes(m, e, p)
    ensures m.Shifted(-p.Xg, -p.Yg) == Moments(p.A, 0.0, 0.0, p.Ixg, p.Iyg, p.Ixyg)
  {
    CentroidalFirstMoments(m, p.Xg, p.Yg);
  }

  /** The centroidal second moments are the integrals of the same closed
      outline moved so that its centroid is at the origin. */
  lemma CentroidalAboutCentroid(ps: seq<Point>, p: Props)
    requires Closed(ps) && Compute(ps) == Success(p)
    ensures Integrate(Translate(ps, -p.Xg, -p.Yg)) == Moments(p.A, 0.0, 0.0, p.Ixg, p.Iyg, p.Ixyg)
  {
    Described(ps, p);
    TranslateToCentroid(ps, Integrate(ps), Scan(ps).value, p);
  }

  lemma TranslateToCentroid(ps: seq<Point>, m: Moments, e: Envelope, p: Props)
    requires Closed(ps) && m == Integrate(ps) && Describes(m, e, p)
    ensures Integrate(Translate(ps, -p.Xg, -p.Yg)) == Moments(p.A, 0.0, 0.0, p.Ixg, p.Iyg, p.Ixyg)
  {
    IntegrateTranslate(ps, -p.Xg, -p.Yg);
    AboutCentroid(m, e, p);
  }

  /** Integrals with no product of inertia and no first moment about the
      y axis put the centroid on that axis, with no centroidal product. */
  lemma SymmetricProps(m: Moments, e: Envelope, p: Props)
    requires Describes(m, e, p) && m.Sy == 0.0 && m.Ixy == 0.0
    ensures p.Sy == 0.0 && p.Ixy == 0.0 && p.Xg == 0.0 && p.Ixyg == 0.0
  {
    SymmetricCentroid(m, p.Xg, p.Yg);
  }

  /** A section whose outline is its own mirror image in x = 0 has its
      centroid on that axis and no centroidal product of inertia. */
  lemma SymmetricSection(ps: seq<Point>, k: nat, p: Props)
    requires Closed(ps) && k < |ps|
    requires MirrorAll(Reverse(ps)) == RotateBy(ps, k)
    requires Compute(ps) == Success(p)
    ensures p.Sy == 0.0 && p.Ixy == 0.0 && p.Xg == 0.0 && p.Ixyg == 0.0
  {
    Described(ps, p);
    SymmetricOutline(ps, k);
    SymmetricProps(Integrate(ps), Scan(ps).value, p);
  }

  lemma SymmetricCentroid(m: Moments, xg: real, yg: real)
    requires m.A != 0.0 && m.Sy == 0.0 && m.Ixy == 0.0
    requires xg * m.A == m.Sy && yg * m.A == m.Sx
    ensures xg == 0.0 && m.Shifted(-xg, -yg).Ixy == 0.0
  {
    ZeroQuotient(xg, m.A);
    ShiftedFields(m, -xg, -yg);
    assert -xg * m.Sx == 0.0 && -yg * m.Sy == 0.0 && -xg * -yg * m.A == 0.0;
  }

  lemma ZeroQuotient(x: real, a: real)
    requires a != 0.0 && x * a == 0.0
    ensures x == 0.0
  {
  }

  /** The engine adds no edge from the last vertex back to the first: a
      caller closing the outline adds exactly that edge's terms. */
  lemma ClosingEdge(ps: seq<Point>)
    requires |ps| >= 1
    ensures Integrate(ps + [ps[0]]) == Integrate(ps).Plus(EdgeMoments(Last(ps), ps[0]))
  {
    SumAppend(ps, [ps[0]], EdgeMoments);
    SumShort([ps[0]], EdgeMoments);
    PlusZero(Integrate(ps).Plus(EdgeMoments(Last(ps), ps[0])));
  }

  /** The engine on a list of at least two vertices is the derivation from
      its integrals and its envelope. */
  lemma ComputeUnfold(ps: seq<Point>, m: Moments, e: Envelope)
    requires |ps| >= 2 && m == Integrate(ps) && Scan(ps) == Some(e)
    ensures Compute(ps) == Derive(m, e)
  {
  }

  /** The engine's result depends on a vertex list only through its sums
      and its envelope. */
  lemma SameSumsSameResult(ps: seq<Point>, qs: seq<Point>)
    requires |ps| >= 2 && |qs| >= 2
    requires Integrate(ps) == Integrate(qs) && Scan(ps) == Scan(qs)
    ensures Compute(ps) == Compute(qs)
  {
    ComputeUnfold(ps, Integrate(ps), Scan(ps).value);
    ComputeUnfold(qs, Integrate(ps), Scan(ps).value);
  }

  /** The engine succeeds exactly when the area is not zero and the
      centroid lies on neither the lowest nor the highest vertex level. */
  lemma SuccessCondition(ps: seq<Point>, m: Moments, e: Envelope)
    requires |ps| >= 2 && m == Integrate(ps) && Scan(ps) == Some(e)
    ensures Compute(ps).Success? <==> m.A != 0.0 && CentroidY(m) != e.Ymin && CentroidY(m) != e.Ymax
  {
    ComputeUnfold(ps, m, e);
  }

  /** The centroid lies on a level exactly when the first moment is that
      level times the area. */
  lemma OnLevel(m: Moments, y: real)
    requires m.A != 0.0
    ensures CentroidY(m) == y <==> m.Sx == y * m.A
  {
    assert (CentroidY(m) - y) * m.A == m.Sx - y * m.A;
  }

  /** A centroid outside the envelope's height, which an open path or an
      outline that crosses itself can have, still gets the distances
      |Yg − Ymin| and |Ymax − Yg|, the bottom one negated. */
  lemma CentroidOutside(m: Moments, e: Envelope, p: Props)
    requires Describes(m, e, p) && e.Ymin <= e.Ymax
    ensures e.Ymax < p.Yg ==> p.Y1 == e.Ymin - p.Yg && p.Y2 == p.Yg - e.Ymax
    ensures p.Yg < e.Ymin ==> p.Y1 == p.Yg - e.Ymin && p.Y2 == e.Ymax - p.Yg
  {
  }

  // Orientation.

  /** The values the engine gives for the same region traced the other way
      round: every integral and every quantity linear in them changes sign;
      the centroid, the envelope and the fibre distances do not. */
  function Reoriented(p: Props): Props {
    p.(A := -p.A, Sx := -p.Sx, Sy := -p.Sy, Ix := -p.Ix, Iy := -p.Iy, Ixy := -p.Ixy,
       Ixg := -p.Ixg, Iyg := -p.Iyg, Ixyg := -p.Ixyg, W1 := -p.W1, W2 := -p.W2)
  }

  lemma NegQuotient(x: real, a: real)
    requires a != 0.0
    ensures -x / -a == x / a && -x / a == -(x / a)
  {
  }

  lemma NegCentroidal(m: Moments, xg: real, yg: real)
    requires xg * m.A == m.Sy && yg * m.A == m.Sx
    ensures CentroidalOf(m.Neg(), xg, yg).Ixg == -CentroidalOf(m, xg, yg).Ixg
    ensures CentroidalOf(m.Neg(), xg, yg).Iyg == -CentroidalOf(m, xg, yg).Iyg
    ensures CentroidalOf(m.Neg(), xg, yg).Ixyg == -CentroidalOf(m, xg, yg).Ixyg
  {
    assert yg * yg * -m.A == -(yg * yg * m.A);
    assert xg * xg * -m.A == -(xg * xg * m.A);
    assert xg * yg * -m.A == -(xg * yg * m.A);
    assert CentroidalOf(m.Neg(), xg, yg).Ixyg == -m.Ixy - xg * yg * -m.A;
  }

  lemma NegFibres(yg: real, ymin: real, ymax: real, ixg: real)
    requires yg != ymin && yg != ymax
    ensures var f := FibresOf(yg, ymin, ymax, ixg);
            FibresOf(yg, ymin, ymax, -ixg) == f.(W1 := -f.W1, W2 := -f.W2)
  {
    NegQuotient(ixg, Abs(yg - ymin));
    NegQuotient(ixg, Abs(ymax - yg));
  }

  lemma NegSummary(m: Moments, e: Envelope, xg: real, yg: real, c: Centroidal, f: Fibres)
    ensures Summarize(m.Neg(), e, xg, yg, Centroidal(-c.Ixg, -c.Iyg, -c.Ixyg), f.(W1 := -f.W1, W2 := -f.W2))
         == Reoriented(Summarize(m, e, xg, yg, c, f))
  {
  }

  lemma NegCentroid(m: Moments)
    requires m.A != 0.0
    ensures m.Neg().A != 0.0
    ensures CentroidX(m.Neg()) == CentroidX(m) && CentroidY(m.Neg()) == CentroidY(m)
  {
    NegQuotient(m.Sy, m.A);
    NegQuotient(m.Sx, m.A);
  }

  lemma DeriveNegSuccess(m: Moments, e: Envelope)
    requires m.A != 0.0 && CentroidY(m) != e.Ymin && CentroidY(m) != e.Ymax
    ensures Derive(m, e).Success? && Derive(m.Neg(), e) == Success(Reoriented(Derive(m, e).props))
  {
    var xg, yg := CentroidX(m), CentroidY(m);
    NegCentroid(m);
    var c := CentroidalOf(m, xg, yg);
    NegCentroidal(m, xg, yg);
    assert CentroidalOf(m.Neg(), xg, yg) == Centroidal(-c.Ixg, -c.Iyg, -c.Ixyg);
    var f := FibresOf(yg, e.Ymin, e.Ymax, c.Ixg);
    NegFibres(yg, e.Ymin, e.Ymax, c.Ixg);
    NegSummary(m, e, xg, yg, c, f);
  }

  /** Negating the integrals keeps the outcome and reorients a success. */
  lemma DeriveNeg(m: Moments, e: Envelope)
    ensures Derive(m.Neg(), e).Success? <==> Derive(m, e).Success?
    ensures Derive(m, e).Failure? ==> Derive(m.Neg(), e) == Derive(m, e)
    ensures Derive(m, e).Success? ==> Derive(m.Neg(), e).props == Reoriented(Derive(m, e).props)
  {
    if m.A != 0.0 {
      NegCentroid(m);
      if CentroidY(m) != e.Ymin && CentroidY(m) != e.Ymax {
        DeriveNegSuccess(m, e);
      }
    }
  }

  /** Tracing the same outline the other way round gives the same outcome,
      with the integrals and the quantities linear in them negated. */
  lemma ReverseOrientation(ps: seq<Point>)
    ensures Compute(Reverse(ps)).Success? <==> Compute(ps).Success?
    ensures Compute(ps).Failure? ==> Compute(Reverse(ps)) == Compute(ps)
    ensures Compute(ps).Success? ==> Compute(Reverse(ps)).props == Reoriented(Compute(ps).props)
  {
    if |ps| >= 2 {
      var rs := Reverse(ps);
      assert forall p :: p in ps <==> p in rs by {
        forall p | p in ps ensures p in rs {
          var i :| 0 <= i < |ps| && ps[i] == p;
          assert rs[|ps| - 1 - i] == p;
        }
        forall p | p in rs ensures p in ps {
          var i :| 0 <= i < |rs| && rs[i] == p;
          assert ps[|ps| - 1 - i] == p;
        }
      }
      ScanSameVertices(ps, rs);
      IntegrateReverse(ps);
      var m, e := Integrate(ps), Scan(ps).value;
      ComputeUnfold(ps, m, e);
      ComputeUnfold(rs, m.Neg(), e);
      DeriveNeg(m, e);
    }
  }

  // Position.

  /** The values the engine gives for the same section moved by (a, b): the
      integrals follow the binomial expansion, the centroid and the envelope
      move along, and everything measured from the centroid or across the
      envelope stays. */
  function MovedProps(p: Props, a: real, b: real): Props {
    var s := Moments(p.A, p.Sx, p.Sy, p.Ix, p.Iy, p.Ixy).Shifted(a, b);
    p.(Sx := s.Sx, Sy := s.Sy, Ix := s.Ix, Iy := s.Iy, Ixy := s.Ixy,
       Xg := p.Xg + a, Yg := p.Yg + b,
       Xmin := p.Xmin + a, Xmax := p.Xmax + a, Ymin := p.Ymin + b, Ymax := p.Ymax + b)
  }

  lemma ShiftedCentroid(m: Moments, a: real, b: real)
    requires m.A != 0.0
    ensures m.Shifted(a, b).A == m.A
    ensures CentroidX(m.Shifted(a, b)) == CentroidX(m) + a
    ensures CentroidY(m.Shifted(a, b)) == CentroidY(m) + b
  {
    var n := m.Shifted(a, b);
    ShiftedFields(m, a, b);
    var xg, yg := CentroidX(m), CentroidY(m);
    ZeroQuotient(CentroidX(n) - xg - a, m.A);
    ZeroQuotient(CentroidY(n) - yg - b, m.A);
  }

  lemma ShiftedSquare(i: real, s: real, area: real, g: real, b: real)
    requires g * area == s
    ensures i + 2.0 * b * s + b * b * area - (g + b) * (g + b) * area == i - g * g * area
  {
    assert (g + b) * (g + b) * area == g * g * area + 2.0 * b * (g * area) + b * b * area;
  }

  lemma ShiftedProduct(i: real, sx: real, sy: real, area: real, xg: real, yg: real, a: real, b: real)
    requires xg * area == sy && yg * area == sx
    ensures i + a * sx + b * sy + a * b * area - (xg + a) * (yg + b) * area == i - xg * yg * area
  {
    assert (xg + a) * (yg + b) * area == xg * yg * area + a * (yg * area) + b * (xg * area) + a * b * area;
  }

  /** Moving the region and its centroid together leaves the centroidal
      second moments alone. */
  lemma CentroidalShifted(m: Moments, xg: real, yg: real, a: real, b: real)
    requires xg * m.A == m.Sy && yg * m.A == m.Sx
    ensures (xg + a) * m.Shifted(a, b).A == m.Shifted(a, b).Sy
    ensures (yg + b) * m.Shifted(a, b).A == m.Shifted(a, b).Sx
    ensures CentroidalOf(m.Shifted(a, b), xg + a, yg + b) == CentroidalOf(m, xg, yg)
  {
    ShiftedFields(m, a, b);
    ShiftedSquare(m.Ix, m.Sx, m.A, yg, b);
    ShiftedSquare(m.Iy, m.Sy, m.A, xg, a);
    ShiftedProduct(m.Ixy, m.Sx, m.Sy, m.A, xg, yg, a, b);
  }

  lemma FibresShifted(yg: real, ymin: real, ymax: real, ixg: real, b: real)
    requires yg != ymin && yg != ymax
    ensures FibresOf(yg + b, ymin + b, ymax + b, ixg) == FibresOf(yg, ymin, ymax, ixg)
  {
    assert (yg + b) - (ymin + b) == yg - ymin && (ymax + b) - (yg + b) == ymax - yg;
  }

  lemma SummaryShifted(m: Moments, e: Envelope, xg: real, yg: real, c: Centroidal, f: Fibres, a: real, b: real)
    ensures Summarize(m.Shifted(a, b), Offset(e, a, b), xg + a, yg + b, c, f)
         == MovedProps(Summarize(m, e, xg, yg, c, f), a, b)
  {
    var o := Offset(e, a, b);
    assert o.Ymax - o.Ymin == e.Ymax - e.Ymin && o.Xmax - o.Xmin == e.Xmax - e.Xmin;
  }

  lemma ShiftedParts(m: Moments, e: Envelope, a: real, b: real)
    requires m.A != 0.0 && CentroidY(m) != e.Ymin && CentroidY(m) != e.Ymax
    ensures var n, xg, yg := m.Shifted(a, b), CentroidX(m), CentroidY(m);
            var c, o := CentroidalOf(m, xg, yg), Offset(e, a, b);
            && n.A != 0.0 && CentroidX(n) == xg + a && CentroidY(n) == yg + b
            && CentroidY(n) != o.Ymin && CentroidY(n) != o.Ymax
            && CentroidalOf(n, CentroidX(n), CentroidY(n)) == c
            && FibresOf(yg + b, o.Ymin, o.Ymax, c.Ixg) == FibresOf(yg, e.Ymin, e.Ymax, c.Ixg)
            && Summarize(n, o, xg + a, yg + b, c, FibresOf(yg, e.Ymin, e.Ymax, c.Ixg))
               == MovedProps(Summarize(m, e, xg, yg, c, FibresOf(yg, e.Ymin, e.Ymax, c.Ixg)), a, b)
  {
    var xg, yg := CentroidX(m), CentroidY(m);
    ShiftedCentroid(m, a, b);
    var c := CentroidalOf(m, xg, yg);
    CentroidalShifted(m, xg, yg, a, b);
    var d := CentroidalOf(m.Shifted(a, b), xg + a, yg + b);
    var f := FibresOf(yg, e.Ymin, e.Ymax, c.Ixg);
    FibresShifted(yg, e.Ymin, e.Ymax, c.Ixg, b);
    SummaryShifted(m, e, xg, yg, c, f, a, b);
  }

  lemma DeriveShiftedSuccess(m: Moments, e: Envelope, a: real, b: real)
    requires m.A != 0.0 && CentroidY(m) != e.Ymin && CentroidY(m) != e.Ymax
    ensures Derive(m, e).Success?
    ensures Derive(m.Shifted(a, b), Offset(e, a, b)) == Success(MovedProps(Derive(m, e).props, a, b))
  {
    ShiftedParts(m, e, a, b);
  }

  /** Moving the integrals and the envelope together keeps the outcome and
      moves a success. */
  lemma DeriveShifted(m: Moments, e: Envelope, a: real, b: real)
    ensures Derive(m.Shifted(a, b), Offset(e, a, b)).Success? <==> Derive(m, e).Success?
    ensures Derive(m, e).Failure? ==> Derive(m.Shifted(a, b), Offset(e, a, b)) == Derive(m, e)
    ensures Derive(m, e).Success?
        ==> Derive(m.Shifted(a, b), Offset(e, a, b)).props == MovedProps(Derive(m, e).props, a, b)
  {
    ShiftedFields(m, a, b);
    if m.A != 0.0 {
      ShiftedCentroid(m, a, b);
      if CentroidY(m) != e.Ymin && CentroidY(m) != e.Ymax {
        DeriveShiftedSuccess(m, e, a, b);
      }
    }
  }

  /** Moving a closed outline keeps the outcome, moves the centroid and the
      envelope with it, and leaves every centroidal quantity unchanged. */
  lemma TranslateSection(ps: seq<Point>, a: real, b: real)
    requires Closed(ps)
    ensures Compute(Translate(ps, a, b)).Success? <==> Compute(ps).Success?
    ensures Compute(ps).Failure? ==> Compute(Translate(ps, a, b)) == Compute(ps)
    ensures Compute(ps).Success? ==> Compute(Translate(ps, a, b)).props == MovedProps(Compute(ps).props, a, b)
  {
    var qs := Translate(ps, a, b);
    IntegrateTranslate(ps, a, b);
    ScanTranslate(ps, a, b);
    var m, e := Integrate(ps), Scan(ps).value;
    ComputeUnfold(ps, m, e);
    ComputeUnfold(qs, m.Shifted(a, b), Offset(e, a, b));
    DeriveShifted(m, e, a, b);
  }
}
