/** The bounding envelope of a vertex list, found by one scan of all vertices. */
module Envelope {
  import opened Geometry
  import opened Integration

  datatype Option<T> = None | Some(value: T)

  /** The extreme coordinates of the vertices seen so far. */
  datatype Envelope = Envelope(Xmin: real, Xmax: real, Ymin: real, Ymax: real)

  /** Every vertex lies inside the envelope. */
  ghost predicate Contains(ps: seq<Point>, e: Envelope) {
    forall i :: 0 <= i < |ps| ==> e.Xmin <= ps[i].x <= e.Xmax && e.Ymin <= ps[i].y <= e.Ymax
  }

  /** Each bound of the envelope is some vertex's coordinate. */
  ghost predicate Attained(ps: seq<Point>, e: Envelope) {
    (exists i :: 0 <= i < |ps| && ps[i].x == e.Xmin)
    && (exists i :: 0 <= i < |ps| && ps[i].x == e.Xmax)
    && (exists i :: 0 <= i < |ps| && ps[i].y == e.Ymin)
    && (exists i :: 0 <= i < |ps| && ps[i].y == e.Ymax)
  }

  /** The tightest box around the vertices. */
  ghost predicate Tight(ps: seq<Point>, e: Envelope) {
    Contains(ps, e) && Attained(ps, e)
  }

  /** One step of the scan. A bound is set when it has no value yet, and
      replaced when the new coordinate reaches it: `>=` for the maxima,
      `<=` for the minima. */
  function Observe(o: Option<Envelope>, p: Point): (e: Envelope)
    ensures o.None? ==> e == Envelope(p.x, p.x, p.y, p.y)
    ensures o.Some? ==> e.Xmin <= o.value.Xmin && e.Xmax >= o.value.Xmax
    ensures o.Some? ==> e.Ymin <= o.value.Ymin && e.Ymax >= o.value.Ymax
    ensures e.Xmin <= p.x <= e.Xmax && e.Ymin <= p.y <= e.Ymax
    ensures (e.Xmin == p.x || (o.Some? && e.Xmin == o.value.Xmin))
         && (e.Xmax == p.x || (o.Some? && e.Xmax == o.value.Xmax))
    ensures (e.Ymin == p.y || (o.Some? && e.Ymin == o.value.Ymin))
         && (e.Ymax == p.y || (o.Some? && e.Ymax == o.value.Ymax))
  {
    Envelope(
      if o.None? || p.x <= o.value.Xmin then p.x else o.value.Xmin,
      if o.None? || p.x >= o.value.Xmax then p.x else o.value.Xmax,
      if o.None? || p.y <= o.value.Ymin then p.y else o.value.Ymin,
      if o.None? || p.y >= o.value.Ymax then p.y else o.value.Ymax)
  }

  /** The envelope after scanning every vertex in order, the last one
      included; there is none for an empty list. */
  function Scan(ps: seq<Point>): (o: Option<Envelope>)
    ensures o.Some? <==> |ps| >= 1
    ensures o.Some? ==> Tight(ps, o.value)
    decreases |ps|
  {
    if |ps| == 0 then None
    else
      var o := Scan(ps[..|ps| - 1]);
      var e := Observe(o, ps[|ps| - 1]);
      TightStep(ps, o, e);
      Some(e)
  }

  /** Adding one vertex to a scanned prefix keeps the envelope tight. */
  lemma TightStep(ps: seq<Point>, o: Option<Envelope>, e: Envelope)
    requires |ps| >= 1
    requires o.None? <==> |ps| == 1
    requires o.Some? ==> Tight(ps[..|ps| - 1], o.value)
    requires e == Observe(o, ps[|ps| - 1])
    ensures Tight(ps, e)
  {
    var n := |ps|;
    var pre := ps[..n - 1];
    assert forall i :: 0 <= i < n - 1 ==> ps[i] == pre[i];
    if o.Some? {
      var (xmin, xmax, ymin, ymax) := (o.value.Xmin, o.value.Xmax, o.value.Ymin, o.value.Ymax);
      if e.Xmin != ps[n - 1].x {
        var i :| 0 <= i < n - 1 && pre[i].x == xmin;
        assert ps[i].x == e.Xmin;
      }
      if e.Xmax != ps[n - 1].x {
        var i :| 0 <= i < n - 1 && pre[i].x == xmax;
        assert ps[i].x == e.Xmax;
      }
      if e.Ymin != ps[n - 1].y {
        var i :| 0 <= i < n - 1 && pre[i].y == ymin;
        assert ps[i].y == e.Ymin;
      }
      if e.Ymax != ps[n - 1].y {
        var i :| 0 <= i < n - 1 && pre[i].y == ymax;
        assert ps[i].y == e.Ymax;
      }
    }
  }

  /** There is only one tightest box: the envelope does not depend on the
      order in which the vertices are scanned. */
  lemma TightUnique(ps: seq<Point>, e: Envelope, f: Envelope)
    requires Tight(ps, e) && Tight(ps, f)
    ensures e == f
  {
    var i :| 0 <= i < |ps| && ps[i].x == e.Xmin;
    var j :| 0 <= j < |ps| && ps[j].x == f.Xmin;
    assert e.Xmin == f.Xmin;
    i :| 0 <= i < |ps| && ps[i].x == e.Xmax;
    j :| 0 <= j < |ps| && ps[j].x == f.Xmax;
    assert e.Xmax == f.Xmax;
    i :| 0 <= i < |ps| && ps[i].y == e.Ymin;
    j :| 0 <= j < |ps| && ps[j].y == f.Ymin;
    assert e.Ymin == f.Ymin;
    i :| 0 <= i < |ps| && ps[i].y == e.Ymax;
    j :| 0 <= j < |ps| && ps[j].y == f.Ymax;
  }

  /** Lists holding the same vertices, in any order and with any
      repetitions, have the same envelope. */
  lemma ScanSameVertices(ps: seq<Point>, qs: seq<Point>)
    requires forall p :: p in ps <==> p in qs
    ensures Scan(ps) == Scan(qs)
  {
    assert |ps| >= 1 ==> ps[0] in qs;
    assert |qs| >= 1 ==> qs[0] in ps;
    if |ps| >= 1 {
      var e, f := Scan(ps).value, Scan(qs).value;
      assert Tight(ps, f) by {
        forall i | 0 <= i < |ps|
          ensures f.Xmin <= ps[i].x <= f.Xmax && f.Ymin <= ps[i].y <= f.Ymax
        {
          assert ps[i] in qs;
        }
        TransferAttained(qs, ps, f);
      }
      TightUnique(ps, e, f);
    }
  }

  lemma TransferAttained(qs: seq<Point>, ps: seq<Point>, f: Envelope)
    requires forall p :: p in qs ==> p in ps
    requires Attained(qs, f)
    ensures Attained(ps, f)
  {
    var i :| 0 <= i < |qs| && qs[i].x == f.Xmin;
    assert qs[i] in ps;
    i :| 0 <= i < |qs| && qs[i].x == f.Xmax;
    assert qs[i] in ps;
    i :| 0 <= i < |qs| && qs[i].y == f.Ymin;
    assert qs[i] in ps;
    i :| 0 <= i < |qs| && qs[i].y == f.Ymax;
    assert qs[i] in ps;
  }

  /** The envelope moved by (a, b). */
  function Offset(e: Envelope, a: real, b: real): (f: Envelope)
    ensures f.Xmax - f.Xmin == e.Xmax - e.Xmin && f.Ymax - f.Ymin == e.Ymax - e.Ymin
    ensures f.Xmin - e.Xmin == a && f.Ymin - e.Ymin == b
  {
    Envelope(e.Xmin + a, e.Xmax + a, e.Ymin + b, e.Ymax + b)
  }

  /** Moving every vertex moves the envelope by the same amount. */
  lemma ScanTranslate(ps: seq<Point>, a: real, b: real)
    ensures Scan(Translate(ps, a, b)) == if |ps| == 0 then None else Some(Offset(Scan(ps).value, a, b))
  {
    var qs := Translate(ps, a, b);
    if |ps| >= 1 {
      var f := Offset(Scan(ps).value, a, b);
      ContainsTranslate(ps, Scan(ps).value, a, b);
      AttainedTranslate(ps, Scan(ps).value, a, b);
      TightUnique(qs, Scan(qs).value, f);
    }
  }

  lemma ContainsTranslate(ps: seq<Point>, e: Envelope, a: real, b: real)
    requires Contains(ps, e)
    ensures Contains(Translate(ps, a, b), Offset(e, a, b))
  {
  }

  lemma AttainedTranslate(ps: seq<Point>, e: Envelope, a: real, b: real)
    requires Attained(ps, e)
    ensures Attained(Translate(ps, a, b), Offset(e, a, b))
  {
    var qs, f := Translate(ps, a, b), Offset(e, a, b);
    var i :| 0 <= i < |ps| && ps[i].x == e.Xmin;
    assert qs[i].x == f.Xmin;
    i :| 0 <= i < |ps| && ps[i].x == e.Xmax;
    assert qs[i].x == f.Xmax;
    i :| 0 <= i < |ps| && ps[i].y == e.Ymin;
    assert qs[i].y == f.Ymin;
    i :| 0 <= i < |ps| && ps[i].y == e.Ymax;
    assert qs[i].y == f.Ymax;
  }

  /** The update of one upper bound: set when it has no value yet, replaced
      when the coordinate reaches it. */
  function Raise(b: Option<real>, v: real): (c: Option<real>)
    ensures c.Some? && c.value >= v
    ensures b.Some? ==> c.value >= b.value
    ensures c.value == v || c == b
  {
    if b.None? || v >= b.value then Some(v) else b
  }

  /** The update of one lower bound. */
  function Lower(b: Option<real>, v: real): (c: Option<real>)
    ensures c.Some? && c.value <= v
    ensures b.Some? ==> c.value <= b.value
    ensures c.value == v || c == b
  {
    if b.None? || v <= b.value then Some(v) else b
  }

  /** Four nullable bounds read as an envelope, present once all four are. */
  function Bounds(xmin: Option<real>, xmax: Option<real>, ymin: Option<real>, ymax: Option<real>): Option<Envelope> {
    if xmin.Some? && xmax.Some? && ymin.Some? && ymax.Some?
    then Some(Envelope(xmin.value, xmax.value, ymin.value, ymax.value))
    else None
  }

  /** The four separate updates are one step of the scan. */
  lemma UpdateIsObserve(xmin: Option<real>, xmax: Option<real>, ymin: Option<real>, ymax: Option<real>, p: Point)
    requires xmin.Some? == xmax.Some? == ymin.Some? == ymax.Some?
    ensures Bounds(Lower(xmin, p.x), Raise(xmax, p.x), Lower(ymin, p.y), Raise(ymax, p.y))
         == Some(Observe(Bounds(xmin, xmax, ymin, ymax), p))
  {
  }

  /** Scanning one more vertex is one more step of the scan. */
  lemma ScanPrefix(ps: seq<Point>, j: nat)
    requires j < |ps|
    ensures Scan(ps[..j + 1]) == Some(Observe(Scan(ps[..j]), ps[j]))
  {
    assert ps[..j + 1][..j] == ps[..j];
  }

  /** The engine's scan: four separately nullable bounds, each updated by its
      own rule for every vertex, the last one included. */
  method ScanBounds(ps: seq<Point>) returns (o: Option<Envelope>)
    ensures o.Some? <==> |ps| >= 1
    ensures o.Some? ==> Tight(ps, o.value)
    ensures o == Scan(ps)
  {
    var xmin, xmax, ymin, ymax: Option<real> := None, None, None, None;
    var j := 0;
    assert ps[..0] == [];
    while j < |ps|
      invariant 0 <= j <= |ps|
      invariant xmin.Some? == xmax.Some? == ymin.Some? == ymax.Some?
      invariant Scan(ps[..j]) == Bounds(xmin, xmax, ymin, ymax)
    {
      var p := ps[j];
      UpdateIsObserve(xmin, xmax, ymin, ymax, p);
      ScanPrefix(ps, j);
      xmax := Raise(xmax, p.x);
      xmin := Lower(xmin, p.x);
      ymax := Raise(ymax, p.y);
      ymin := Lower(ymin, p.y);
      j := j + 1;
    }
    assert ps[..j] == ps;
    o := Bounds(xmin, xmax, ymin, ymax);
  }
}
