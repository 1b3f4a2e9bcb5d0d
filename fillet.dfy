/**
 * `compute_fillet` of pneurouter.py: every vertex of an offset loop becomes
 * either a straight line to it, or a line to the start of a fillet arc
 * followed by one cubic Bezier command.
 */
module Fillet {
  import opened Geometry
  import opened Outcomes
  import opened OffsetEngine

  /** Tangent angles within this of 0 or pi get no arc. */
  const EpsAngle: real := 0.001

  /** The fillet generator's commands: `("L", p)` and `("C", [c1, c2, end])`. */
  datatype FilletCmd = Line(p: Point) | Curve(c1: Point, c2: Point, end: Point)

  /** `angle_between`: acos of the dot product clamped to [-1, 1]. */
  function AngleBetween(m: MathLib, u: Point, v: Point): real
  {
    m.acos(Max(-1.0, Min(1.0, Dot(u, v))))
  }

  /** The previous element, wrapping to the last one at index 0 (`s[i-1] if i>0 else s[-1]`). */
  function Before(s: seq<Point>, i: nat): Point
    requires i < |s|
  {
    if i > 0 then s[i - 1] else s[|s| - 1]
  }

  /**
   * The next element: wrapping to the first one when closed (`s[(i+1) % len(s)]`,
   * which for i < len(s) is the next element or s[0]), plain `s[i+1]` when open.
   */
  function After(s: seq<Point>, i: nat, closed: bool): Point
    requires i < |s| && (closed || i + 1 < |s|)
  {
    if closed && i + 1 == |s| then s[0] else s[i + 1]
  }

  /** The two ends of an open path get a straight line and no fillet. */
  predicate IsOpenEnd(count: nat, closed: bool, i: nat)
  {
    !closed && (i == 0 || i + 1 == count)
  }

  /**
   * The turn angle of the raw input at vertex i, between the unit vectors
   * toward its raw neighbours; None when a neighbour coincides with it.
   */
  function RawAngle(m: MathLib, raw: seq<Point>, closed: bool, i: nat): Option<real>
    requires i < |raw| && !IsOpenEnd(|raw|, closed, i)
  {
    var cur := raw[i];
    var u := Sub(Before(raw, i), cur);
    var v := Sub(After(raw, i, closed), cur);
    var l1 := m.hypot(u.x, u.y);
    var l2 := m.hypot(v.x, v.y);
    if l1 == 0.0 || l2 == 0.0 then None
    else Some(AngleBetween(m, Div(u, l1), Div(v, l2)))
  }

  /** Interior corners (raw angle below pi) take the inner radius, the others the outer one. */
  function ChosenRadius(ang: real, outerR: real, innerR: real): real
  {
    if ang < Pi then innerR else outerR
  }

  /** The radius clamped to half the shorter adjacent offset edge. */
  function ClampRadius(r: real, d1: real, d2: real): real
  {
    Min(r, 0.5 * Min(d1, d2))
  }

  /** A control point: q moved by r*k along the left normal of t, forward or backward. */
  function ControlPoint(q: Point, t: Point, r: real, k: real, forward: bool): Point
  {
    var n := Rot90(t);
    var sign := if forward then 1.0 else -1.0;
    Point(q.x + n.x * r * k * sign, q.y + n.y * r * k * sign)
  }

  /**
   * The commands for an offset vertex p with offset neighbours prev and next
   * at distances d1 and d2 and clamped radius r: a straight line when the
   * tangents are nearly aligned or nearly opposite, otherwise a line to the
   * arc start and a cubic to the arc end.
   */
  function ArcCommands(m: MathLib, p: Point, prev: Point, next: Point, d1: real, d2: real, r: real, interior: bool)
    : seq<FilletCmd>
    requires d1 != 0.0 && d2 != 0.0
  {
    var t1 := Div(Sub(prev, p), d1);
    var t2 := Div(Sub(next, p), d2);
    var start := Add(p, Scale(t1, r));
    var end := Add(p, Scale(t2, r));
    var theta := AngleBetween(m, t1, t2);
    if theta < EpsAngle || Abs(Pi - theta) < EpsAngle then [Line(p)]
    else
      var phi := theta / 2.0;
      var k := 4.0 / 3.0 * m.tan(phi / 2.0);
      [Line(start), Curve(ControlPoint(start, t1, r, k, !interior), ControlPoint(end, t2, r, k, interior), end)]
  }

  /** The clamped radius at a vertex that gets a fillet attempt. */
  function VertexRadius(m: MathLib, loop: seq<Point>, outerR: real, innerR: real, closed: bool, i: nat, ang: real): real
    requires i < |loop| && !IsOpenEnd(|loop|, closed, i)
  {
    var p := loop[i];
    ClampRadius(ChosenRadius(ang, outerR, innerR), Dist(m, p, Before(loop, i)), Dist(m, p, After(loop, i, closed)))
  }

  /**
   * What one iteration of compute_fillet appends for vertex i; Err when an
   * offset neighbour coincides with the vertex (the unchecked `/d1`, `/d2`).
   */
  function FilletAt(m: MathLib, raw: seq<Point>, loop: seq<Point>, outerR: real, innerR: real, closed: bool, i: nat)
    : Result<seq<FilletCmd>, Error>
    requires |raw| == |loop| && i < |loop|
  {
    var p := loop[i];
    if IsOpenEnd(|loop|, closed, i) then Ok([Line(p)])
    else
      match RawAngle(m, raw, closed, i)
      case None => Ok([Line(p)])
      case Some(ang) =>
        var prev := Before(loop, i);
        var next := After(loop, i, closed);
        var d1 := Dist(m, p, prev);
        var d2 := Dist(m, p, next);
        if d1 == 0.0 || d2 == 0.0 then Err(ZeroDivision)
        else Ok(ArcCommands(m, p, prev, next, d1, d2, VertexRadius(m, loop, outerR, innerR, closed, i, ang), ang < Pi))
  }

  /**
   * A vertex yields either a plain line to itself or a line followed by one
   * cubic; the only failure is the division by a zero offset edge.
   */
  lemma FilletAtShape(m: MathLib, raw: seq<Point>, loop: seq<Point>, outerR: real, innerR: real, closed: bool, i: nat)
    requires |raw| == |loop| && i < |loop|
    ensures var r := FilletAt(m, raw, loop, outerR, innerR, closed, i);
      (r.Err? ==> r.error == ZeroDivision) &&
      (r.Ok? ==> r.value == [Line(loop[i])] || (|r.value| == 2 && r.value[0].Line? && r.value[1].Curve?))
  {
  }

  /**
   * The angle between the unit tangents from offset vertex i toward its
   * previous and next offset neighbours, at distances d1 and d2.
   */
  function TangentAngle(m: MathLib, loop: seq<Point>, closed: bool, i: nat, d1: real, d2: real): real
    requires i < |loop| && !IsOpenEnd(|loop|, closed, i) && d1 != 0.0 && d2 != 0.0
  {
    var p := loop[i];
    AngleBetween(m, Div(Sub(Before(loop, i), p), d1), Div(Sub(After(loop, i, closed), p), d2))
  }

  /**
   * Which of its two shapes a vertex that is not an open end gets, once its
   * offset neighbours are apart from it: a single line to it exactly when a
   * raw neighbour coincides with it, or when the tangent angle is within
   * EpsAngle of 0 or of pi; a line to the arc start and a cubic otherwise.
   */
  lemma FilletAtCases(m: MathLib, raw: seq<Point>, loop: seq<Point>, outerR: real, innerR: real, closed: bool, i: nat)
    requires |raw| == |loop| && i < |loop| && !IsOpenEnd(|loop|, closed, i)
    requires Dist(m, loop[i], Before(loop, i)) != 0.0 && Dist(m, loop[i], After(loop, i, closed)) != 0.0
    ensures FilletAt(m, raw, loop, outerR, innerR, closed, i).Ok?
    ensures var cmds := FilletAt(m, raw, loop, outerR, innerR, closed, i).value;
      var theta := TangentAngle(m, loop, closed, i, Dist(m, loop[i], Before(loop, i)), Dist(m, loop[i], After(loop, i, closed)));
      var straight := RawAngle(m, raw, closed, i).None? || theta < EpsAngle || Abs(Pi - theta) < EpsAngle;
      (cmds == [Line(loop[i])] <==> straight) &&
      (!straight <==> |cmds| == 2 && cmds[0].Line? && cmds[1].Curve?)
  {
  }

  /** A vertex where the fillet divides by zero: not an open end, with an offset neighbour on top of it. */
  predicate CoincidentNeighbour(loop: seq<Point>, closed: bool, i: nat)
    requires i < |loop|
  {
    !IsOpenEnd(|loop|, closed, i) && (Before(loop, i) == loop[i] || After(loop, i, closed) == loop[i])
  }

  /** The fillet of the first k vertices fails only where one of those vertices fails. */
  lemma {:induction false} FilletCmdsErrorAt(m: MathLib, raw: seq<Point>, loop: seq<Point>, outerR: real, innerR: real,
                                             closed: bool, k: nat)
    requires |raw| == |loop| && k <= |loop|
    requires FilletCmds(m, raw, loop, outerR, innerR, closed, k).Err?
    ensures exists j :: 0 <= j < k && FilletAt(m, raw, loop, outerR, innerR, closed, j).Err?
  {
    assert k > 0;
    if FilletCmds(m, raw, loop, outerR, innerR, closed, k - 1).Err? {
      FilletCmdsErrorAt(m, raw, loop, outerR, innerR, closed, k - 1);
      var j :| 0 <= j < k - 1 && FilletAt(m, raw, loop, outerR, innerR, closed, j).Err?;
      assert 0 <= j < k;
    } else {
      assert FilletAt(m, raw, loop, outerR, innerR, closed, k - 1).Err?;
    }
  }

  /** The fillet of the first k vertices fails only where one of them has a coincident offset neighbour. */
  lemma FilletCmdsErrorCause(m: MathLib, raw: seq<Point>, loop: seq<Point>, outerR: real, innerR: real,
                             closed: bool, k: nat)
    requires Lawful(m) && |raw| == |loop| && k <= |loop|
    requires FilletCmds(m, raw, loop, outerR, innerR, closed, k).Err?
    ensures exists j :: 0 <= j < k && CoincidentNeighbour(loop, closed, j)
  {
    FilletCmdsErrorAt(m, raw, loop, outerR, innerR, closed, k);
    var j :| 0 <= j < k && FilletAt(m, raw, loop, outerR, innerR, closed, j).Err?;
    FilletErrorMeansCoincidentOffsets(m, raw, loop, outerR, innerR, closed, j);
    assert CoincidentNeighbour(loop, closed, j);
  }

  /** Commands for the first k vertices, stopping at the first error. */
  function FilletCmds(m: MathLib, raw: seq<Point>, loop: seq<Point>, outerR: real, innerR: real, closed: bool, k: nat)
    : Result<seq<FilletCmd>, Error>
    requires |raw| == |loop| && k <= |loop|
  {
    if k == 0 then Ok([])
    else
      match FilletCmds(m, raw, loop, outerR, innerR, closed, k - 1)
      case Err(e) => Err(e)
      case Ok(done) =>
        match FilletAt(m, raw, loop, outerR, innerR, closed, k - 1)
        case Err(e) => Err(e)
        case Ok(more) => Ok(done + more)
  }

  /** One iteration of compute_fillet: vertex i's commands appended to those of the vertices before it. */
  method AppendVertex(m: MathLib, raw: seq<Point>, loop: seq<Point>, outerR: real, innerR: real, closed: bool,
                      i: nat, cmds: seq<FilletCmd>)
    returns (res: Result<seq<FilletCmd>, Error>)
    requires |raw| == |loop| && i < |loop|
    requires FilletCmds(m, raw, loop, outerR, innerR, closed, i) == Ok(cmds)
    ensures res == FilletCmds(m, raw, loop, outerR, innerR, closed, i + 1)
    ensures res.Ok? ==> cmds <= res.value
    ensures res.Err? ==> res == FilletCmds(m, raw, loop, outerR, innerR, closed, |loop|)
  {
    var c := FilletAt(m, raw, loop, outerR, innerR, closed, i);
    if c.Err? {
      ErrorPersists(m, raw, loop, outerR, innerR, closed, i + 1, |loop|);
      return Err(c.error);
    }
    res := Ok(cmds + c.value);
  }

  /** compute_fillet: one pass over the offset loop, appending each vertex's commands. */
  method ComputeFillet(m: MathLib, raw: seq<Point>, loop: seq<Point>, outerR: real, innerR: real, closed: bool)
    returns (res: Result<seq<FilletCmd>, Error>)
    requires |raw| == |loop|
    ensures res == FilletCmds(m, raw, loop, outerR, innerR, closed, |loop|)
  {
    var cmds: seq<FilletCmd> := [];
    var i := 0;
    while i < |loop|
      invariant 0 <= i <= |loop|
      invariant FilletCmds(m, raw, loop, outerR, innerR, closed, i) == Ok(cmds)
    {
      var step := AppendVertex(m, raw, loop, outerR, innerR, closed, i, cmds);
      if step.Err? {
        return step;
      }
      cmds := step.value;
      i := i + 1;
    }
    res := Ok(cmds);
  }

  /** Once a vertex fails, every longer prefix fails with the same error. */
  lemma {:induction false} ErrorPersists(m: MathLib, raw: seq<Point>, loop: seq<Point>, outerR: real, innerR: real,
                                         closed: bool, k: nat, k': nat)
    requires |raw| == |loop| && k <= k' <= |loop|
    requires FilletCmds(m, raw, loop, outerR, innerR, closed, k).Err?
    ensures FilletCmds(m, raw, loop, outerR, innerR, closed, k') == FilletCmds(m, raw, loop, outerR, innerR, closed, k)
    decreases k' - k
  {
    if k < k' {
      ErrorPersists(m, raw, loop, outerR, innerR, closed, k, k' - 1);
    }
  }

  /** The fillet of a loop fails only by dividing by zero. */
  lemma {:induction false} FilletCmdsErrors(m: MathLib, raw: seq<Point>, loop: seq<Point>, outerR: real, innerR: real,
                                            closed: bool, k: nat)
    requires |raw| == |loop| && k <= |loop|
    ensures FilletCmds(m, raw, loop, outerR, innerR, closed, k).Err? ==>
      FilletCmds(m, raw, loop, outerR, innerR, closed, k).error == ZeroDivision
  {
    if k > 0 {
      FilletCmdsErrors(m, raw, loop, outerR, innerR, closed, k - 1);
      FilletAtShape(m, raw, loop, outerR, innerR, closed, k - 1);
    }
  }

  /** Every vertex contributes one or two commands, so k vertices give between k and 2k. */
  lemma {:induction false} FilletCount(m: MathLib, raw: seq<Point>, loop: seq<Point>, outerR: real, innerR: real,
                                       closed: bool, k: nat)
    requires |raw| == |loop| && k <= |loop|
    requires FilletCmds(m, raw, loop, outerR, innerR, closed, k).Ok?
    ensures k <= |FilletCmds(m, raw, loop, outerR, innerR, closed, k).value| <= 2 * k
  {
    if k > 0 {
      FilletCount(m, raw, loop, outerR, innerR, closed, k - 1);
      FilletAtShape(m, raw, loop, outerR, innerR, closed, k - 1);
    }
  }

  /** The commands of the first vertex stay at the front of every longer prefix. */
  lemma {:induction false} FirstCommandKept(m: MathLib, raw: seq<Point>, loop: seq<Point>, outerR: real, innerR: real,
                                            closed: bool, k: nat)
    requires |raw| == |loop| && 1 <= k <= |loop|
    requires FilletCmds(m, raw, loop, outerR, innerR, closed, k).Ok?
    ensures FilletAt(m, raw, loop, outerR, innerR, closed, 0).Ok?
    ensures var first := FilletAt(m, raw, loop, outerR, innerR, closed, 0).value;
      first <= FilletCmds(m, raw, loop, outerR, innerR, closed, k).value
  {
    if k > 1 {
      FirstCommandKept(m, raw, loop, outerR, innerR, closed, k - 1);
    }
  }

  /**
   * On an open path the loop starts with a plain line to its first vertex
   * and ends with a plain line to its last one (flat caps).
   */
  lemma OpenEndsAreLines(m: MathLib, raw: seq<Point>, loop: seq<Point>, outerR: real, innerR: real)
    requires |raw| == |loop| >= 1
    requires FilletCmds(m, raw, loop, outerR, innerR, false, |loop|).Ok?
    ensures var cmds := FilletCmds(m, raw, loop, outerR, innerR, false, |loop|).value;
      |cmds| >= 1 && cmds[0] == Line(loop[0]) && cmds[|cmds| - 1] == Line(loop[|loop| - 1])
  {
    FirstCommandKept(m, raw, loop, outerR, innerR, false, |loop|);
    FilletCount(m, raw, loop, outerR, innerR, false, |loop|);
  }

  /** A fillet fails only where an offset neighbour coincides with the offset vertex. */
  lemma FilletErrorMeansCoincidentOffsets(m: MathLib, raw: seq<Point>, loop: seq<Point>, outerR: real, innerR: real,
                                          closed: bool, i: nat)
    requires Lawful(m) && |raw| == |loop| && i < |loop|
    requires FilletAt(m, raw, loop, outerR, innerR, closed, i).Err?
    ensures !IsOpenEnd(|loop|, closed, i)
    ensures Before(loop, i) == loop[i] || After(loop, i, closed) == loop[i]
  {
    var p := loop[i];
    DistZeroIffSame(m, p, Before(loop, i));
    DistZeroIffSame(m, p, After(loop, i, closed));
  }

  /**
   * acos never exceeds pi, so the outer radius is chosen only where the raw
   * path runs straight on through the vertex (the vectors toward its two raw
   * neighbours point in opposite directions, angle exactly pi); every other
   * corner takes the inner one.
   */
  lemma ExteriorOnlyWhenStraight(m: MathLib, raw: seq<Point>, closed: bool, i: nat, outerR: real, innerR: real)
    requires Lawful(m) && i < |raw| && !IsOpenEnd(|raw|, closed, i)
    requires RawAngle(m, raw, closed, i).Some?
    ensures var ang := RawAngle(m, raw, closed, i).value;
      0.0 <= ang <= Pi && (ang != Pi ==> ChosenRadius(ang, outerR, innerR) == innerR)
  {
  }

  /** The clamped radius is at most half of each adjacent offset edge, and never negative. */
  lemma ClampBounds(r: real, d1: real, d2: real)
    requires r >= 0.0 && d1 >= 0.0 && d2 >= 0.0
    ensures 0.0 <= ClampRadius(r, d1, d2) <= 0.5 * d1 && ClampRadius(r, d1, d2) <= 0.5 * d2
    ensures r <= 0.5 * Min(d1, d2) ==> ClampRadius(r, d1, d2) == r
    ensures r >= 0.5 * Min(d1, d2) ==> ClampRadius(r, d1, d2) == 0.5 * Min(d1, d2)
  {
  }

  /** p + ((q - p) / d) * r is the point a fraction r / d of the way from p to q. */
  lemma StepAlongEdge(p: Point, q: Point, d: real, r: real)
    requires d != 0.0
    ensures Add(p, Scale(Div(Sub(q, p), d), r)) == Lerp(p, q, r / d)
  {
    assert (q.x - p.x) / d * r == (q.x - p.x) * (r / d);
    assert (q.y - p.y) / d * r == (q.y - p.y) * (r / d);
  }

  /**
   * Where a vertex gets an arc, the arc starts on the offset edge toward the
   * previous vertex and ends on the edge toward the next one, each at a
   * fraction r / d of the edge of at most one half.
   */
  lemma ArcOnOffsetEdges(m: MathLib, raw: seq<Point>, loop: seq<Point>, outerR: real, innerR: real, closed: bool, i: nat)
    requires Lawful(m) && outerR >= 0.0 && innerR >= 0.0
    requires |raw| == |loop| && i < |loop|
    requires FilletAt(m, raw, loop, outerR, innerR, closed, i).Ok?
    requires |FilletAt(m, raw, loop, outerR, innerR, closed, i).value| == 2
    ensures !IsOpenEnd(|loop|, closed, i) && RawAngle(m, raw, closed, i).Some?
    ensures
      var p, prev, next := loop[i], Before(loop, i), After(loop, i, closed);
      var d1, d2 := Dist(m, p, prev), Dist(m, p, next);
      var r := VertexRadius(m, loop, outerR, innerR, closed, i, RawAngle(m, raw, closed, i).value);
      var cmds := FilletAt(m, raw, loop, outerR, innerR, closed, i).value;
      d1 > 0.0 && d2 > 0.0 &&
      0.0 <= r / d1 <= 0.5 && 0.0 <= r / d2 <= 0.5 &&
      cmds[0] == Line(Lerp(p, prev, r / d1)) && cmds[1].end == Lerp(p, next, r / d2)
  {
    var p, prev, next := loop[i], Before(loop, i), After(loop, i, closed);
    var d1, d2 := Dist(m, p, prev), Dist(m, p, next);
    var ang := RawAngle(m, raw, closed, i).value;
    var r := VertexRadius(m, loop, outerR, innerR, closed, i, ang);
    assert d1 != 0.0 && d2 != 0.0;
    DistZeroIffSame(m, p, prev);
    DistZeroIffSame(m, p, next);
    ClampBounds(ChosenRadius(ang, outerR, innerR), d1, d2);
    StepAlongEdge(p, prev, d1, r);
    StepAlongEdge(p, next, d2, r);
    assert r / d1 <= 0.5 by {
      assert r <= 0.5 * d1;
    }
    assert r / d2 <= 0.5 by {
      assert r <= 0.5 * d2;
    }
  }
}
