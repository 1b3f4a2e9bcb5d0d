/**
 * The offset engine shared by pneurouter.py and pneurouter_offset_only.py:
 * the line intersector, the per-segment direction/normal table, the
 * per-vertex offset builder and the ribbon radii.
 */
module OffsetEngine {
  import opened Geometry
  import opened Outcomes

  /** Below this |cross(d1, d2)| two offset lines count as parallel. */
  const EpsParallel: real := 0.000001

  /**
   * Why the effect stops. `ZeroDivision` is the uncaught Python
   * ZeroDivisionError of an unchecked division; the other two are the
   * messages the effect reports before returning.
   */
  datatype Error = TooFewPoints | ZeroLengthSegment | ZeroDivision

  // ---------------------------------------------------------------------
  // Line intersector
  // ---------------------------------------------------------------------

  /** Intersection of the lines p1 + t*d1 and p2 + u*d2; p1 itself when they are (nearly) parallel. */
  function Intersect(p1: Point, d1: Point, p2: Point, d2: Point): Point
  {
    var denom := d1.x * d2.y - d1.y * d2.x;
    if Abs(denom) < EpsParallel then p1
    else
      var delta := Point(p2.x - p1.x, p2.y - p1.y);
      var t := (delta.x * d2.y - delta.y * d2.x) / denom;
      Point(p1.x + t * d1.x, p1.y + t * d1.y)
  }

  /** Intersect, away from the parallel fallback, as p1 moved along d1. */
  lemma IntersectAsStep(p1: Point, d1: Point, p2: Point, d2: Point)
    requires Abs(Cross(d1, d2)) >= EpsParallel
    ensures Intersect(p1, d1, p2, d2) == Add(p1, Scale(d1, Cross(Sub(p2, p1), d2) / Cross(d1, d2)))
  {
  }

  /** The result lies on both lines, unless the lines are nearly parallel, when it is p1. */
  lemma IntersectOnBothLines(p1: Point, d1: Point, p2: Point, d2: Point)
    ensures Abs(Cross(d1, d2)) < EpsParallel ==> Intersect(p1, d1, p2, d2) == p1
    ensures Abs(Cross(d1, d2)) >= EpsParallel ==>
      Cross(Sub(Intersect(p1, d1, p2, d2), p1), d1) == 0.0 &&
      Cross(Sub(Intersect(p1, d1, p2, d2), p2), d2) == 0.0
  {
    var denom := Cross(d1, d2);
    if Abs(denom) >= EpsParallel {
      var delta := Sub(p2, p1);
      var c := Cross(delta, d2);
      var t := c / denom;
      assert t * denom == c;
      IntersectAsStep(p1, d1, p2, d2);
      var r := Intersect(p1, d1, p2, d2);
      assert r == Point(p1.x + d1.x * t, p1.y + d1.y * t);
      calc {
        Cross(Sub(r, p2), d2);
        (t * d1.x - delta.x) * d2.y - (t * d1.y - delta.y) * d2.x;
        t * denom - c;
      }
    }
  }

  /** Two lines that are not parallel meet in one point only: the one Intersect returns. */
  lemma IntersectUnique(p1: Point, d1: Point, p2: Point, d2: Point, q: Point)
    requires Abs(Cross(d1, d2)) >= EpsParallel
    requires Cross(Sub(q, p1), d1) == 0.0 && Cross(Sub(q, p2), d2) == 0.0
    ensures q == Intersect(p1, d1, p2, d2)
  {
    var r := Intersect(p1, d1, p2, d2);
    IntersectOnBothLines(p1, d1, p2, d2);
    var w := Sub(q, r);
    assert Cross(w, d1) == 0.0 by {
      assert Cross(w, d1) == Cross(Sub(q, p1), d1) - Cross(Sub(r, p1), d1);
    }
    assert Cross(w, d2) == 0.0 by {
      assert Cross(w, d2) == Cross(Sub(q, p2), d2) - Cross(Sub(r, p2), d2);
    }
    var denom := Cross(d1, d2);
    assert w.x * denom == d1.x * Cross(w, d2) - d2.x * Cross(w, d1);
    assert w.y * denom == d1.y * Cross(w, d2) - d2.y * Cross(w, d1);
    assert denom != 0.0;
  }

  // ---------------------------------------------------------------------
  // Segment table: one unit direction and left normal per edge
  // ---------------------------------------------------------------------

  /** The end point of edge i: the next vertex, or the first one for the closing edge. */
  function EdgeEnd(pts: seq<Point>, i: nat): Point
    requires i < |pts|
  {
    if i + 1 < |pts| then pts[i + 1] else pts[0]
  }

  /** Unit direction of the edge a -> b, as `(dx / L, dy / L)`. */
  function UnitDir(m: MathLib, a: Point, b: Point): Point
    requires Dist(m, a, b) != 0.0
  {
    Div(Sub(b, a), Dist(m, a, b))
  }

  /** An open path of n points has n - 1 edges; a closed one also has the closing edge. */
  function EdgeCount(n: nat, closed: bool): nat
    requires n >= 1
  {
    if closed then n else n - 1
  }

  /** No consecutive pair of points (the closing pair excluded) is at distance zero. */
  predicate ConsecutiveEdgesNonZero(m: MathLib, pts: seq<Point>)
  {
    forall i :: 0 <= i < |pts| - 1 ==> Dist(m, pts[i], pts[i + 1]) != 0.0
  }

  datatype SegTable = SegTable(dirs: seq<Point>, norms: seq<Point>)

  /** One unit direction per edge, aligned with the edge's start vertex. */
  function Directions(m: MathLib, pts: seq<Point>, closed: bool): (dirs: seq<Point>)
    requires |pts| >= 2 && ConsecutiveEdgesNonZero(m, pts)
    requires closed ==> Dist(m, pts[|pts| - 1], pts[0]) != 0.0
  {
    var k := EdgeCount(|pts|, closed);
    seq(k, i requires 0 <= i < k => UnitDir(m, pts[i], EdgeEnd(pts, i)))
  }

  /** The left normal of every direction. */
  function Normals(dirs: seq<Point>): (norms: seq<Point>)
  {
    seq(|dirs|, i requires 0 <= i < |dirs| => Rot90(dirs[i]))
  }

  /** A left normal is perpendicular to its direction. */
  lemma NormalPerpendicular(d: Point)
    ensures Dot(d, Rot90(d)) == 0.0
  {
    assert Dot(d, Rot90(d)) == d.x * (-d.y) + d.y * d.x;
  }

  /** Every normal of the table is perpendicular to its direction. */
  lemma NormalsPerpendicular(dirs: seq<Point>)
    ensures |Normals(dirs)| == |dirs|
    ensures forall i :: 0 <= i < |dirs| ==> Dot(dirs[i], Normals(dirs)[i]) == 0.0
  {
    forall i | 0 <= i < |dirs| ensures Dot(dirs[i], Normals(dirs)[i]) == 0.0 {
      NormalPerpendicular(dirs[i]);
    }
  }

  /**
   * The table the effect builds: every consecutive edge is checked for zero
   * length; the closing edge of a closed path is not, and divides by zero.
   */
  function SegmentTable(m: MathLib, pts: seq<Point>, closed: bool): Result<SegTable, Error>
    requires |pts| >= 2
  {
    if !ConsecutiveEdgesNonZero(m, pts) then Err(ZeroLengthSegment)
    else if closed && Dist(m, pts[|pts| - 1], pts[0]) == 0.0 then Err(ZeroDivision)
    else
      var dirs := Directions(m, pts, closed);
      Ok(SegTable(dirs, Normals(dirs)))
  }

  /** `ux, uy = dx / L, dy / L` and the normal `(-uy, ux)`, for an edge of non-zero length L. */
  method UnitAndNormal(m: MathLib, a: Point, b: Point, len: real) returns (d: Point, nrm: Point)
    requires len == Dist(m, a, b) && len != 0.0
    ensures d == UnitDir(m, a, b) && nrm == Rot90(d)
  {
    var dx, dy := b.x - a.x, b.y - a.y;
    var ux, uy := dx / len, dy / len;
    d, nrm := Point(ux, uy), Point(-uy, ux);
  }

  /** The loop over consecutive edges, which stops at the first one of length zero. */
  method ConsecutiveEdgeTable(m: MathLib, pts: seq<Point>) returns (res: Result<SegTable, Error>)
    requires |pts| >= 2
    ensures !ConsecutiveEdgesNonZero(m, pts) <==> res == Err(ZeroLengthSegment)
    ensures ConsecutiveEdgesNonZero(m, pts) ==>
      res == Ok(SegTable(Directions(m, pts, false), Normals(Directions(m, pts, false))))
  {
    var n := |pts|;
    var dirs: seq<Point> := [];
    var norms: seq<Point> := [];
    var i := 0;
    while i < n - 1
      invariant 0 <= i <= n - 1
      invariant forall j :: 0 <= j < i ==> Dist(m, pts[j], pts[j + 1]) != 0.0
      invariant |dirs| == i && |norms| == i
      invariant forall j :: 0 <= j < i ==> dirs[j] == UnitDir(m, pts[j], EdgeEnd(pts, j))
      invariant forall j :: 0 <= j < i ==> norms[j] == Rot90(dirs[j])
    {
      var len := m.hypot(pts[i + 1].x - pts[i].x, pts[i + 1].y - pts[i].y);
      if len == 0.0 {
        return Err(ZeroLengthSegment);
      }
      var d, nrm := UnitAndNormal(m, pts[i], pts[i + 1], len);
      dirs := dirs + [d];
      norms := norms + [nrm];
      i := i + 1;
    }
    assert dirs == Directions(m, pts, false);
    assert norms == Normals(dirs);
    res := Ok(SegTable(dirs, norms));
  }

  /** The closed table is the open one followed by the closing edge. */
  lemma DirectionsOfClosed(m: MathLib, pts: seq<Point>)
    requires |pts| >= 2 && ConsecutiveEdgesNonZero(m, pts) && Dist(m, pts[|pts| - 1], pts[0]) != 0.0
    ensures Directions(m, pts, true) == Directions(m, pts, false) + [UnitDir(m, pts[|pts| - 1], pts[0])]
    ensures Normals(Directions(m, pts, true)) == Normals(Directions(m, pts, false)) + [Rot90(UnitDir(m, pts[|pts| - 1], pts[0]))]
  {
  }

  /** The direction/normal table of the effect, with its early return on a zero-length edge. */
  method BuildSegmentTable(m: MathLib, pts: seq<Point>, closed: bool) returns (res: Result<SegTable, Error>)
    requires |pts| >= 2
    ensures res == SegmentTable(m, pts, closed)
  {
    var n := |pts|;
    res := ConsecutiveEdgeTable(m, pts);
    if res.Err? {
      return;
    }
    if closed {
      var len := m.hypot(pts[0].x - pts[n - 1].x, pts[0].y - pts[n - 1].y);
      if len == 0.0 {
        // the closing edge is not checked: `dx / L` raises
        return Err(ZeroDivision);
      }
      var d, nrm := UnitAndNormal(m, pts[n - 1], pts[0], len);
      DirectionsOfClosed(m, pts);
      res := Ok(SegTable(res.value.dirs + [d], res.value.norms + [nrm]));
    }
  }

  /** A table has one direction and one normal per edge. */
  lemma SegmentTableSizes(m: MathLib, pts: seq<Point>, closed: bool)
    requires |pts| >= 2 && SegmentTable(m, pts, closed).Ok?
    ensures var t := SegmentTable(m, pts, closed).value;
      |t.dirs| == |t.norms| == EdgeCount(|pts|, closed)
  {
  }

  /** Every normal of a table is perpendicular to its direction. */
  lemma SegmentTablePerpendicular(m: MathLib, pts: seq<Point>, closed: bool)
    requires |pts| >= 2 && SegmentTable(m, pts, closed).Ok?
    ensures var t := SegmentTable(m, pts, closed).value;
      forall i :: 0 <= i < |t.dirs| ==> Dot(t.dirs[i], t.norms[i]) == 0.0
  {
    NormalsPerpendicular(Directions(m, pts, closed));
  }

  /**
   * With a lawful hypot the table fails exactly on coincident points: a
   * repeated consecutive point is reported, a closing edge of length zero
   * divides by zero.
   */
  lemma SegmentTableErrors(m: MathLib, pts: seq<Point>, closed: bool)
    requires Lawful(m) && |pts| >= 2
    ensures SegmentTable(m, pts, closed) == Err(ZeroLengthSegment) <==>
      exists i :: 0 <= i < |pts| - 1 && pts[i] == pts[i + 1]
    ensures SegmentTable(m, pts, closed) == Err(ZeroDivision) <==>
      (forall i :: 0 <= i < |pts| - 1 ==> pts[i] != pts[i + 1]) && closed && pts[|pts| - 1] == pts[0]
  {
    if !ConsecutiveEdgesNonZero(m, pts) {
      var i :| 0 <= i < |pts| - 1 && Dist(m, pts[i], pts[i + 1]) == 0.0;
      DistZeroIffSame(m, pts[i], pts[i + 1]);
    } else {
      forall i | 0 <= i < |pts| - 1 ensures pts[i] != pts[i + 1] {
        DistZeroIffSame(m, pts[i], pts[i + 1]);
      }
      DistZeroIffSame(m, pts[|pts| - 1], pts[0]);
    }
  }

  // ---------------------------------------------------------------------
  // Offset builder: one left and one right point per input vertex
  // ---------------------------------------------------------------------

  /** p moved by h along the normal n: `(p[0] + n[0]*half_w, p[1] + n[1]*half_w)`. */
  function Shift(p: Point, n: Point, h: real): Point { Point(p.x + n.x * h, p.y + n.y * h) }

  /** The meeting point of the incoming and outgoing edge lines, both moved by h along their normals. */
  function Corner(p: Point, d1: Point, n1: Point, d2: Point, n2: Point, h: real): Point
  {
    Intersect(Shift(p, n1, h), d1, Shift(p, n2, h), d2)
  }

  /** The table has one entry per edge. */
  predicate TableFits(pts: seq<Point>, closed: bool, dirs: seq<Point>, norms: seq<Point>)
  {
    |pts| >= 2 && |dirs| == |norms| == EdgeCount(|pts|, closed)
  }

  /**
   * Offset vertex i at signed distance h (h = half_w for the left side,
   * -half_w for the right): a perpendicular cap at the ends of an open path,
   * the intersection of the two shifted edge lines everywhere else.
   */
  function OffsetVertex(pts: seq<Point>, closed: bool, dirs: seq<Point>, norms: seq<Point>, h: real, i: nat): Point
    requires TableFits(pts, closed, dirs, norms) && i < |pts|
  {
    var n := |pts|;
    if !closed && (i == 0 || i == n - 1) then
      Shift(pts[i], if i == 0 then norms[0] else norms[|norms| - 1], h)
    else
      // the incoming edge: the closing one at vertex 0 of a closed path
      var e := if i == 0 then |dirs| - 1 else i - 1;
      Corner(pts[i], dirs[e], norms[e], dirs[i], norms[i], h)
  }

  function OffsetSide(pts: seq<Point>, closed: bool, dirs: seq<Point>, norms: seq<Point>, h: real): (side: seq<Point>)
    requires TableFits(pts, closed, dirs, norms)
  {
    seq(|pts|, i requires 0 <= i < |pts| => OffsetVertex(pts, closed, dirs, norms, h, i))
  }

  /** Negating the numerator negates the quotient. */
  lemma QuotientOfNegation(c: real, d: real)
    requires d != 0.0
    ensures (-c) / d == -(c / d)
  {
  }

  /** The gap between the two shifted start points is the normals' difference, scaled by h. */
  lemma ShiftGap(p: Point, n1: Point, n2: Point, h: real)
    ensures Sub(Shift(p, n2, h), Shift(p, n1, h)) == Scale(Sub(n2, n1), h)
  {
    assert n2.x * h - n1.x * h == (n2.x - n1.x) * h;
    assert n2.y * h - n1.y * h == (n2.y - n1.y) * h;
  }

  lemma CrossOfNegatedScale(e: Point, h: real, d: Point)
    ensures Cross(Scale(e, -h), d) == -Cross(Scale(e, h), d)
  {
    assert Cross(Scale(e, -h), d) == (e.x * -h) * d.y - (e.y * -h) * d.x;
  }

  /** The two corners at distance h and -h from p are mirror images through p. */
  lemma CornerMirror(p: Point, d1: Point, n1: Point, d2: Point, n2: Point, h: real)
    ensures Add(Corner(p, d1, n1, d2, n2, h), Corner(p, d1, n1, d2, n2, -h)) == Scale(p, 2.0)
  {
    var a1, a2 := Shift(p, n1, h), Shift(p, n2, h);
    var b1, b2 := Shift(p, n1, -h), Shift(p, n2, -h);
    var denom := Cross(d1, d2);
    if Abs(denom) >= EpsParallel {
      var e := Sub(n2, n1);
      ShiftGap(p, n1, n2, h);
      ShiftGap(p, n1, n2, -h);
      CrossOfNegatedScale(e, h, d2);
      var ca := Cross(Scale(e, h), d2);
      QuotientOfNegation(ca, denom);
      var ta := ca / denom;
      IntersectAsStep(a1, d1, a2, d2);
      IntersectAsStep(b1, d1, b2, d2);
      assert Corner(p, d1, n1, d2, n2, h) == Add(a1, Scale(d1, ta));
      assert Corner(p, d1, n1, d2, n2, -h) == Add(b1, Scale(d1, -ta));
      assert a1.x + b1.x == 2.0 * p.x && a1.y + b1.y == 2.0 * p.y;
    }
  }

  /** Left and right offsets of every vertex are symmetric about it, at caps, corners and in the parallel fallback. */
  lemma OffsetMirror(pts: seq<Point>, closed: bool, dirs: seq<Point>, norms: seq<Point>, h: real, i: nat)
    requires TableFits(pts, closed, dirs, norms) && i < |pts|
    ensures Add(OffsetVertex(pts, closed, dirs, norms, h, i), OffsetVertex(pts, closed, dirs, norms, -h, i)) == Scale(pts[i], 2.0)
  {
    if closed || (0 < i < |pts| - 1) {
      var e := if i == 0 then |dirs| - 1 else i - 1;
      CornerMirror(pts[i], dirs[e], norms[e], dirs[i], norms[i], h);
    }
  }

  /**
   * Each offset side has one point per input vertex; the two sides are
   * mirror images through the input; an open path gets perpendicular caps
   * at both ends.
   */
  lemma OffsetSideFacts(pts: seq<Point>, closed: bool, dirs: seq<Point>, norms: seq<Point>, halfW: real)
    requires TableFits(pts, closed, dirs, norms)
    ensures var left, right := OffsetSide(pts, closed, dirs, norms, halfW), OffsetSide(pts, closed, dirs, norms, -halfW);
      |left| == |right| == |pts| &&
      (forall i :: 0 <= i < |pts| ==> Add(left[i], right[i]) == Scale(pts[i], 2.0)) &&
      (!closed ==>
         left[0] == Shift(pts[0], norms[0], halfW) && right[0] == Shift(pts[0], norms[0], -halfW) &&
         left[|pts| - 1] == Shift(pts[|pts| - 1], norms[|norms| - 1], halfW) &&
         right[|pts| - 1] == Shift(pts[|pts| - 1], norms[|norms| - 1], -halfW))
  {
    forall i | 0 <= i < |pts|
      ensures Add(OffsetVertex(pts, closed, dirs, norms, halfW, i), OffsetVertex(pts, closed, dirs, norms, -halfW, i)) == Scale(pts[i], 2.0)
    {
      OffsetMirror(pts, closed, dirs, norms, halfW, i);
    }
  }

  /**
   * The block the effect repeats at every intersected vertex: shift both
   * edge lines by +half_w and by -half_w and intersect each pair.
   */
  method ShiftedCorners(p: Point, d1: Point, n1: Point, d2: Point, n2: Point, halfW: real)
    returns (l: Point, r: Point)
    ensures l == Corner(p, d1, n1, d2, n2, halfW) && r == Corner(p, d1, n1, d2, n2, -halfW)
  {
    var p1a := Point(p.x + n1.x * halfW, p.y + n1.y * halfW);
    var p2a := Point(p.x + n2.x * halfW, p.y + n2.y * halfW);
    l := Intersect(p1a, d1, p2a, d2);
    var p1b := Point(p.x - n1.x * halfW, p.y - n1.y * halfW);
    var p2b := Point(p.x - n2.x * halfW, p.y - n2.y * halfW);
    assert p1b == Shift(p, n1, -halfW) && p2b == Shift(p, n2, -halfW);
    r := Intersect(p1b, d1, p2b, d2);
  }

  /** The offset loop of the effect: `left_pts` gets `+half_w`, `right_pts` gets `-half_w`. */
  method BuildOffsets(pts: seq<Point>, closed: bool, dirs: seq<Point>, norms: seq<Point>, halfW: real)
    returns (left: seq<Point>, right: seq<Point>)
    requires TableFits(pts, closed, dirs, norms)
    ensures left == OffsetSide(pts, closed, dirs, norms, halfW)
    ensures right == OffsetSide(pts, closed, dirs, norms, -halfW)
  {
    var n := |pts|;
    left, right := [], [];
    var i := 0;
    while i < n
      invariant 0 <= i <= n
      invariant |left| == i && |right| == i
      invariant forall j :: 0 <= j < i ==> left[j] == OffsetVertex(pts, closed, dirs, norms, halfW, j)
      invariant forall j :: 0 <= j < i ==> right[j] == OffsetVertex(pts, closed, dirs, norms, -halfW, j)
    {
      var p := pts[i];
      var l, r;
      if i == 0 {
        if closed {
          l, r := ShiftedCorners(p, dirs[|dirs| - 1], norms[|norms| - 1], dirs[i], norms[i], halfW);
        } else {
          // start cap (`norms[-1] if closed else norms[0]`, and closed is false here)
          var nrm := norms[0];
          l := Point(p.x + nrm.x * halfW, p.y + nrm.y * halfW);
          r := Point(p.x - nrm.x * halfW, p.y - nrm.y * halfW);
          assert r == Shift(p, nrm, -halfW);
        }
      } else if i == n - 1 {
        if closed {
          l, r := ShiftedCorners(p, dirs[i - 1], norms[i - 1], dirs[i], norms[i], halfW);
        } else {
          // end cap (`norms[0] if closed else norms[-1]`, and closed is false here)
          var nrm := norms[|norms| - 1];
          l := Point(p.x + nrm.x * halfW, p.y + nrm.y * halfW);
          r := Point(p.x - nrm.x * halfW, p.y - nrm.y * halfW);
          assert r == Shift(p, nrm, -halfW);
        }
      } else {
        // interior vertex: intersect the two shifted edge lines
        l, r := ShiftedCorners(p, dirs[i - 1], norms[i - 1], dirs[i], norms[i], halfW);
      }
      left := left + [l];
      right := right + [r];
      i := i + 1;
    }
  }

  // ---------------------------------------------------------------------
  // Ribbon radii
  // ---------------------------------------------------------------------

  datatype Radii = Radii(halfW: real, designR: real, outerR: real, innerR: real)

  /**
   * Half width and fillet radii from the width and fillet-fraction options:
   * the fraction is floored at 0.5, the inner radius at 0.
   */
  function RibbonRadii(width: real, fillet: real): (r: Radii)
    ensures r.halfW * 2.0 == width
    ensures r.innerR >= 0.0
    ensures fillet <= 0.5 ==> r.designR == 0.5 * width
    ensures fillet >= 0.5 ==> r.designR == fillet * width
    ensures r.outerR == r.designR + r.halfW
    ensures width > 0.0 ==> r.innerR == r.designR - r.halfW && r.outerR - r.innerR == width && r.outerR > r.innerR
    ensures width <= 0.0 ==> r.innerR == 0.0
  {
    var halfW := width / 2.0;
    var filletPct := Max(fillet, 0.5);
    var designR := filletPct * width;
    Radii(halfW, designR, designR + halfW, Max(designR - halfW, 0.0))
  }

  /** Width 2 with fraction 0.6: half width 1, design radius 1.2, outer radius 2.2, inner 0.2. */
  lemma WidthTwoRadii()
    ensures RibbonRadii(2.0, 0.6) == Radii(1.0, 1.2, 2.2, 0.2)
  {
  }
}
