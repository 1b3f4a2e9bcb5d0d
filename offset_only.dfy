/**
 * pneurouter_offset_only.py: the same offset engine, without fillets. The
 * offset points are joined by straight lines: two polygons for a closed
 * input, one outline (left side, then the right side backwards) for an open
 * one.
 */
module OffsetOnly {
  import opened Geometry
  import opened Outcomes
  import opened Seqs
  import opened OffsetEngine
  import opened PathData

  /** `[letter, p]` for every point, in order. */
  function PointCmds(letter: char, ps: seq<Point>): seq<PathCmd>
  {
    seq(|ps|, i requires 0 <= i < |ps| => PathCmd(letter, Coords(ps[i])))
  }

  /** A polygon through pts: M to the first point, L to each of the others, then Z. */
  function Polygon(pts: seq<Point>): seq<PathCmd>
    requires |pts| >= 1
  {
    PointCmds('M', pts[..1]) + PointCmds('L', pts[1..]) + [Close]
  }

  /** The point a move or line command goes to; nothing for any other command. */
  function VertexOf(c: PathCmd): seq<Point>
  {
    if (c.letter == 'M' || c.letter == 'L') && |c.args| == 2 && c.args[0].Num? && c.args[1].Num?
    then [Point(c.args[0].v, c.args[1].v)]
    else []
  }

  /** The points a path visits, in order. */
  function Vertices(path: seq<PathCmd>): seq<Point>
  {
    if |path| == 0 then [] else Vertices(path[..|path| - 1]) + VertexOf(path[|path| - 1])
  }

  lemma {:induction false} VerticesAppend(a: seq<PathCmd>, b: seq<PathCmd>)
    ensures Vertices(a + b) == Vertices(a) + Vertices(b)
    decreases |b|
  {
    if |b| > 0 {
      var b' := b[..|b| - 1];
      assert (a + b)[..|a + b| - 1] == a + b';
      VerticesAppend(a, b');
    } else {
      assert a + b == a;
    }
  }

  /** The commands for a concatenation are the commands for each part. */
  lemma PointCmdsAppend(letter: char, a: seq<Point>, b: seq<Point>)
    ensures PointCmds(letter, a + b) == PointCmds(letter, a) + PointCmds(letter, b)
  {
  }

  lemma {:induction false} VerticesOfLines(ps: seq<Point>)
    ensures Vertices(PointCmds('L', ps)) == ps
  {
    if |ps| > 0 {
      var init, last := ps[..|ps| - 1], ps[|ps| - 1];
      var l := [PathCmd('L', Coords(last))];
      assert ps == init + [last];
      PointCmdsAppend('L', init, [last]);
      VerticesOfLines(init);
      VerticesAppend(PointCmds('L', init), l);
      assert Vertices(l) == [last] by {
        assert l[..0] == [];
      }
    }
  }

  /** A polygon has one command per point plus the Z, starts with M and continues with L. */
  lemma PolygonCommands(pts: seq<Point>)
    requires |pts| >= 1
    ensures var path := Polygon(pts);
      |path| == |pts| + 1 && path[0] == PathCmd('M', Coords(pts[0])) && path[|pts|] == Close &&
      forall i :: 1 <= i < |pts| ==> path[i] == PathCmd('L', Coords(pts[i]))
  {
    var path := Polygon(pts);
    forall i | 1 <= i < |pts| ensures path[i] == PathCmd('L', Coords(pts[i])) {
      assert path[i] == PointCmds('L', pts[1..])[i - 1];
    }
    assert path[0] == PointCmds('M', pts[..1])[0];
  }

  /** A single command visits at most its own point. */
  lemma VerticesOfOne(c: PathCmd)
    ensures Vertices([c]) == VertexOf(c)
  {
    assert [c][..0] == [];
  }

  /** A polygon visits exactly the given points, in order. */
  lemma PolygonVertices(pts: seq<Point>)
    requires |pts| >= 1
    ensures Vertices(Polygon(pts)) == pts
  {
    var mv := PointCmds('M', pts[..1]);
    var lines := PointCmds('L', pts[1..]);
    assert mv == [PathCmd('M', Coords(pts[0]))];
    VerticesAppend(mv, lines);
    VerticesAppend(mv + lines, [Close]);
    VerticesOfLines(pts[1..]);
    VerticesOfOne(mv[0]);
    VerticesOfOne(Close);
    assert [pts[0]] + pts[1..] == pts;
  }

  /** The `for p in ...: path.append(["L", p])` loops of the effect. */
  method AppendLines(path: seq<PathCmd>, ps: seq<Point>) returns (path': seq<PathCmd>)
    ensures path' == path + PointCmds('L', ps)
  {
    path' := path;
    var i := 0;
    while i < |ps|
      invariant 0 <= i <= |ps|
      invariant path' == path + PointCmds('L', ps[..i])
    {
      path' := path' + [PathCmd('L', Coords(ps[i]))];
      assert ps[..i + 1] == ps[..i] + [ps[i]];
      PointCmdsAppend('L', ps[..i], [ps[i]]);
      i := i + 1;
    }
    assert ps[..i] == ps;
  }

  /** The loop of the closed branch: `["M", pts[0]]`, then `["L", p]` for the rest, then `["Z", []]`. */
  method ClosedLoopPath(pts: seq<Point>) returns (path: seq<PathCmd>)
    requires |pts| >= 1
    ensures path == Polygon(pts)
  {
    path := [PathCmd('M', Coords(pts[0]))];
    path := AppendLines(path, pts[1..]);
    path := path + [Close];
    assert PointCmds('M', pts[..1]) == [PathCmd('M', Coords(pts[0]))];
  }

  /**
   * The loops of the open branch: M to the first left point, L along the rest
   * of the left side, L along the right side backwards, then Z.
   */
  method OpenRibbonPath(left: seq<Point>, right: seq<Point>) returns (path: seq<PathCmd>)
    requires |left| >= 1
    ensures path == Polygon(left + Reverse(right))
  {
    path := [PathCmd('M', Coords(left[0]))];
    path := AppendLines(path, left[1..]);
    path := AppendLines(path, Reverse(right));
    path := path + [Close];
    assert (left + Reverse(right))[1..] == left[1..] + Reverse(right);
    assert PointCmds('M', (left + Reverse(right))[..1]) == [PathCmd('M', Coords(left[0]))];
    PointCmdsAppend('L', left[1..], Reverse(right));
  }

  /** What the effect adds: two polygons for a closed input, one outline for an open one. */
  datatype Outline = TwoPolygons(outer: seq<PathCmd>, inner: seq<PathCmd>) | OnePolygon(path: seq<PathCmd>)

  /**
   * The offset-only effect on the polyline pts (already transformed) with the
   * given width: stop with too few points, then the segment table, the two
   * offset sides at plus and minus half the width, and the polygons.
   */
  function OffsetOutline(m: MathLib, pts: seq<Point>, closed: bool, width: real): Result<Outline, Error>
  {
    if |pts| < 2 then Err(TooFewPoints)
    else OutlineOfTable(pts, closed, width / 2.0, SegmentTable(m, pts, closed))
  }

  /** The rest of the effect once the segment table is built or has failed. */
  function OutlineOfTable(pts: seq<Point>, closed: bool, halfW: real, table: Result<SegTable, Error>): Result<Outline, Error>
    requires table.Ok? ==> TableFits(pts, closed, table.value.dirs, table.value.norms)
  {
    match table
    case Err(e) => Err(e)
    case Ok(t) => Ok(OffsetPolygons(pts, closed, t.dirs, t.norms, halfW))
  }

  /** The polygons of the offset sides at plus and minus halfW. */
  function OffsetPolygons(pts: seq<Point>, closed: bool, dirs: seq<Point>, norms: seq<Point>, halfW: real): Outline
    requires TableFits(pts, closed, dirs, norms)
  {
    Polygons(closed, OffsetSide(pts, closed, dirs, norms, halfW), OffsetSide(pts, closed, dirs, norms, -halfW))
  }

  /** The polygons of the two offset sides. */
  function Polygons(closed: bool, left: seq<Point>, right: seq<Point>): Outline
    requires |left| >= 1 && |right| >= 1
  {
    if closed then TwoPolygons(Polygon(left), Polygon(right))
    else OnePolygon(Polygon(left + Reverse(right)))
  }

  /** `effect` of the offset-only script, from the extracted points on. */
  method Effect(m: MathLib, pts: seq<Point>, closed: bool, width: real) returns (res: Result<Outline, Error>)
    ensures res == OffsetOutline(m, pts, closed, width)
  {
    if |pts| < 2 {
      return Err(TooFewPoints);
    }
    var table := BuildSegmentTable(m, pts, closed);
    if table.Ok? {
      SegmentTableSizes(m, pts, closed);
    }
    res := FromTable(pts, closed, width / 2.0, table);
  }

  /** The effect after the segment table: stop on its error, or offset and assemble. */
  method FromTable(pts: seq<Point>, closed: bool, halfW: real, table: Result<SegTable, Error>)
    returns (res: Result<Outline, Error>)
    requires table.Ok? ==> TableFits(pts, closed, table.value.dirs, table.value.norms)
    ensures res == OutlineOfTable(pts, closed, halfW, table)
  {
    if table.Err? {
      return Err(table.error);
    }
    var outline := OffsetAndAssemble(pts, closed, table.value.dirs, table.value.norms, halfW);
    res := Ok(outline);
  }

  /** The offset sides of the effect and its output branch. */
  method OffsetAndAssemble(pts: seq<Point>, closed: bool, dirs: seq<Point>, norms: seq<Point>, halfW: real)
    returns (outline: Outline)
    requires TableFits(pts, closed, dirs, norms)
    ensures outline == OffsetPolygons(pts, closed, dirs, norms, halfW)
  {
    var left, right := BuildOffsets(pts, closed, dirs, norms, halfW);
    outline := Assemble(closed, left, right);
  }

  /** The output branch of the effect, given the two offset sides. */
  method Assemble(closed: bool, left: seq<Point>, right: seq<Point>) returns (outline: Outline)
    requires |left| >= 1 && |right| >= 1
    ensures outline == Polygons(closed, left, right)
  {
    if closed {
      var outer := ClosedLoopPath(left);
      var inner := ClosedLoopPath(right);
      outline := TwoPolygons(outer, inner);
    } else {
      var ribbon := OpenRibbonPath(left, right);
      outline := OnePolygon(ribbon);
    }
  }

  /**
   * A closed input gives two polygons of n + 1 commands, the outer one
   * through the left offsets and the inner one through the right offsets; an
   * open input gives one outline of 2n + 1 commands through the left offsets
   * and then the right offsets backwards.
   */
  lemma PolygonsShape(closed: bool, left: seq<Point>, right: seq<Point>)
    requires |left| == |right| >= 1
    ensures var o := Polygons(closed, left, right);
      (closed ==> o.TwoPolygons? && |o.outer| == |o.inner| == |left| + 1 &&
                  Vertices(o.outer) == left && Vertices(o.inner) == right) &&
      (!closed ==> o.OnePolygon? && |o.path| == 2 * |left| + 1 && Vertices(o.path) == left + Reverse(right))
  {
    if closed {
      PolygonCommands(left);
      PolygonVertices(left);
      PolygonCommands(right);
      PolygonVertices(right);
    } else {
      PolygonCommands(left + Reverse(right));
      PolygonVertices(left + Reverse(right));
    }
  }

  /**
   * An open two-point path gives a rectangle with flat caps: the outline
   * visits p0 + h*n, p1 + h*n, p1 - h*n, p0 - h*n, where n is the left
   * normal of the single edge.
   */
  lemma TwoPointRectangle(p0: Point, p1: Point, dirs: seq<Point>, norms: seq<Point>, halfW: real)
    requires TableFits([p0, p1], false, dirs, norms)
    ensures var n := norms[0];
      var left, right := OffsetSide([p0, p1], false, dirs, norms, halfW), OffsetSide([p0, p1], false, dirs, norms, -halfW);
      Vertices(Polygons(false, left, right).path) ==
        [Shift(p0, n, halfW), Shift(p1, n, halfW), Shift(p1, n, -halfW), Shift(p0, n, -halfW)]
  {
    var pts := [p0, p1];
    OffsetSideFacts(pts, false, dirs, norms, halfW);
    var left, right := OffsetSide(pts, false, dirs, norms, halfW), OffsetSide(pts, false, dirs, norms, -halfW);
    PolygonsShape(false, left, right);
    assert left + Reverse(right) == [left[0], left[1], right[1], right[0]];
  }
}
