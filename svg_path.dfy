/**
 * The node walker of svg_layer_parser.py for path elements: a small state
 * machine over absolute path commands that collects points and keeps the
 * current point, so that H and V can reuse one coordinate of it (the lineto
 * commands of section 8.3.4 of SVG 1.1). Conversion to absolute commands is
 * done by the SVG library and is not part of this model: the commands come in
 * absolute already.
 */
module SvgPath {
  import opened Geometry

  /** One absolute path command: its letter and its numeric arguments. */
  datatype Command = Command(letter: char, args: seq<real>)

  /** The state of the walk: the points collected so far and the current point. */
  datatype Tracer = Tracer(points: seq<Point>, current: Point)

  const Origin: Point := Point(0.0, 0.0)

  /** The walk starts with no points and the current point at the origin. */
  const Start: Tracer := Tracer([], Origin)

  /**
   * `(args[i], args[i + 1])` for i = 0, 2, 4, ... while i < len(args) - 1:
   * one point per pair of arguments, a trailing odd argument dropped.
   */
  function Pairs(args: seq<real>): seq<Point>
  {
    seq(|args| / 2, k requires 0 <= k < |args| / 2 => Point(args[2 * k], args[2 * k + 1]))
  }

  /** `(value, y)` for every value. */
  function Horizontals(values: seq<real>, y: real): seq<Point>
  {
    seq(|values|, k requires 0 <= k < |values| => Point(values[k], y))
  }

  /** `(x, value)` for every value. */
  function Verticals(x: real, values: seq<real>): seq<Point>
  {
    seq(|values|, k requires 0 <= k < |values| => Point(x, values[k]))
  }

  /**
   * One command of the walk. M, L and T add their pairs and move to the last
   * one; H and V add one point per value, keeping the y (respectively x) of
   * the current point; C adds all its pairs, control points included, and
   * moves to its third pair; S and Q add all their pairs and move to the last
   * two arguments; A adds only the point of its last two arguments; Z and any
   * other letter change nothing.
   */
  function Step(t: Tracer, c: Command): Tracer
  {
    var a := c.args;
    if c.letter == 'M' || c.letter == 'L' || c.letter == 'T' then
      var ps := Pairs(a);
      Tracer(t.points + ps, if |ps| > 0 then ps[|ps| - 1] else t.current)
    else if c.letter == 'H' then
      Tracer(t.points + Horizontals(a, t.current.y), if |a| > 0 then Point(a[|a| - 1], t.current.y) else t.current)
    else if c.letter == 'V' then
      Tracer(t.points + Verticals(t.current.x, a), if |a| > 0 then Point(t.current.x, a[|a| - 1]) else t.current)
    else if c.letter == 'C' then
      Tracer(t.points + Pairs(a), if |a| >= 6 then Point(a[4], a[5]) else t.current)
    else if c.letter == 'S' || c.letter == 'Q' then
      Tracer(t.points + Pairs(a), if |a| >= 4 then Point(a[|a| - 2], a[|a| - 1]) else t.current)
    else if c.letter == 'A' then
      if |a| >= 2 then
        var p := Point(a[|a| - 2], a[|a| - 1]);
        Tracer(t.points + [p], p)
      else t
    else t
  }

  /** The walk over cmds from the state t. */
  function Run(t: Tracer, cmds: seq<Command>): Tracer
  {
    if |cmds| == 0 then t else Step(Run(t, cmds[..|cmds| - 1]), cmds[|cmds| - 1])
  }

  /** The walk over a whole path, from the start state. */
  function Trace(cmds: seq<Command>): Tracer
  {
    Run(Start, cmds)
  }

  /** The transform applied to every point, in order. */
  function MapPoints(tf: Point -> Point, ps: seq<Point>): seq<Point>
  {
    seq(|ps|, i requires 0 <= i < |ps| => tf(ps[i]))
  }

  /** The result of `_points_from_path`: the collected points, each transformed. */
  function PathPoints(cmds: seq<Command>, tf: Point -> Point): seq<Point>
  {
    MapPoints(tf, Trace(cmds).points)
  }

  /** The body of the loop over commands: one branch per letter, each with its own inner loop. */
  method ApplyCommand(points: seq<Point>, current: Point, c: Command) returns (points': seq<Point>, current': Point)
    ensures Tracer(points', current') == Step(Tracer(points, current), c)
  {
    var a := c.args;
    points', current' := points, current;
    if c.letter == 'M' || c.letter == 'L' || c.letter == 'T' {
      points', current' := AddPairs(points, current, a, true);
    } else if c.letter == 'H' {
      for k := 0 to |a|
        invariant points' == points + Horizontals(a[..k], current.y)
        invariant current' == if k == 0 then current else Point(a[k - 1], current.y)
      {
        var pt := Point(a[k], current'.y);
        points' := points' + [pt];
        current' := pt;
      }
      assert a[..|a|] == a;
    } else if c.letter == 'V' {
      for k := 0 to |a|
        invariant points' == points + Verticals(current.x, a[..k])
        invariant current' == if k == 0 then current else Point(current.x, a[k - 1])
      {
        var pt := Point(current'.x, a[k]);
        points' := points' + [pt];
        current' := pt;
      }
      assert a[..|a|] == a;
    } else if c.letter == 'C' {
      points', current' := AddPairs(points, current, a, false);
      if |a| >= 6 {
        current' := Point(a[4], a[5]);
      }
    } else if c.letter == 'S' || c.letter == 'Q' {
      points', current' := AddPairs(points, current, a, false);
      if |a| >= 4 {
        current' := Point(a[|a| - 2], a[|a| - 1]);
      }
    } else if c.letter == 'A' {
      if |a| >= 2 {
        var pt := Point(a[|a| - 2], a[|a| - 1]);
        points' := points' + [pt];
        current' := pt;
      }
    }
  }

  /**
   * The loop `for i in range(0, len(args) - 1, 2)` that appends each pair,
   * moving the current point along with it when moving is set (M, L and T).
   */
  method AddPairs(points: seq<Point>, current: Point, a: seq<real>, moving: bool) returns (points': seq<Point>, current': Point)
    ensures points' == points + Pairs(a)
    ensures current' == if moving && |a| >= 2 then Pairs(a)[|a| / 2 - 1] else current
  {
    points', current' := points, current;
    var i := 0;
    while i < |a| - 1
      invariant 0 <= i <= |a| && i % 2 == 0
      invariant points' == points + Pairs(a)[..i / 2]
      invariant current' == if moving && i > 0 then Point(a[i - 2], a[i - 1]) else current
    {
      var pt := Point(a[i], a[i + 1]);
      assert Pairs(a)[..(i + 2) / 2] == Pairs(a)[..i / 2] + [pt];
      points' := points' + [pt];
      if moving {
        current' := pt;
      }
      i := i + 2;
    }
    assert Pairs(a)[..i / 2] == Pairs(a);
  }

  /** `_points_from_path`: walk the commands, then transform every collected point. */
  method PointsFromPath(cmds: seq<Command>, tf: Point -> Point) returns (pts: seq<Point>)
    ensures pts == PathPoints(cmds, tf)
  {
    var points, current := [], Origin;
    for j := 0 to |cmds|
      invariant Tracer(points, current) == Trace(cmds[..j])
    {
      assert cmds[..j + 1][..j] == cmds[..j];
      points, current := ApplyCommand(points, current, cmds[j]);
    }
    assert cmds[..|cmds|] == cmds;
    pts := MapPoints(tf, points);
  }

  // Properties of the walk

  /** How many points a command adds, counted per letter. */
  function Contribution(c: Command): nat
  {
    if c.letter in "MLTCSQ" then |c.args| / 2
    else if c.letter == 'H' || c.letter == 'V' then |c.args|
    else if c.letter == 'A' then (if |c.args| >= 2 then 1 else 0)
    else 0
  }

  function TotalContribution(cmds: seq<Command>): nat
  {
    if |cmds| == 0 then 0 else TotalContribution(cmds[..|cmds| - 1]) + Contribution(cmds[|cmds| - 1])
  }

  /** The walk only appends: the points before a command are kept, and the command adds its count. */
  lemma StepAppends(t: Tracer, c: Command)
    ensures var t' := Step(t, c);
      |t'.points| == |t.points| + Contribution(c) && t'.points[..|t.points|] == t.points
  {
  }

  /** A path yields exactly the sum of its commands' counts, and the transform keeps that length and the order. */
  lemma {:induction false} TraceCount(cmds: seq<Command>, tf: Point -> Point)
    ensures |Trace(cmds).points| == TotalContribution(cmds)
    ensures |PathPoints(cmds, tf)| == TotalContribution(cmds)
    ensures forall i :: 0 <= i < |PathPoints(cmds, tf)| ==> PathPoints(cmds, tf)[i] == tf(Trace(cmds).points[i])
  {
    if |cmds| > 0 {
      TraceCount(cmds[..|cmds| - 1], tf);
      StepAppends(Trace(cmds[..|cmds| - 1]), cmds[|cmds| - 1]);
    }
  }

  /** Walking a concatenation is walking the second part from where the first left off. */
  lemma {:induction false} RunAppend(t: Tracer, a: seq<Command>, b: seq<Command>)
    ensures Run(t, a + b) == Run(Run(t, a), b)
    decreases |b|
  {
    if |b| == 0 {
      assert a + b == a;
    } else {
      assert (a + b)[..|a + b| - 1] == a + b[..|b| - 1];
      RunAppend(t, a, b[..|b| - 1]);
    }
  }

  /** The points of a prefix of a path are a prefix of the path's points. */
  lemma PrefixPoints(a: seq<Command>, b: seq<Command>)
    ensures Trace(a).points <= Trace(a + b).points
  {
    RunAppend(Start, a, b);
    RunKeeps(Trace(a), b);
  }

  lemma {:induction false} RunKeeps(t: Tracer, cmds: seq<Command>)
    ensures t.points <= Run(t, cmds).points
  {
    if |cmds| > 0 {
      RunKeeps(t, cmds[..|cmds| - 1]);
      StepAppends(Run(t, cmds[..|cmds| - 1]), cmds[|cmds| - 1]);
    }
  }

  /** Z adds no point and leaves the current point where it was. */
  lemma CloseIgnored(cmds: seq<Command>, args: seq<real>)
    ensures Trace(cmds + [Command('Z', args)]) == Trace(cmds)
  {
    assert (cmds + [Command('Z', args)])[..|cmds|] == cmds;
  }

  /** The number of arguments each command has once the library makes it absolute. */
  predicate WellFormed(c: Command)
  {
    match c.letter
    case 'M' => |c.args| == 2
    case 'L' => |c.args| == 2
    case 'T' => |c.args| == 2
    case 'H' => |c.args| == 1
    case 'V' => |c.args| == 1
    case 'C' => |c.args| == 6
    case 'S' => |c.args| == 4
    case 'Q' => |c.args| == 4
    case 'A' => |c.args| == 7
    case 'Z' => |c.args| == 0
    case _ => false
  }

  /** The last collected point, or the origin before any. */
  function LastOr(ps: seq<Point>): Point
  {
    if |ps| == 0 then Origin else ps[|ps| - 1]
  }

  /**
   * On well-formed commands the current point is always the last collected
   * point (the origin before any), so H and V continue from where the path is.
   */
  lemma {:induction false} CurrentIsLastPoint(cmds: seq<Command>)
    requires forall i :: 0 <= i < |cmds| ==> WellFormed(cmds[i])
    ensures Trace(cmds).current == LastOr(Trace(cmds).points)
  {
    if |cmds| > 0 {
      var init, c := cmds[..|cmds| - 1], cmds[|cmds| - 1];
      CurrentIsLastPoint(init);
      var t := Trace(init);
      if c.letter == 'C' {
        assert Pairs(c.args)[2] == Point(c.args[4], c.args[5]);
      } else if c.letter == 'S' || c.letter == 'Q' {
        assert Pairs(c.args)[1] == Point(c.args[2], c.args[3]);
      }
    }
  }

  /**
   * On well-formed commands H v adds the point (v, y) where y is that of the
   * last point, and V v the point (x, v): a horizontal and a vertical line.
   */
  lemma HorizontalAndVertical(cmds: seq<Command>, v: real)
    requires forall i :: 0 <= i < |cmds| ==> WellFormed(cmds[i])
    ensures var last := LastOr(Trace(cmds).points);
      Trace(cmds + [Command('H', [v])]).points == Trace(cmds).points + [Point(v, last.y)] &&
      Trace(cmds + [Command('V', [v])]).points == Trace(cmds).points + [Point(last.x, v)]
  {
    CurrentIsLastPoint(cmds);
    assert (cmds + [Command('H', [v])])[..|cmds|] == cmds;
    assert (cmds + [Command('V', [v])])[..|cmds|] == cmds;
  }

  /** The walk of a path that starts with H uses the origin's y: the current point starts at (0, 0). */
  lemma StartsAtOrigin(v: real)
    ensures Trace([Command('H', [v])]).points == [Point(v, 0.0)]
    ensures Trace([Command('V', [v])]).points == [Point(0.0, v)]
  {
    var h, w := [Command('H', [v])], [Command('V', [v])];
    assert h[..0] == [] && w[..0] == [];
    assert Run(Start, h) == Step(Run(Start, h[..0]), h[0]);
    assert Run(Start, w) == Step(Run(Start, w[..0]), w[0]);
    assert Horizontals([v], 0.0) == [Point(v, 0.0)];
    assert Verticals(0.0, [v]) == [Point(0.0, v)];
  }

  /**
   * A well-formed C adds its two control points and its end point, in order,
   * and moves to the end point; S and Q add their two pairs and move to the
   * second; A adds only its end point.
   */
  lemma CurvePoints(t: Tracer, c: Command)
    requires WellFormed(c) && c.letter in "CSQA"
    ensures var a := c.args; var t' := Step(t, c);
      (c.letter == 'C' ==> t'.points == t.points + [Point(a[0], a[1]), Point(a[2], a[3]), Point(a[4], a[5])] &&
                           t'.current == Point(a[4], a[5])) &&
      (c.letter in "SQ" ==> t'.points == t.points + [Point(a[0], a[1]), Point(a[2], a[3])] &&
                            t'.current == Point(a[2], a[3])) &&
      (c.letter == 'A' ==> t'.points == t.points + [Point(a[5], a[6])] && t'.current == Point(a[5], a[6]))
  {
    var a := c.args;
    if c.letter == 'C' {
      assert Pairs(a) == [Point(a[0], a[1]), Point(a[2], a[3]), Point(a[4], a[5])];
    } else if c.letter in "SQ" {
      assert Pairs(a) == [Point(a[0], a[1]), Point(a[2], a[3])];
    }
  }

  /** M, L and T add one point per pair of arguments, in order, and move to the last pair. */
  lemma LineToPoints(t: Tracer, c: Command)
    requires c.letter in "MLT"
    ensures var a := c.args; var t' := Step(t, c);
      |t'.points| == |t.points| + |a| / 2 &&
      (forall k :: 0 <= k < |a| / 2 ==> t'.points[|t.points| + k] == Point(a[2 * k], a[2 * k + 1])) &&
      t'.current == (if |a| >= 2 then Point(a[2 * (|a| / 2) - 2], a[2 * (|a| / 2) - 1]) else t.current)
  {
  }
}
