/**
 * The fillet ribbon effect of pneurouter.py: `build_path`, which turns
 * fillet commands into path commands, and the whole effect from the input
 * polyline to the output outline.
 */
module Pneurouter {
  import opened Geometry
  import opened Outcomes
  import opened Seqs
  import opened OffsetEngine
  import opened Fillet
  import opened PathData

  /** The letter of a fillet command. */
  function Letter(c: FilletCmd): char
  {
    if c.Line? then 'L' else 'C'
  }

  /**
   * The arguments a fillet command carries: the (x, y) of a line, whose
   * iteration yields two numbers, or the list of three points of a cubic.
   */
  function RawArgs(c: FilletCmd): seq<Arg>
  {
    match c
    case Line(p) => Coords(p)
    case Curve(c1, c2, e) => [Pair(c1), Pair(c2), Pair(e)]
  }

  /** The flat arguments of a command as SVG reads them: `L x y` and `C x1 y1 x2 y2 x y`. */
  function FlatArgs(c: FilletCmd): seq<Arg>
  {
    match c
    case Line(p) => Coords(p)
    case Curve(c1, c2, e) => Coords(c1) + Coords(c2) + Coords(e)
  }

  /** What one argument contributes after flattening: a number itself, a pair its two coordinates. */
  function Spread(a: Arg): seq<Arg>
  {
    match a
    case Num(_) => [a]
    case Pair(p) => Coords(p)
  }

  /** One level of flattening, argument by argument. */
  function Flatten(args: seq<Arg>): seq<Arg>
  {
    if |args| == 0 then [] else Flatten(args[..|args| - 1]) + Spread(args[|args| - 1])
  }

  /** Flattening distributes over concatenation. */
  lemma {:induction false} FlattenAppend(a: seq<Arg>, b: seq<Arg>)
    ensures Flatten(a + b) == Flatten(a) + Flatten(b)
    decreases |b|
  {
    if |b| > 0 {
      var b' := b[..|b| - 1];
      assert (a + b)[..|a + b| - 1] == a + b';
      FlattenAppend(a, b');
    } else {
      assert a + b == a;
    }
  }

  /** After flattening no pair is left, and the number of arguments is one per number and two per pair. */
  lemma {:induction false} FlattenNumbers(args: seq<Arg>)
    ensures forall a :: a in Flatten(args) ==> a.Num?
    ensures |Flatten(args)| == |args| + |PairArgs(args)|
  {
    if |args| > 0 {
      FlattenNumbers(args[..|args| - 1]);
      assert args == args[..|args| - 1] + [args[|args| - 1]];
    }
  }

  /** The pairs among the arguments. */
  function PairArgs(args: seq<Arg>): seq<Arg>
  {
    if |args| == 0 then []
    else PairArgs(args[..|args| - 1]) + (if args[|args| - 1].Pair? then [args[|args| - 1]] else [])
  }

  /** Flattening one more argument appends what that argument spreads into. */
  lemma FlattenSnoc(args: seq<Arg>, a: Arg)
    ensures Flatten(args + [a]) == Flatten(args) + Spread(a)
  {
    assert (args + [a])[..|args|] == args;
  }

  /** A spread argument is already flat. */
  lemma FlattenSpread(a: Arg)
    ensures Flatten(Spread(a)) == Spread(a)
  {
    match a
    case Num(_) =>
      FlattenSnoc([], a);
    case Pair(p) =>
      FlattenSnoc([], Num(p.x));
      FlattenSnoc([Num(p.x)], Num(p.y));
  }

  /** Flattening is idempotent: flat arguments stay as they are. */
  lemma {:induction false} FlattenIdempotent(args: seq<Arg>)
    ensures Flatten(Flatten(args)) == Flatten(args)
  {
    if |args| > 0 {
      var init, last := args[..|args| - 1], args[|args| - 1];
      FlattenIdempotent(init);
      FlattenAppend(Flatten(init), Spread(last));
      FlattenSpread(last);
    }
  }

  /** Flattening a fillet command's own arguments gives the SVG argument list. */
  lemma FlattenRawArgs(c: FilletCmd)
    ensures Flatten(RawArgs(c)) == FlatArgs(c)
  {
    match c
    case Line(p) =>
      FlattenSpread(Pair(p));
    case Curve(c1, c2, e) =>
      FlattenSnoc([], Pair(c1));
      FlattenSnoc([Pair(c1)], Pair(c2));
      FlattenSnoc([Pair(c1), Pair(c2)], Pair(e));
      assert [Pair(c1)] == [] + [Pair(c1)];
      assert [Pair(c1), Pair(c2)] == [Pair(c1)] + [Pair(c2)];
      assert [Pair(c1), Pair(c2), Pair(e)] == [Pair(c1), Pair(c2)] + [Pair(e)];
  }

  /** The inner loop of `build_path`: numbers are copied, each pair is spread into its coordinates. */
  method FlattenArgs(args: seq<Arg>) returns (flat: seq<Arg>)
    ensures flat == Flatten(args)
  {
    flat := [];
    var i := 0;
    while i < |args|
      invariant 0 <= i <= |args|
      invariant flat == Flatten(args[..i])
    {
      var ag := args[i];
      match ag {
        case Num(_) =>
          flat := flat + [ag];
        case Pair(p) =>
          flat := flat + [Num(p.x)];
          flat := flat + [Num(p.y)];
      }
      assert args[..i + 1][..i] == args[..i];
      i := i + 1;
    }
    assert args[..i] == args;
  }

  /**
   * The path `build_path` produces: with `move_first` and at least one
   * command, an M carrying the first command's arguments as they are, then
   * every remaining command with its letter and flattened arguments, then Z.
   */
  function PathCommands(cmds: seq<FilletCmd>, moveFirst: bool): seq<PathCmd>
  {
    var skip := if moveFirst && |cmds| > 0 then 1 else 0;
    var head := if skip == 1 then [PathCmd('M', RawArgs(cmds[0]))] else [];
    head + seq(|cmds| - skip, k requires 0 <= k < |cmds| - skip => PathCmd(Letter(cmds[k + skip]), FlatArgs(cmds[k + skip])))
    + [Close]
  }

  /**
   * One output command per input command plus the Z; the first becomes an M
   * when moving first; every later one keeps its letter, a line with two
   * numbers and a cubic with six.
   */
  lemma PathCommandsShape(cmds: seq<FilletCmd>, moveFirst: bool)
    ensures var r := PathCommands(cmds, moveFirst);
      |r| == |cmds| + 1 && r[|cmds|] == Close &&
      (moveFirst && |cmds| > 0 ==> r[0] == PathCmd('M', RawArgs(cmds[0]))) &&
      (forall k :: (if moveFirst then 1 else 0) <= k < |cmds| ==>
         r[k].letter == Letter(cmds[k]) && r[k].args == FlatArgs(cmds[k]) && FlatShape(cmds[k], r[k].args))
  {
    PathCommandsEnds(cmds, moveFirst);
    var r := PathCommands(cmds, moveFirst);
    forall k | (if moveFirst then 1 else 0) <= k < |cmds|
      ensures r[k] == PathCmd(Letter(cmds[k]), FlatArgs(cmds[k]))
      ensures FlatShape(cmds[k], r[k].args)
    {
      PathCommandAt(cmds, moveFirst, k);
      FlatArgsShape(cmds[k]);
    }
  }

  /** The path has one command per input command plus the Z, and starts with an M when moving first. */
  lemma PathCommandsEnds(cmds: seq<FilletCmd>, moveFirst: bool)
    ensures var r := PathCommands(cmds, moveFirst);
      |r| == |cmds| + 1 && r[|cmds|] == Close &&
      (moveFirst && |cmds| > 0 ==> r[0] == PathCmd('M', RawArgs(cmds[0])))
  {
  }

  /** Every command after the M keeps its letter and its flattened arguments. */
  lemma PathCommandAt(cmds: seq<FilletCmd>, moveFirst: bool, k: nat)
    requires (if moveFirst then 1 else 0) <= k < |cmds|
    ensures |PathCommands(cmds, moveFirst)| == |cmds| + 1
    ensures PathCommands(cmds, moveFirst)[k] == PathCmd(Letter(cmds[k]), FlatArgs(cmds[k]))
  {
  }

  /** The numbers a command flattens to: two for a line, six for a cubic ending at its end point. */
  predicate FlatShape(c: FilletCmd, args: seq<Arg>)
  {
    (c.Line? ==> args == Coords(c.p)) &&
    (c.Curve? ==> |args| == 6 && args[4..] == Coords(c.end)) &&
    (c.Curve? ==> args == Coords(c.c1) + Coords(c.c2) + Coords(c.end)) &&
    (forall a :: a in args ==> a.Num?)
  }

  lemma FlatArgsShape(c: FilletCmd)
    ensures FlatShape(c, FlatArgs(c))
  {
    if c.Curve? {
      var args := FlatArgs(c);
      assert args[4..] == Coords(c.end);
    }
  }

  /** `build_path`: the outer loop over the commands, the inner one over each command's arguments. */
  method BuildPath(cmds: seq<FilletCmd>, moveFirst: bool) returns (pathCmds: seq<PathCmd>)
    ensures pathCmds == PathCommands(cmds, moveFirst)
  {
    pathCmds := [];
    var rest := cmds;
    var skip := 0;
    if moveFirst && |cmds| > 0 {
      pathCmds := pathCmds + [PathCmd('M', RawArgs(cmds[0]))];
      rest := cmds[1..];
      skip := 1;
    }
    var j := 0;
    while j < |rest|
      invariant 0 <= j <= |rest| && rest == cmds[skip..]
      invariant skip == (if moveFirst && |cmds| > 0 then 1 else 0)
      invariant |pathCmds| == skip + j
      invariant skip == 1 ==> pathCmds[0] == PathCmd('M', RawArgs(cmds[0]))
      invariant forall k :: 0 <= k < j ==> pathCmds[skip + k] == PathCmd(Letter(rest[k]), FlatArgs(rest[k]))
    {
      var newCmd := FlattenArgs(RawArgs(rest[j]));
      FlattenRawArgs(rest[j]);
      pathCmds := pathCmds + [PathCmd(Letter(rest[j]), newCmd)];
      j := j + 1;
    }
    pathCmds := pathCmds + [Close];
  }

  // ---------------------------------------------------------------------
  // The whole effect
  // ---------------------------------------------------------------------

  /**
   * What the effect adds to the drawing: for a closed input the two fillet
   * loops (outer from the left offsets, inner from the right ones), for an
   * open input one outline path.
   */
  datatype Ribbon = TwoLoops(outer: seq<FilletCmd>, inner: seq<FilletCmd>) | OneLoop(path: seq<PathCmd>)

  /** The open outline: the left loop, then the right loop's commands in reverse order, as one path. */
  function OpenOutline(leftLoop: seq<FilletCmd>, rightLoop: seq<FilletCmd>): seq<PathCmd>
  {
    PathCommands(leftLoop + Reverse(rightLoop), true)
  }

  /**
   * The last stage of the effect, from the two offset sides: fillet the left
   * side, then the right one, and assemble the output.
   */
  function FilletStage(m: MathLib, pts: seq<Point>, closed: bool, radii: Radii, left: seq<Point>, right: seq<Point>)
    : Result<Ribbon, Error>
    requires |left| == |right| == |pts|
  {
    match FilletCmds(m, pts, left, radii.outerR, radii.innerR, closed, |left|)
    case Err(e) => Err(e)
    case Ok(leftLoop) =>
      match FilletCmds(m, pts, right, radii.outerR, radii.innerR, closed, |right|)
      case Err(e) => Err(e)
      case Ok(rightLoop) =>
        if closed then Ok(TwoLoops(leftLoop, rightLoop))
        else Ok(OneLoop(OpenOutline(leftLoop, rightLoop)))
  }

  /**
   * The effect on the polyline pts (already transformed), given the width
   * and fillet options: stop with too few points, then the segment table,
   * the two offset sides, the fillet of each side, and the output.
   */
  function RibbonOutline(m: MathLib, pts: seq<Point>, closed: bool, width: real, fillet: real): Result<Ribbon, Error>
  {
    if |pts| < 2 then Err(TooFewPoints)
    else
      var radii := RibbonRadii(width, fillet);
      match SegmentTable(m, pts, closed)
      case Err(e) => Err(e)
      case Ok(t) =>
        FilletStage(m, pts, closed, radii,
                    OffsetSide(pts, closed, t.dirs, t.norms, radii.halfW),
                    OffsetSide(pts, closed, t.dirs, t.norms, -radii.halfW))
  }

  /** The effect after the offsets: both `compute_fillet` calls and the output. */
  method FilletAndAssemble(m: MathLib, pts: seq<Point>, closed: bool, radii: Radii, left: seq<Point>, right: seq<Point>)
    returns (res: Result<Ribbon, Error>)
    requires |left| == |right| == |pts|
    ensures res == FilletStage(m, pts, closed, radii, left, right)
  {
    var leftLoop := ComputeFillet(m, pts, left, radii.outerR, radii.innerR, closed);
    if leftLoop.Err? {
      return Err(leftLoop.error);
    }
    var rightLoop := ComputeFillet(m, pts, right, radii.outerR, radii.innerR, closed);
    if rightLoop.Err? {
      return Err(rightLoop.error);
    }
    if closed {
      return Ok(TwoLoops(leftLoop.value, rightLoop.value));
    }
    var reversedRight := Reverse(rightLoop.value);
    var ribbonCmds := BuildPath(leftLoop.value + reversedRight, true);
    res := Ok(OneLoop(ribbonCmds));
  }

  /** `effect`, from the extracted points on. */
  method Effect(m: MathLib, pts: seq<Point>, closed: bool, width: real, fillet: real) returns (res: Result<Ribbon, Error>)
    ensures res == RibbonOutline(m, pts, closed, width, fillet)
  {
    if |pts| < 2 {
      return Err(TooFewPoints);
    }
    var radii := RibbonRadii(width, fillet);
    var table := BuildSegmentTable(m, pts, closed);
    if table.Err? {
      return Err(table.error);
    }
    RibbonOutlineAfterTable(m, pts, closed, width, fillet);
    res := OffsetAndAssemble(m, pts, closed, radii, table.value.dirs, table.value.norms);
  }

  /** The effect after the segment table: both offset sides, then `FilletAndAssemble`. */
  method OffsetAndAssemble(m: MathLib, pts: seq<Point>, closed: bool, radii: Radii, dirs: seq<Point>, norms: seq<Point>)
    returns (res: Result<Ribbon, Error>)
    requires TableFits(pts, closed, dirs, norms)
    ensures res == FilletStage(m, pts, closed, radii,
                               OffsetSide(pts, closed, dirs, norms, radii.halfW),
                               OffsetSide(pts, closed, dirs, norms, -radii.halfW))
  {
    var left, right := BuildOffsets(pts, closed, dirs, norms, radii.halfW);
    res := FilletAndAssemble(m, pts, closed, radii, left, right);
  }

  /** With a segment table in hand, the effect is the fillet stage on the two offset sides. */
  lemma RibbonOutlineAfterTable(m: MathLib, pts: seq<Point>, closed: bool, width: real, fillet: real)
    requires |pts| >= 2 && SegmentTable(m, pts, closed).Ok?
    ensures var t := SegmentTable(m, pts, closed).value;
      var radii := RibbonRadii(width, fillet);
      TableFits(pts, closed, t.dirs, t.norms) &&
      RibbonOutline(m, pts, closed, width, fillet) ==
        FilletStage(m, pts, closed, radii,
                    OffsetSide(pts, closed, t.dirs, t.norms, radii.halfW),
                    OffsetSide(pts, closed, t.dirs, t.norms, -radii.halfW))
  {
    SegmentTableSizes(m, pts, closed);
  }

  /** The fillet stage fails only by dividing by zero. */
  lemma FilletStageErrors(m: MathLib, pts: seq<Point>, closed: bool, radii: Radii, left: seq<Point>, right: seq<Point>)
    requires |left| == |right| == |pts|
    ensures FilletStage(m, pts, closed, radii, left, right).Err? ==>
      FilletStage(m, pts, closed, radii, left, right).error == ZeroDivision
  {
    FilletCmdsErrors(m, pts, left, radii.outerR, radii.innerR, closed, |left|);
    FilletCmdsErrors(m, pts, right, radii.outerR, radii.innerR, closed, |right|);
  }

  /** A closed input keeps both fillet loops, each with one or two commands per vertex. */
  lemma ClosedStage(m: MathLib, pts: seq<Point>, radii: Radii, left: seq<Point>, right: seq<Point>)
    requires |left| == |right| == |pts|
    requires FilletStage(m, pts, true, radii, left, right).Ok?
    ensures var r := FilletStage(m, pts, true, radii, left, right).value;
      r.TwoLoops? &&
      r.outer == FilletCmds(m, pts, left, radii.outerR, radii.innerR, true, |left|).value &&
      r.inner == FilletCmds(m, pts, right, radii.outerR, radii.innerR, true, |right|).value &&
      |pts| <= |r.outer| <= 2 * |pts| && |pts| <= |r.inner| <= 2 * |pts|
  {
    FilletCount(m, pts, left, radii.outerR, radii.innerR, true, |left|);
    FilletCount(m, pts, right, radii.outerR, radii.innerR, true, |right|);
  }

  /**
   * The outline of two open fillet lists that start and end with straight
   * lines: M to the first left point, L to the first right point just before
   * the Z, and the two far ends joined by consecutive lines.
   */
  lemma OpenOutlineEnds(leftLoop: seq<FilletCmd>, rightLoop: seq<FilletCmd>, l0: Point, ln: Point, r0: Point, rn: Point)
    requires |leftLoop| >= 2 && |rightLoop| >= 2
    requires leftLoop[0] == Line(l0) && leftLoop[|leftLoop| - 1] == Line(ln)
    requires rightLoop[0] == Line(r0) && rightLoop[|rightLoop| - 1] == Line(rn)
    ensures var path := OpenOutline(leftLoop, rightLoop);
      |path| >= 5 &&
      path[0] == PathCmd('M', Coords(l0)) &&
      path[|path| - 2] == PathCmd('L', Coords(r0)) &&
      path[|path| - 1] == Close &&
      exists k :: 0 < k && k + 1 < |path| - 2 &&
        path[k] == PathCmd('L', Coords(ln)) && path[k + 1] == PathCmd('L', Coords(rn))
  {
    var rev := Reverse(rightLoop);
    var cmds := leftLoop + rev;
    var k := |leftLoop| - 1;
    assert rev[0] == rightLoop[|rightLoop| - 1] && rev[|rev| - 1] == rightLoop[0];
    assert cmds[0] == Line(l0) && cmds[k] == Line(ln);
    assert cmds[k + 1] == rev[0] && cmds[|cmds| - 1] == rev[|rev| - 1];
    PathCommandsEnds(cmds, true);
    PathCommandAt(cmds, true, k);
    PathCommandAt(cmds, true, k + 1);
    PathCommandAt(cmds, true, |cmds| - 1);
  }

  /**
   * The open outline starts with M at the first left point, reaches the last
   * left point, crosses to the last right point, runs back to the first
   * right point and closes with Z.
   */
  lemma OpenStage(m: MathLib, pts: seq<Point>, radii: Radii, left: seq<Point>, right: seq<Point>)
    requires |left| == |right| == |pts| >= 2
    requires FilletStage(m, pts, false, radii, left, right).Ok?
    ensures var r := FilletStage(m, pts, false, radii, left, right).value;
      var n := |pts|;
      r.OneLoop? && |r.path| >= 5 &&
      r.path[0] == PathCmd('M', Coords(left[0])) &&
      r.path[|r.path| - 2] == PathCmd('L', Coords(right[0])) &&
      r.path[|r.path| - 1] == Close &&
      exists k :: 0 < k && k + 1 < |r.path| - 2 &&
        r.path[k] == PathCmd('L', Coords(left[n - 1])) && r.path[k + 1] == PathCmd('L', Coords(right[n - 1]))
  {
    var leftLoop := FilletCmds(m, pts, left, radii.outerR, radii.innerR, false, |left|).value;
    var rightLoop := FilletCmds(m, pts, right, radii.outerR, radii.innerR, false, |right|).value;
    OpenEndsAreLines(m, pts, left, radii.outerR, radii.innerR);
    OpenEndsAreLines(m, pts, right, radii.outerR, radii.innerR);
    FilletCount(m, pts, left, radii.outerR, radii.innerR, false, |left|);
    FilletCount(m, pts, right, radii.outerR, radii.innerR, false, |right|);
    OpenOutlineEnds(leftLoop, rightLoop, left[0], left[|pts| - 1], right[0], right[|pts| - 1]);
  }

  /** Some vertex of the left or the right offset side has an offset neighbour on top of it. */
  predicate SidesCollapse(left: seq<Point>, right: seq<Point>, closed: bool)
    requires |left| == |right|
  {
    exists i :: 0 <= i < |left| && (CoincidentNeighbour(left, closed, i) || CoincidentNeighbour(right, closed, i))
  }

  /**
   * The fillet stage fails only by dividing by zero, at a vertex of one of
   * the two sides whose offset neighbour lies on top of it.
   */
  lemma FilletStageErrorCause(m: MathLib, pts: seq<Point>, closed: bool, radii: Radii, left: seq<Point>, right: seq<Point>)
    requires Lawful(m) && |left| == |right| == |pts|
    requires FilletStage(m, pts, closed, radii, left, right).Err?
    ensures FilletStage(m, pts, closed, radii, left, right).error == ZeroDivision
    ensures SidesCollapse(left, right, closed)
  {
    FilletStageErrors(m, pts, closed, radii, left, right);
    if FilletCmds(m, pts, left, radii.outerR, radii.innerR, closed, |left|).Err? {
      FilletCmdsErrorCause(m, pts, left, radii.outerR, radii.innerR, closed, |left|);
    } else {
      FilletCmdsErrorCause(m, pts, right, radii.outerR, radii.innerR, closed, |right|);
    }
  }

  /** The effect reports too few points exactly when there are fewer than two. */
  lemma RibbonErrors(m: MathLib, pts: seq<Point>, closed: bool, width: real, fillet: real)
    ensures RibbonOutline(m, pts, closed, width, fillet) == Err(TooFewPoints) <==> |pts| < 2
  {
    if |pts| >= 2 && SegmentTable(m, pts, closed).Ok? {
      StageErrorsDivide(m, pts, closed, width, fillet);
    }
  }

  /** Past the segment table, the effect can only fail by dividing by zero. */
  lemma StageErrorsDivide(m: MathLib, pts: seq<Point>, closed: bool, width: real, fillet: real)
    requires |pts| >= 2 && SegmentTable(m, pts, closed).Ok?
    ensures RibbonOutline(m, pts, closed, width, fillet).Err? ==>
      RibbonOutline(m, pts, closed, width, fillet).error == ZeroDivision
  {
    RibbonOutlineAfterTable(m, pts, closed, width, fillet);
    var t := SegmentTable(m, pts, closed).value;
    StageErrorsOnTable(m, pts, closed, RibbonRadii(width, fillet), t.dirs, t.norms);
  }

  /** The fillet stage on the two offset sides of a table can only fail by dividing by zero. */
  lemma StageErrorsOnTable(m: MathLib, pts: seq<Point>, closed: bool, radii: Radii, dirs: seq<Point>, norms: seq<Point>)
    requires TableFits(pts, closed, dirs, norms)
    ensures var left, right := OffsetSide(pts, closed, dirs, norms, radii.halfW), OffsetSide(pts, closed, dirs, norms, -radii.halfW);
      FilletStage(m, pts, closed, radii, left, right).Err? ==>
      FilletStage(m, pts, closed, radii, left, right).error == ZeroDivision
  {
    FilletStageErrors(m, pts, closed, radii,
                      OffsetSide(pts, closed, dirs, norms, radii.halfW), OffsetSide(pts, closed, dirs, norms, -radii.halfW));
  }

  /** A zero-length segment reported by the effect is one the segment table reports. */
  lemma RibbonTableError(m: MathLib, pts: seq<Point>, closed: bool, width: real, fillet: real)
    requires |pts| >= 2
    ensures RibbonOutline(m, pts, closed, width, fillet) == Err(ZeroLengthSegment) <==>
      SegmentTable(m, pts, closed) == Err(ZeroLengthSegment)
  {
    if SegmentTable(m, pts, closed).Ok? {
      StageErrorsDivide(m, pts, closed, width, fillet);
    }
  }

  /**
   * With a lawful hypot, the effect reports a zero-length segment exactly
   * when two consecutive input points coincide.
   */
  lemma RibbonZeroLength(m: MathLib, pts: seq<Point>, closed: bool, width: real, fillet: real)
    requires Lawful(m)
    ensures RibbonOutline(m, pts, closed, width, fillet) == Err(ZeroLengthSegment) <==>
      |pts| >= 2 && exists i :: 0 <= i < |pts| - 1 && pts[i] == pts[i + 1]
  {
    if |pts| >= 2 {
      RibbonTableError(m, pts, closed, width, fillet);
      SegmentTableErrors(m, pts, closed);
    }
  }

  /**
   * With a lawful hypot, a division by zero comes only from a closed path
   * whose last point is its first, or from an offset vertex whose offset
   * neighbour lies on top of it.
   */
  lemma RibbonZeroDivision(m: MathLib, pts: seq<Point>, closed: bool, width: real, fillet: real)
    requires Lawful(m)
    requires RibbonOutline(m, pts, closed, width, fillet) == Err(ZeroDivision)
    ensures |pts| >= 2
    ensures (closed && pts[|pts| - 1] == pts[0]) ||
      (SegmentTable(m, pts, closed).Ok? &&
       var t, h := SegmentTable(m, pts, closed).value, RibbonRadii(width, fillet).halfW;
       SidesCollapse(OffsetSide(pts, closed, t.dirs, t.norms, h), OffsetSide(pts, closed, t.dirs, t.norms, -h), closed))
  {
    if |pts| >= 2 && SegmentTable(m, pts, closed).Ok? {
      var i := RibbonCollapseAt(m, pts, closed, width, fillet);
    } else {
      TableZeroDivision(m, pts, closed, width, fillet);
    }
  }

  /** A division by zero past the segment table, with the vertex whose offset neighbour lies on top of it. */
  lemma RibbonCollapseAt(m: MathLib, pts: seq<Point>, closed: bool, width: real, fillet: real) returns (i: nat)
    requires Lawful(m) && |pts| >= 2 && SegmentTable(m, pts, closed).Ok?
    requires RibbonOutline(m, pts, closed, width, fillet) == Err(ZeroDivision)
    ensures var t, h := SegmentTable(m, pts, closed).value, RibbonRadii(width, fillet).halfW;
      var left, right := OffsetSide(pts, closed, t.dirs, t.norms, h), OffsetSide(pts, closed, t.dirs, t.norms, -h);
      i < |pts| && (CoincidentNeighbour(left, closed, i) || CoincidentNeighbour(right, closed, i))
  {
    RibbonOutlineAfterTable(m, pts, closed, width, fillet);
    var t := SegmentTable(m, pts, closed).value;
    i := StageZeroDivision(m, pts, closed, RibbonRadii(width, fillet), t.dirs, t.norms);
  }

  /** A division by zero in the fillet stage on the two offset sides comes from their collapse. */
  lemma StageZeroDivision(m: MathLib, pts: seq<Point>, closed: bool, radii: Radii, dirs: seq<Point>, norms: seq<Point>)
    returns (i: nat)
    requires Lawful(m) && TableFits(pts, closed, dirs, norms)
    requires var left, right := OffsetSide(pts, closed, dirs, norms, radii.halfW), OffsetSide(pts, closed, dirs, norms, -radii.halfW);
      FilletStage(m, pts, closed, radii, left, right).Err?
    ensures var left, right := OffsetSide(pts, closed, dirs, norms, radii.halfW), OffsetSide(pts, closed, dirs, norms, -radii.halfW);
      i < |pts| && (CoincidentNeighbour(left, closed, i) || CoincidentNeighbour(right, closed, i))
  {
    var left, right := OffsetSide(pts, closed, dirs, norms, radii.halfW), OffsetSide(pts, closed, dirs, norms, -radii.halfW);
    FilletStageErrorCause(m, pts, closed, radii, left, right);
    i :| 0 <= i < |left| && (CoincidentNeighbour(left, closed, i) || CoincidentNeighbour(right, closed, i));
  }

  /** A division by zero from the segment table comes from a closed path ending where it starts. */
  lemma TableZeroDivision(m: MathLib, pts: seq<Point>, closed: bool, width: real, fillet: real)
    requires Lawful(m) && |pts| >= 2 && SegmentTable(m, pts, closed).Err?
    requires RibbonOutline(m, pts, closed, width, fillet) == Err(ZeroDivision)
    ensures closed && pts[|pts| - 1] == pts[0]
  {
    assert SegmentTable(m, pts, closed) == Err(ZeroDivision);
    SegmentTableErrors(m, pts, closed);
  }

  /**
   * The open outline built on a table of an open path starts with M at the
   * left start cap, runs along the left side to the left end cap, crosses to
   * the right end cap, runs back to the right start cap, and closes with Z:
   * flat caps at both ends.
   */
  lemma OpenRibbon(m: MathLib, pts: seq<Point>, dirs: seq<Point>, norms: seq<Point>, radii: Radii,
                   left: seq<Point>, right: seq<Point>)
    requires TableFits(pts, false, dirs, norms)
    requires left == OffsetSide(pts, false, dirs, norms, radii.halfW)
    requires right == OffsetSide(pts, false, dirs, norms, -radii.halfW)
    requires |left| == |right| == |pts| && FilletStage(m, pts, false, radii, left, right).Ok?
    ensures var h, n := radii.halfW, |pts|;
      var r := FilletStage(m, pts, false, radii, left, right).value;
      r.OneLoop? && |r.path| >= 5 &&
      r.path[0] == PathCmd('M', Coords(Shift(pts[0], norms[0], h))) &&
      r.path[|r.path| - 2] == PathCmd('L', Coords(Shift(pts[0], norms[0], -h))) &&
      r.path[|r.path| - 1] == Close &&
      exists k :: 0 < k && k + 1 < |r.path| - 2 &&
        r.path[k] == PathCmd('L', Coords(Shift(pts[n - 1], norms[|norms| - 1], h))) &&
        r.path[k + 1] == PathCmd('L', Coords(Shift(pts[n - 1], norms[|norms| - 1], -h)))
  {
    var h := radii.halfW;
    OffsetSideFacts(pts, false, dirs, norms, h);
    OpenStage(m, pts, radii, left, right);
  }
}
