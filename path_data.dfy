/**
 * The output path commands both ribbon effects build, as lists of
 * `[letter, args]` that inkex turns into an SVG path.
 */
module PathData {
  import opened Geometry

  /** One argument of an output command: a number, or a point still packed as an (x, y) pair. */
  datatype Arg = Num(v: real) | Pair(p: Point)

  /** An output path command: its letter and its arguments. */
  datatype PathCmd = PathCmd(letter: char, args: seq<Arg>)

  /** The closing command `['Z', []]`. */
  const Close: PathCmd := PathCmd('Z', [])

  /** A point's two coordinates as numbers. */
  function Coords(p: Point): seq<Arg>
  {
    [Num(p.x), Num(p.y)]
  }
}
