/**
 * Points, vector arithmetic over exact reals, and the few functions of
 * Python's `math` module that the ribbon engine calls.
 */
module Geometry {

  /** A 2D point or vector, as the program's `(x, y)` tuples. */
  datatype Point = Point(x: real, y: real)

  function Add(p: Point, q: Point): Point { Point(p.x + q.x, p.y + q.y) }

  function Sub(p: Point, q: Point): Point { Point(p.x - q.x, p.y - q.y) }

  function Scale(p: Point, s: real): Point { Point(p.x * s, p.y * s) }

  /** Componentwise division, as `(v[0]/L, v[1]/L)`. */
  function Div(p: Point, s: real): Point
    requires s != 0.0
  {
    Point(p.x / s, p.y / s)
  }

  function Dot(p: Point, q: Point): real { p.x * q.x + p.y * q.y }

  /** The z component of the 3D cross product: zero exactly when p and q are parallel. */
  function Cross(p: Point, q: Point): real { p.x * q.y - p.y * q.x }

  /** Rotation by +90 degrees: `(-v[1], v[0])`. */
  function Rot90(p: Point): Point { Point(-p.y, p.x) }

  /** The point a fraction s of the way from p to q. */
  function Lerp(p: Point, q: Point, s: real): Point { Add(p, Scale(Sub(q, p), s)) }

  function Abs(a: real): real { if a < 0.0 then -a else a }

  function Min(a: real, b: real): real { if a <= b then a else b }

  function Max(a: real, b: real): real { if a >= b then a else b }

  /** Python's `math.pi`, as the shortest decimal that Python prints for that double. */
  const Pi: real := 3.141592653589793

  /**
   * `math.hypot`, `math.acos` and `math.tan`, left uninterpreted: they are
   * parameters of the model, and `Lawful` holds the only facts used about them.
   */
  datatype MathLib = MathLib(hypot: (real, real) -> real, acos: real -> real, tan: real -> real)

  ghost predicate Lawful(m: MathLib)
  {
    (forall a, b :: m.hypot(a, b) >= 0.0) &&
    (forall a, b :: m.hypot(a, b) == 0.0 <==> a == 0.0 && b == 0.0) &&
    (forall c :: 0.0 <= m.acos(c) <= Pi)
  }

  /** Distance from p to q, as `math.hypot(q[0]-p[0], q[1]-p[1])`. */
  function Dist(m: MathLib, p: Point, q: Point): real { m.hypot(q.x - p.x, q.y - p.y) }

  lemma DistZeroIffSame(m: MathLib, p: Point, q: Point)
    requires Lawful(m)
    ensures Dist(m, p, q) >= 0.0
    ensures Dist(m, p, q) == 0.0 <==> p == q
  {
  }
}
