/** Exact real-valued vectors and rays standing in for the engine's
    single-precision Vector3, Vector2 and Ray. Lengths are never taken:
    every distance test is stated on squared lengths, which is exact. */
module Geometry {

  datatype Vec3 = Vec3(x: real, y: real, z: real)

  /** A horizontal position: the x and z coordinates of a Vec3. */
  datatype Vec2 = Vec2(x: real, z: real)

  datatype Ray = Ray(origin: Vec3, direction: Vec3)

  const Zero: Vec3 := Vec3(0.0, 0.0, 0.0)
  const Up: Vec3 := Vec3(0.0, 1.0, 0.0)

  function Add(a: Vec3, b: Vec3): Vec3 {
    Vec3(a.x + b.x, a.y + b.y, a.z + b.z)
  }

  function Sub(a: Vec3, b: Vec3): Vec3 {
    Vec3(a.x - b.x, a.y - b.y, a.z - b.z)
  }

  function Neg(a: Vec3): Vec3 {
    Vec3(-a.x, -a.y, -a.z)
  }

  function Scale(a: Vec3, k: real): Vec3 {
    Vec3(a.x * k, a.y * k, a.z * k)
  }

  function Cross(a: Vec3, b: Vec3): Vec3 {
    Vec3(a.y * b.z - a.z * b.y, a.z * b.x - a.x * b.z, a.x * b.y - a.y * b.x)
  }

  function SqLen(a: Vec3): real {
    a.x * a.x + a.y * a.y + a.z * a.z
  }

  function Horizontal(a: Vec3): Vec2 {
    Vec2(a.x, a.z)
  }

  function SqDist(a: Vec2, b: Vec2): real {
    (a.x - b.x) * (a.x - b.x) + (a.z - b.z) * (a.z - b.z)
  }

  /** The distance from a to b exceeds tol, stated without a square root. */
  predicate FartherThan(a: Vec2, b: Vec2, tol: real) {
    SqDist(a, b) > tol * tol
  }

  /** The length of v is below tol, stated without a square root. */
  predicate ShorterThan(v: Vec3, tol: real) {
    SqLen(v) < tol * tol
  }

  /** A cross product with Up lies in the horizontal plane, whichever side Up is on. */
  lemma CrossUpIsHorizontal(v: Vec3)
    ensures Cross(Up, v).y == 0.0 && Cross(v, Up).y == 0.0
    ensures Cross(Up, v) == Vec3(v.z, 0.0, -v.x)
    ensures Cross(v, Up) == Vec3(-v.z, 0.0, v.x)
  {
  }

  /** The dot product of the horizontal parts: zero when a and b are
      perpendicular in the horizontal plane. */
  function HDot(a: Vec3, b: Vec3): real {
    a.x * b.x + a.z * b.z
  }

  /** The horizontal direction in which a climber facing `facing` strafes:
      Cross(up, facing) to the right, Cross(facing, up) to the left. It is
      perpendicular to the facing and as long as the facing's horizontal part. */
  function StrafeDirection(facing: Vec3, right: bool): (d: Vec3)
    ensures d.y == 0.0
    ensures HDot(d, facing) == 0.0
    ensures SqLen(d) == facing.x * facing.x + facing.z * facing.z
  {
    if right then Cross(Up, facing) else Cross(facing, Up)
  }

  /** Strafing left is the exact reverse of strafing right. */
  lemma StrafeSidesOpposite(facing: Vec3, right: bool)
    ensures StrafeDirection(facing, !right) == Neg(StrafeDirection(facing, right))
  {
  }

  /** Facing forward (+z), the right strafe runs along +x, as in the engine's
      left-handed frame. */
  lemma StrafeRightOfForward()
    ensures StrafeDirection(Vec3(0.0, 0.0, 1.0), true) == Vec3(1.0, 0.0, 0.0)
  {
    CrossUpIsHorizontal(Vec3(0.0, 0.0, 1.0));
  }

  /** Scaling keeps a horizontal perpendicular perpendicular. */
  lemma ScalePerpendicular(d: Vec3, f: Vec3, k: real)
    requires HDot(d, f) == 0.0
    ensures HDot(Scale(d, k), f) == 0.0
  {
    assert HDot(Scale(d, k), f) == k * HDot(d, f);
  }

  /** For any nonnegative d with d * d equal to the squared distance, the
      squared comparison agrees with comparing the distance d itself. */
  lemma FartherThanIsDistance(a: Vec2, b: Vec2, tol: real, d: real)
    requires tol >= 0.0 && d >= 0.0 && d * d == SqDist(a, b)
    ensures FartherThan(a, b, tol) <==> d > tol
  {
    SquareMonotone(d, tol);
  }

  /** The same for the length of a vector. */
  lemma ShorterThanIsLength(v: Vec3, tol: real, len: real)
    requires tol >= 0.0 && len >= 0.0 && len * len == SqLen(v)
    ensures ShorterThan(v, tol) <==> len < tol
  {
    SquareMonotone(tol, len);
  }

  lemma SquareMonotone(d: real, t: real)
    requires d >= 0.0 && t >= 0.0
    ensures d * d > t * t <==> d > t
  {
    var dd, dt, tt := d * d, d * t, t * t;
    if d > t {
      assert dd > dt;
      assert dt >= tt;
    } else {
      assert dd <= dt;
      assert dt <= tt;
    }
  }
}
