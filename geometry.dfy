/** Plain vector values and the closed ranges the generators sample from.
    Coordinates are real numbers: floating-point rounding is not modelled. */
module Geometry {

  /** A 2D vector (the engine's Vector2), a value with no identity. */
  datatype Vec2 = Vec2(x: real, y: real)

  /** A 3D vector (the engine's Vector3). */
  datatype Vec3 = Vec3(x: real, y: real, z: real)

  /** A closed interval of reals the inspector edits (BitStrap's FloatRange). */
  datatype FloatRange = FloatRange(min: real, max: real)

  /** A closed interval of integers (BitStrap's IntRange). */
  datatype IntRange = IntRange(min: int, max: int)

  /** Uninterpreted engine math, passed in where it is used. */
  type AngleBetween = (Vec2, Vec2) -> real   // Vector2.Angle, in degrees
  type Normalizer = Vec3 -> Vec3             // Vector3.normalized
  type RealFn = real -> real                 // Mathf.Sin, Mathf.Cos, ...

  function Sub2(a: Vec2, b: Vec2): Vec2 { Vec2(a.x - b.x, a.y - b.y) }

  function Dot2(a: Vec2, b: Vec2): real { a.x * b.x + a.y * b.y }

  function Scale2(v: Vec2, k: real): Vec2 { Vec2(v.x * k, v.y * k) }

  function SqrMagnitude2(v: Vec2): real { v.x * v.x + v.y * v.y }

  function Scale3(v: Vec3, k: real): Vec3 { Vec3(v.x * k, v.y * k, v.z * k) }

  function SqrMagnitude3(v: Vec3): real { v.x * v.x + v.y * v.y + v.z * v.z }

  /** The implicit Vector2 to Vector3 conversion followed by setting z. */
  function Lift(v: Vec2, z: real): Vec3 { Vec3(v.x, v.y, z) }

  function WithZ(v: Vec3, z: real): Vec3 { Vec3(v.x, v.y, z) }

  function WithY2(v: Vec2, y: real): Vec2 { Vec2(v.x, y) }

  /** Mathf.Max and Mathf.Min. */
  function MaxReal(a: real, b: real): real { if a > b then a else b }

  function MinReal(a: real, b: real): real { if a < b then a else b }

  function MaxInt(a: int, b: int): int { if a > b then a else b }

  /** Mathf.Lerp: the parameter is clamped to [0, 1] first. */
  function Lerp(a: real, b: real, t: real): real {
    var c := if t < 0.0 then 0.0 else if t > 1.0 then 1.0 else t;
    a + (b - a) * c
  }

  /** Scaling multiplies the squared magnitude by the square of the factor. */
  lemma ScaleSqrMagnitude3(v: Vec3, k: real)
    ensures SqrMagnitude3(Scale3(v, k)) == k * k * SqrMagnitude3(v)
  {
    calc {
      SqrMagnitude3(Scale3(v, k));
      (v.x * k) * (v.x * k) + (v.y * k) * (v.y * k) + (v.z * k) * (v.z * k);
      k * k * (v.x * v.x) + k * k * (v.y * v.y) + k * k * (v.z * v.z);
      k * k * SqrMagnitude3(v);
    }
  }
}
