/** Vector helpers of the math library: angles in degrees wrapped to
    (-180, 180], plane projections of vectors and arrays of vectors, 2D
    rotation, component-wise arithmetic and a nearest-point search. The
    engine's trigonometry is passed in as functions. */
module VectorExtensions {
  import opened Geometry

  /** Mathf.Rad2Deg, Mathf.Deg2Rad and Mathf.PI as single-precision literals. */
  const RAD_TO_DEG: real := 57.29578
  const DEG_TO_RAD: real := 0.0174532924
  const PI: real := 3.14159274

  /** float.MaxValue. */
  const FLOAT_MAX: real := 340282346638528859811704183484516925440.0

  /** Mathf.Atan2(y, x), in radians. */
  type Atan2 = (real, real) -> real

  /** What the engine promises of Mathf.Atan2: a result in [-PI, PI]. */
  ghost predicate Atan2InRange(atan2: Atan2) {
    forall y, x :: -PI <= atan2(y, x) <= PI
  }

  // ---------------------------------------------------------------------------
  // Angles

  /** One correction step by a full turn, as GetAngle2D and GetAngle(axis)
      apply it. */
  function WrapAngle(angle: real): real {
    if angle > 180.0 then angle - 360.0
    else if angle <= -180.0 then angle + 360.0
    else angle
  }

  /** A single step suffices for any angle in (-540, 540]: the result lies in
      (-180, 180], differs from the input by at most one turn, and an angle
      already in range is kept. */
  lemma WrapAngleInRange(angle: real)
    requires -540.0 < angle <= 540.0
    ensures -180.0 < WrapAngle(angle) <= 180.0
    ensures WrapAngle(angle) - angle in {-360.0, 0.0, 360.0}
    ensures -180.0 < angle <= 180.0 ==> WrapAngle(angle) == angle
  {
  }

  /** The angle in degrees of the vector (zeroAxisValue, upAxisValue), measured
      from the zero axis towards the up axis. */
  function GetAngle2D(zeroAxisValue: real, upAxisValue: real, atan2: Atan2): real {
    WrapAngle(atan2(upAxisValue, zeroAxisValue) * RAD_TO_DEG)
  }

  /** Angle to the positive X axis, counter-clockwise. */
  function GetAngle(direction: Vec2, atan2: Atan2): real {
    GetAngle2D(direction.x, direction.y, atan2)
  }

  /** Angle to the positive X axis in the XY plane. */
  function GetAngleXY(direction: Vec3, atan2: Atan2): real {
    GetAngle2D(direction.x, direction.y, atan2)
  }

  /** Angle to the positive Z axis in the XZ plane, clockwise seen from above. */
  function GetAngleXZ(direction: Vec3, atan2: Atan2): real {
    GetAngle2D(direction.z, direction.x, atan2)
  }

  /** The angle from axis to direction, wrapped once more. */
  function GetAngleToAxis(direction: Vec2, axis: Vec2, atan2: Atan2): real {
    WrapAngle(GetAngle(direction, atan2) - GetAngle(axis, atan2))
  }

  /** Every angle getter answers in (-180, 180] when Atan2 keeps its range,
      and a vector is at angle 0 from itself. */
  lemma AnglesInRange(atan2: Atan2, v: Vec2, axis: Vec2, w: Vec3)
    requires Atan2InRange(atan2)
    ensures -180.0 < GetAngle(v, atan2) <= 180.0
    ensures -180.0 < GetAngleXY(w, atan2) <= 180.0
    ensures -180.0 < GetAngleXZ(w, atan2) <= 180.0
    ensures -180.0 < GetAngleToAxis(v, axis, atan2) <= 180.0
    ensures GetAngleToAxis(v, v, atan2) == 0.0
  {
    Atan2Degrees(atan2, v.y, v.x);
    Atan2Degrees(atan2, axis.y, axis.x);
    Atan2Degrees(atan2, w.y, w.x);
    Atan2Degrees(atan2, w.x, w.z);
    WrapAngleInRange(GetAngle(v, atan2) - GetAngle(axis, atan2));
  }

  lemma Atan2Degrees(atan2: Atan2, y: real, x: real)
    requires Atan2InRange(atan2)
    ensures -180.0 < GetAngle2D(x, y, atan2) <= 180.0
  {
    var a := atan2(y, x);
    assert -PI <= a <= PI;
    assert -PI * RAD_TO_DEG <= a * RAD_TO_DEG <= PI * RAD_TO_DEG;
    WrapAngleInRange(a * RAD_TO_DEG);
  }

  /** `to` is a whole number of turns away from `from`'s reference. */
  predicate WholeTurns(d: real) {
    d / 360.0 == (d / 360.0).Floor as real
  }

  /** NormalizeToAcuteAngle(from, ref to): moves `to` by whole turns until it
      is within half a turn of `from`. An angle already within half a turn
      is kept, so a difference of exactly -180 is returned unchanged; one
      coming from below stops short of +180, so -540 also ends at -180. */
  method NormalizeToAcuteAngle(from: real, to: real) returns (r: real)
    ensures -180.0 <= r - from <= 180.0
    ensures WholeTurns(r - to)
    ensures -180.0 <= to - from <= 180.0 ==> r == to
    ensures to - from > 180.0 ==> r - from > -180.0
    ensures to - from < -180.0 ==> r - from < 180.0
  {
    r := to;
    while r - from > 180.0
      invariant WholeTurns(r - to)
      invariant r != to ==> to - from > 180.0 && r - from > -180.0
      decreases (r - from).Floor
    {
      r := r - 360.0;
      TurnStep(r - to);
    }
    while r - from < -180.0
      invariant WholeTurns(r - to)
      invariant r - from <= 180.0
      invariant r != to ==> to - from > 180.0 || to - from < -180.0
      invariant to - from < -180.0 ==> r - from < 180.0
      invariant to - from > 180.0 ==> r - from > -180.0
      decreases (from - r).Floor
    {
      r := r + 360.0;
      TurnStep(r - to - 360.0);
    }
  }

  /** The loops as written leave from = 0, to = -180 alone, although -180
      lies outside the documented range (-180, 180]; to = -540 is moved up
      by one turn and stops at the same -180. */
  method AcuteAngleAdmitsMinusHalfTurn() returns (r: real, r2: real)
    ensures r == -180.0 && !(-180.0 < r - 0.0 <= 180.0)
    ensures r2 == -180.0
  {
    r := NormalizeToAcuteAngle(0.0, -180.0);
    r2 := NormalizeToAcuteAngle(0.0, -540.0);
    var n := ((r2 + 540.0) / 360.0).Floor;
    assert 1.0 <= (r2 + 540.0) / 360.0 < 2.0;
    assert n == 1;
  }

  /** The intended (-180, 180] variant: the second loop also moves a
      difference of exactly -180. */
  method NormalizeToAcuteAngleHalfOpen(from: real, to: real) returns (r: real)
    ensures -180.0 < r - from <= 180.0
    ensures WholeTurns(r - to)
    ensures -180.0 < to - from <= 180.0 ==> r == to
  {
    r := to;
    while r - from > 180.0
      invariant WholeTurns(r - to)
      invariant r != to ==> to - from > 180.0 && r - from > -180.0
      decreases (r - from).Floor
    {
      r := r - 360.0;
      TurnStep(r - to);
    }
    while r - from <= -180.0
      invariant WholeTurns(r - to)
      invariant r - from <= 180.0
      invariant r != to ==> to - from > 180.0 || to - from <= -180.0
      decreases (from - r).Floor
    {
      r := r + 360.0;
      TurnStep(r - to - 360.0);
    }
  }

  /** Adding or removing a turn keeps a whole number of turns. */
  lemma TurnStep(d: real)
    ensures WholeTurns(d + 360.0) <==> WholeTurns(d)
    ensures WholeTurns(d) ==> WholeTurns(d - 360.0) && WholeTurns(d + 360.0)
  {
    assert (d + 360.0) / 360.0 == d / 360.0 + 1.0;
    assert ((d + 360.0) / 360.0).Floor == (d / 360.0).Floor + 1;
    assert (d - 360.0) / 360.0 == d / 360.0 - 1.0;
    assert ((d - 360.0) / 360.0).Floor == (d / 360.0).Floor - 1;
  }

  // ---------------------------------------------------------------------------
  // Plane projections

  function ToVector2XZ(v: Vec3): Vec2 { Vec2(v.x, v.z) }

  function ToVector2XY(v: Vec3): Vec2 { Vec2(v.x, v.y) }

  function ToVector3XZ(v: Vec2): Vec3 { Vec3(v.x, 0.0, v.y) }

  /** The implicit Vector2 to Vector3 conversion. */
  function ToVector3XY(v: Vec2): Vec3 { Vec3(v.x, v.y, 0.0) }

  /** Lifting into a plane and projecting back is the identity; projecting
      and lifting keeps exactly the vectors that lie in that plane. */
  lemma ProjectionRoundTrips(v: Vec2, w: Vec3)
    ensures ToVector2XZ(ToVector3XZ(v)) == v && ToVector2XY(ToVector3XY(v)) == v
    ensures ToVector3XZ(ToVector2XZ(w)) == w <==> w.y == 0.0
    ensures ToVector3XY(ToVector2XY(w)) == w <==> w.z == 0.0
  {
  }

  method ToVector2XZArray(arr: array<Vec3>) returns (vecArray: array<Vec2>)
    ensures fresh(vecArray) && vecArray.Length == arr.Length
    ensures forall i :: 0 <= i < arr.Length ==> vecArray[i] == ToVector2XZ(arr[i])
  {
    vecArray := new Vec2[arr.Length];
    for i := 0 to arr.Length
      invariant forall k :: 0 <= k < i ==> vecArray[k] == ToVector2XZ(arr[k])
    {
      vecArray[i] := Vec2(arr[i].x, arr[i].z);
    }
  }

  method ToVector2XYArray(arr: array<Vec3>) returns (vecArray: array<Vec2>)
    ensures fresh(vecArray) && vecArray.Length == arr.Length
    ensures forall i :: 0 <= i < arr.Length ==> vecArray[i] == ToVector2XY(arr[i])
  {
    vecArray := new Vec2[arr.Length];
    for i := 0 to arr.Length
      invariant forall k :: 0 <= k < i ==> vecArray[k] == ToVector2XY(arr[k])
    {
      vecArray[i] := Vec2(arr[i].x, arr[i].y);
    }
  }

  method ToVector3XZArray(arr: array<Vec2>) returns (vecArray: array<Vec3>)
    ensures fresh(vecArray) && vecArray.Length == arr.Length
    ensures forall i :: 0 <= i < arr.Length ==> vecArray[i] == ToVector3XZ(arr[i])
  {
    vecArray := new Vec3[arr.Length];
    for i := 0 to arr.Length
      invariant forall k :: 0 <= k < i ==> vecArray[k] == ToVector3XZ(arr[k])
    {
      vecArray[i] := Vec3(arr[i].x, 0.0, arr[i].y);
    }
  }

  method ToVector3XYArray(arr: array<Vec2>) returns (vecArray: array<Vec3>)
    ensures fresh(vecArray) && vecArray.Length == arr.Length
    ensures forall i :: 0 <= i < arr.Length ==> vecArray[i] == ToVector3XY(arr[i])
  {
    vecArray := new Vec3[arr.Length];
    for i := 0 to arr.Length
      invariant forall k :: 0 <= k < i ==> vecArray[k] == ToVector3XY(arr[k])
    {
      vecArray[i] := Lift(arr[i], 0.0);
    }
  }

  // ---------------------------------------------------------------------------
  // Rotation

  /** Rotates counter-clockwise by the given radians; a zero angle returns
      the vector untouched. */
  function Rotate(v: Vec2, radians: real, sin: RealFn, cos: RealFn): Vec2 {
    if radians == 0.0 then v
    else
      var s, c := sin(radians), cos(radians);
      Vec2(c * v.x - s * v.y, s * v.x + c * v.y)
  }

  function RotateInDegrees(v: Vec2, degrees: real, sin: RealFn, cos: RealFn): Vec2 {
    Rotate(v, degrees * DEG_TO_RAD, sin, cos)
  }

  /** A rotation keeps the length when sine and cosine satisfy the
      Pythagorean identity at that angle. */
  lemma RotateKeepsLength(v: Vec2, radians: real, sin: RealFn, cos: RealFn)
    requires sin(radians) * sin(radians) + cos(radians) * cos(radians) == 1.0
    ensures SqrMagnitude2(Rotate(v, radians, sin, cos)) == SqrMagnitude2(v)
  {
    if radians != 0.0 {
      var s, c := sin(radians), cos(radians);
      calc {
        SqrMagnitude2(Rotate(v, radians, sin, cos));
        (c * v.x - s * v.y) * (c * v.x - s * v.y) + (s * v.x + c * v.y) * (s * v.x + c * v.y);
        (s * s + c * c) * (v.x * v.x) + (s * s + c * c) * (v.y * v.y);
      }
    }
  }

  /** A quarter turn counter-clockwise (sine 1, cosine 0) is the negated
      clockwise perpendicular. */
  lemma QuarterTurn(v: Vec2, radians: real, sin: RealFn, cos: RealFn)
    requires radians != 0.0 && sin(radians) == 1.0 && cos(radians) == 0.0
    ensures Rotate(v, radians, sin, cos) == Scale2(GetPerpendicularCW(v), -1.0)
  {
  }

  // ---------------------------------------------------------------------------
  // Component-wise helpers

  /** The vector turned a quarter turn clockwise. */
  function GetPerpendicularCW(v: Vec2): Vec2 { Vec2(v.y, -v.x) }

  /** The perpendicular is orthogonal and as long as the vector; two quarter
      turns negate it and four are the identity. */
  lemma PerpendicularProperties(v: Vec2)
    ensures Dot2(v, GetPerpendicularCW(v)) == 0.0
    ensures SqrMagnitude2(GetPerpendicularCW(v)) == SqrMagnitude2(v)
    ensures GetPerpendicularCW(GetPerpendicularCW(v)) == Scale2(v, -1.0)
    ensures GetPerpendicularCW(GetPerpendicularCW(GetPerpendicularCW(GetPerpendicularCW(v)))) == v
  {
  }

  /** Negative to the left of v, positive to the right: the signed distance
      of point from the line along v, times |v|. */
  function PointDirection(v: Vec2, point: Vec2): real {
    -v.x * point.y + v.y * point.x
  }

  /** PointDirection is the dot product with the clockwise perpendicular, so
      it vanishes along v, changes sign with the sides, and is zero only on
      the line when v is not zero. */
  lemma PointDirectionSide(v: Vec2, point: Vec2, k: real)
    ensures PointDirection(v, point) == Dot2(GetPerpendicularCW(v), point)
    ensures PointDirection(v, Scale2(v, k)) == 0.0
    ensures PointDirection(point, v) == -PointDirection(v, point)
    ensures PointDirection(v, GetPerpendicularCW(v)) == SqrMagnitude2(v)
  {
  }

  function MultiplyChannels3(lhs: Vec3, rhs: Vec3): Vec3 {
    Vec3(lhs.x * rhs.x, lhs.y * rhs.y, lhs.z * rhs.z)
  }

  /** Scales x and y by the 2D vector and keeps z. */
  function MultiplyChannels3By2(lhs: Vec3, rhs: Vec2): Vec3 {
    Vec3(lhs.x * rhs.x, lhs.y * rhs.y, lhs.z)
  }

  function MultiplyChannels2(lhs: Vec2, rhs: Vec2): Vec2 {
    Vec2(lhs.x * rhs.x, lhs.y * rhs.y)
  }

  function MultiplyChannels2XY(lhs: Vec2, x: real, y: real): Vec2 {
    Vec2(lhs.x * x, lhs.y * y)
  }

  function MultiplyChannels3XY(lhs: Vec3, x: real, y: real): Vec3 {
    Vec3(lhs.x * x, lhs.y * y, lhs.z)
  }

  function MultiplyChannels3XYZ(lhs: Vec3, x: real, y: real, z: real): Vec3 {
    Vec3(lhs.x * x, lhs.y * y, lhs.z * z)
  }

  /** The overloads agree with the full 3D product (an absent channel is a
      factor 1), which is commutative and has the all-ones vector as unit. */
  lemma MultiplyChannelsAgree(a: Vec3, b: Vec3, r: Vec2, v: Vec2, x: real, y: real, z: real)
    ensures MultiplyChannels3(a, b) == MultiplyChannels3(b, a)
    ensures MultiplyChannels3(a, Vec3(1.0, 1.0, 1.0)) == a
    ensures MultiplyChannels3By2(a, r) == MultiplyChannels3(a, Vec3(r.x, r.y, 1.0))
    ensures MultiplyChannels3XY(a, x, y) == MultiplyChannels3(a, Vec3(x, y, 1.0))
    ensures MultiplyChannels3XYZ(a, x, y, z) == MultiplyChannels3(a, Vec3(x, y, z))
    ensures MultiplyChannels2XY(v, x, y) == MultiplyChannels2(v, Vec2(x, y))
    ensures Lift(MultiplyChannels2(v, r), 1.0) == MultiplyChannels3(Lift(v, 1.0), Lift(r, 1.0))
  {
  }

  /** Mathf.Clamp: below min gives min, otherwise above max gives max. */
  function Clamp(value: real, min: real, max: real): real {
    if value < min then min else if value > max then max else value
  }

  /** With min <= max the clamped value lies in [min, max], is the value
      itself exactly when that lies in the interval, and clamping again
      changes nothing. */
  lemma ClampInRange(value: real, min: real, max: real)
    requires min <= max
    ensures min <= Clamp(value, min, max) <= max
    ensures Clamp(value, min, max) == value <==> min <= value <= max
    ensures Clamp(Clamp(value, min, max), min, max) == Clamp(value, min, max)
  {
  }

  function ClampChannels2(value: Vec2, min: Vec2, max: Vec2): Vec2 {
    Vec2(Clamp(value.x, min.x, max.x), Clamp(value.y, min.y, max.y))
  }

  function ClampChannels3(value: Vec3, min: Vec3, max: Vec3): Vec3 {
    Vec3(Clamp(value.x, min.x, max.x), Clamp(value.y, min.y, max.y), Clamp(value.z, min.z, max.z))
  }

  /** Channel-wise clamping lands in the box and is idempotent. */
  lemma ClampChannelsInBox(value: Vec3, min: Vec3, max: Vec3)
    requires min.x <= max.x && min.y <= max.y && min.z <= max.z
    ensures var c := ClampChannels3(value, min, max);
      min.x <= c.x <= max.x && min.y <= c.y <= max.y && min.z <= c.z <= max.z
    ensures ClampChannels3(ClampChannels3(value, min, max), min, max) == ClampChannels3(value, min, max)
    ensures ClampChannels2(Vec2(value.x, value.y), Vec2(min.x, min.y), Vec2(max.x, max.y)) ==
            ToVector2XY(ClampChannels3(value, min, max))
  {
    ClampInRange(value.x, min.x, max.x);
    ClampInRange(value.y, min.y, max.y);
    ClampInRange(value.z, min.z, max.z);
  }

  function AbsReal(a: real): real { if a < 0.0 then -a else a }

  /** Channel-wise absolute value. */
  function Abs(v: Vec2): Vec2 { Vec2(AbsReal(v.x), AbsReal(v.y)) }

  /** Abs gives non-negative channels, keeps the length and is idempotent. */
  lemma AbsProperties(v: Vec2)
    ensures Abs(v).x >= 0.0 && Abs(v).y >= 0.0
    ensures SqrMagnitude2(Abs(v)) == SqrMagnitude2(v)
    ensures Abs(Abs(v)) == Abs(v)
    ensures Abs(Scale2(v, -1.0)) == Abs(v)
  {
  }

  // ---------------------------------------------------------------------------
  // Nearest point

  function SqrDistance(a: Vec3, b: Vec3): real {
    SqrMagnitude3(Vec3(a.x - b.x, a.y - b.y, a.z - b.z))
  }

  /** GetClosest: the first element of the list at the least squared
      distance from point, or point itself when the list is empty (or every
      distance reaches float.MaxValue). */
  method GetClosest(list: seq<Vec3>, point: Vec3) returns (closest: Vec3)
    ensures (forall q :: q in list ==> SqrDistance(point, q) >= FLOAT_MAX) ==> closest == point
    ensures (exists q :: q in list && SqrDistance(point, q) < FLOAT_MAX) ==>
              exists i :: 0 <= i < |list| && list[i] == closest &&
                (forall j :: 0 <= j < |list| ==> SqrDistance(point, closest) <= SqrDistance(point, list[j])) &&
                (forall j :: 0 <= j < i ==> SqrDistance(point, closest) < SqrDistance(point, list[j]))
  {
    closest := point;
    var minDistance := FLOAT_MAX;
    ghost var at := -1;
    for n := 0 to |list|
      invariant -1 <= at < n
      invariant at == -1 ==>
                  closest == point && minDistance == FLOAT_MAX &&
                  forall j :: 0 <= j < n ==> SqrDistance(point, list[j]) >= FLOAT_MAX
      invariant at >= 0 ==> list[at] == closest && minDistance == SqrDistance(point, closest) < FLOAT_MAX
      invariant forall j :: 0 <= j < n ==> minDistance <= SqrDistance(point, list[j])
      invariant forall j :: 0 <= j < at ==> minDistance < SqrDistance(point, list[j])
    {
      var position := list[n];
      var distance := SqrDistance(point, position);
      if distance >= minDistance {
        continue;
      }
      minDistance := distance;
      closest := position;
      at := n;
    }
    if exists q :: q in list && SqrDistance(point, q) < FLOAT_MAX {
      var q :| q in list && SqrDistance(point, q) < FLOAT_MAX;
      assert at >= 0;
    }
  }
}
