/** The hand-designed ship: a flat triangular base and a vertical wing
    profile fanned to a nose vertex in front and a tail vertex behind. */
module OurSpaceShip {
  import opened Geometry
  import opened Lists
  import opened SpaceshipGenerator
  import opened Bookkeeping

  const TAIL_LENGTH: real := 0.2
  const POINTS_COUNT: int := 15
  const TRIANGLES_COUNT: int := 6 + 8 * 6

  /** Height and depth factors of the nine profile vertices 4..12: the
      profile rises from z = +widest to the top and back down to z = -widest. */
  const PROFILE_HEIGHT: seq<real> := [0.0, 0.25, 0.5, 0.75, 1.0, 0.75, 0.5, 0.25, 0.0]
  const PROFILE_DEPTH: seq<real> := [1.0, 0.9, 0.75, 0.5, 0.0, -0.5, -0.75, -0.9, -1.0]

  /** Vertex k of the ship for the given wing angle and height: the nose
      (0 and 3), the base corners (1, 2), the profile (4..12) and the tail
      (13, 14). */
  function ShipPoint(angle: real, height: real, sin: RealFn, cos: RealFn, k: int): Vec3
    requires 0 <= k < POINTS_COUNT
  {
    var widestZ := MAX_RADIUS * sin(angle);
    var widestX := MAX_RADIUS * cos(angle);
    if k == 0 || k == 3 then Vec3(-MAX_RADIUS, 0.0, 0.0)
    else if k == 1 then Vec3(widestX, 0.0, widestZ)
    else if k == 2 then Vec3(widestX, 0.0, -widestZ)
    else if k <= 12 then Vec3(widestX, height * PROFILE_HEIGHT[k - 4], widestZ * PROFILE_DEPTH[k - 4])
    else Vec3(widestX + TAIL_LENGTH, 0.0, 0.0)
  }

  function ShipPoints(angle: real, height: real, sin: RealFn, cos: RealFn): seq<Vec3> {
    seq(POINTS_COUNT, k requires 0 <= k < POINTS_COUNT => ShipPoint(angle, height, sin, cos, k))
  }

  const BASE_TRIANGLES: seq<int> := [2, 1, 0, 2, 14, 1]

  /** Index slot k of the triangle list: the two base triangles, then for each
      profile edge (j, j + 1), j = 4..11, a front triangle to the nose and a
      back triangle to the tail. */
  function ShipTriangle(k: int): int
    requires 0 <= k < TRIANGLES_COUNT
  {
    if k < 6 then BASE_TRIANGLES[k]
    else
      var j := 4 + (k - 6) / 6;
      [3, j, j + 1, j + 1, j, 13][(k - 6) % 6]
  }

  function ShipTriangles(): seq<int> {
    seq(TRIANGLES_COUNT, k requires 0 <= k < TRIANGLES_COUNT => ShipTriangle(k))
  }

  const NOSE_UVS: seq<Vec2> := [Vec2(0.75, 0.0), Vec2(0.5, 0.5), Vec2(1.0, 0.5), Vec2(0.25, 0.0)]
  const TAIL_UVS: seq<Vec2> := [Vec2(0.25, 1.0), Vec2(0.75, 1.0)]

  /** UV of vertex k: the profile runs from u = 8/16 down to u = 0 on v = 0.5. */
  function ShipUv(k: int): Vec2
    requires 0 <= k < POINTS_COUNT
  {
    if k < 4 then NOSE_UVS[k]
    else if k <= 12 then Vec2((12 - k) as real / 16.0, 0.5)
    else TAIL_UVS[k - 13]
  }

  function ShipUvs(): seq<Vec2> {
    seq(POINTS_COUNT, k requires 0 <= k < POINTS_COUNT => ShipUv(k))
  }

  class OurSpaceShipGenerator {
    var angleFromWingToSnot: FloatRange
    var shipHeight: FloatRange

    constructor (angleFromWingToSnot: FloatRange, shipHeight: FloatRange)
      ensures this.angleFromWingToSnot == angleFromWingToSnot && this.shipHeight == shipHeight
    {
      this.angleFromWingToSnot := angleFromWingToSnot;
      this.shipHeight := shipHeight;
    }

    /** Builds the ship. angleSample and heightSample stand for the two
        RandomInside() draws; sin and cos are Mathf.Sin and Mathf.Cos. */
    method Generate(angleSample: real, heightSample: real, sin: RealFn, cos: RealFn)
      returns (points: seq<Vec3>, triangles: seq<int>, uvs: seq<Vec2>)
      ensures points == ShipPoints(angleSample, MAX_RADIUS * heightSample, sin, cos)
      ensures triangles == ShipTriangles()
      ensures uvs == ShipUvs()
    {
      var angle := angleSample;
      var height := MAX_RADIUS * heightSample;
      var widestPartZValue := MAX_RADIUS * sin(angle);
      var widestPartXValue := MAX_RADIUS * cos(angle);
      points := [
        Vec3(-MAX_RADIUS, 0.0, 0.0),
        Vec3(widestPartXValue, 0.0, widestPartZValue),
        Vec3(widestPartXValue, 0.0, -widestPartZValue),

        Vec3(-MAX_RADIUS, 0.0, 0.0),
        Vec3(widestPartXValue, 0.0, widestPartZValue),
        Vec3(widestPartXValue, height * 0.25, widestPartZValue * 0.9),
        Vec3(widestPartXValue, height / 2.0, widestPartZValue * 0.75),
        Vec3(widestPartXValue, height * 0.75, widestPartZValue * 0.5),
        Vec3(widestPartXValue, height, 0.0),
        Vec3(widestPartXValue, height * 0.75, -widestPartZValue * 0.5),
        Vec3(widestPartXValue, height / 2.0, -widestPartZValue * 0.75),
        Vec3(widestPartXValue, height * 0.25, -widestPartZValue * 0.9),
        Vec3(widestPartXValue, 0.0, -widestPartZValue),

        Vec3(widestPartXValue + TAIL_LENGTH, 0.0, 0.0),
        Vec3(widestPartXValue + TAIL_LENGTH, 0.0, 0.0)
      ];
      assert points == ShipPoints(angle, height, sin, cos);

      triangles := BuildTriangles();
      uvs := BuildUvs();
    }
  }

  /** The triangle list: the base, then a front and a back triangle for each
      profile edge. */
  method BuildTriangles() returns (triangles: seq<int>)
    ensures triangles == ShipTriangles()
  {
    var triangleList := new List<int>(BASE_TRIANGLES);
    var j := 4;
    while j <= 11
      invariant 4 <= j <= 12
      invariant |triangleList.elems| == 6 + 6 * (j - 4)
      invariant forall k :: 0 <= k < |triangleList.elems| ==> triangleList.elems[k] == ShipTriangle(k)
    {
      ghost var before := triangleList.elems;
      // Front.
      triangleList.Add(3);
      triangleList.Add(j);
      triangleList.Add(j + 1);
      // Back.
      triangleList.Add(j + 1);
      triangleList.Add(j);
      triangleList.Add(13);
      FanExtend(before, j);
      j := j + 1;
    }
    triangles := triangleList.elems;
  }

  /** The UV list: the nose and base, the profile from right to left, the tail. */
  method BuildUvs() returns (uvs: seq<Vec2>)
    ensures uvs == ShipUvs()
  {
    var uvList := new List<Vec2>(NOSE_UVS);
    var i := 8;
    while i >= 0
      invariant -1 <= i <= 8
      invariant |uvList.elems| == 4 + 8 - i
      invariant forall k :: 0 <= k < |uvList.elems| ==> uvList.elems[k] == ShipUv(k)
    {
      uvList.Add(Vec2(i as real / 16.0, 0.5));
      i := i - 1;
    }
    var uvsTails := TAIL_UVS;
    uvList.AddRange(uvsTails);
    uvs := uvList.elems;
  }

  /** Fifteen vertices with a UV each and 18 triangles addressing them. */
  lemma ShipLayout(angle: real, height: real, sin: RealFn, cos: RealFn)
    ensures |ShipPoints(angle, height, sin, cos)| == POINTS_COUNT && |ShipUvs()| == POINTS_COUNT
    ensures |ShipTriangles()| == 3 * 18
    ensures forall k :: 0 <= k < |ShipTriangles()| ==> 0 <= ShipTriangles()[k] < POINTS_COUNT
  {
  }

  /** The three indices of triangle number t. */
  function TriangleAt(t: int): seq<int>
    requires 0 <= t < TRIANGLES_COUNT / 3
  {
    [ShipTriangle(3 * t), ShipTriangle(3 * t + 1), ShipTriangle(3 * t + 2)]
  }

  /** Appending the six slots of profile edge (j, j + 1) extends a correct
      prefix of the triangle list. */
  lemma FanExtend(before: seq<int>, j: int)
    requires 4 <= j <= 11 && |before| == 6 + 6 * (j - 4)
    requires forall k :: 0 <= k < |before| ==> before[k] == ShipTriangle(k)
    ensures var after := before + [3, j, j + 1, j + 1, j, 13];
      forall k :: 0 <= k < |after| ==> after[k] == ShipTriangle(k)
  {
  }

  /** Each profile edge (j, j + 1), j = 4..11, is used by a front triangle to
      the nose vertex 3 and by a back triangle to the tail vertex 13 that walks
      the edge the other way, so the two faces point in opposite directions. */
  lemma ShipFrontBackWinding()
    ensures forall t :: 2 <= t < TRIANGLES_COUNT / 3 ==>
      var j := 3 + t / 2;
      TriangleAt(t) == if t % 2 == 0 then [3, j, j + 1] else [j + 1, j, 13]
  {
    forall t | 2 <= t < TRIANGLES_COUNT / 3
      ensures var j := 3 + t / 2;
        TriangleAt(t) == if t % 2 == 0 then [3, j, j + 1] else [j + 1, j, 13]
    {
      WindingAt(t);
    }
  }

  /** Triangle t = 2m + 2 + r is slot 3r .. 3r + 2 of profile edge 4 + m. */
  lemma WindingAt(t: int)
    requires 2 <= t < TRIANGLES_COUNT / 3
    ensures var j := 3 + t / 2;
      TriangleAt(t) == if t % 2 == 0 then [3, j, j + 1] else [j + 1, j, 13]
  {
    var m, r := (t - 2) / 2, t % 2;
    assert t == 2 * m + 2 + r && 3 + t / 2 == 4 + m;
    DivMod(m, 3 * r, 6);
    DivMod(m, 3 * r + 1, 6);
    DivMod(m, 3 * r + 2, 6);
    assert 3 * t - 6 == 6 * m + 3 * r;
  }

  /** The nose is emitted twice and so is the tail: 0 and 3 coincide, and 13
      and 14 coincide. */
  lemma ShipDuplicates(angle: real, height: real, sin: RealFn, cos: RealFn)
    ensures ShipPoint(angle, height, sin, cos, 0) == ShipPoint(angle, height, sin, cos, 3)
    ensures ShipPoint(angle, height, sin, cos, 13) == ShipPoint(angle, height, sin, cos, 14)
  {
  }

  /** The profile is mirror-symmetric: vertices 4 + m and 12 - m share x and y
      and have opposite z. */
  lemma ShipProfileSymmetric(angle: real, height: real, sin: RealFn, cos: RealFn)
    ensures forall k {:trigger ShipPoint(angle, height, sin, cos, k)} :: 4 <= k <= 12 ==>
      var p, q := ShipPoint(angle, height, sin, cos, k), ShipPoint(angle, height, sin, cos, 16 - k);
      p.x == q.x && p.y == q.y && p.z == -q.z
  {
  }

  /** The wing can be laid flat: the base corners and the profile ends sit on
      the same circle of radius MAX_RADIUS around the origin when sin and cos
      satisfy the Pythagorean identity at the sampled angle. */
  lemma ShipBaseOnCircle(angle: real, height: real, sin: RealFn, cos: RealFn)
    requires sin(angle) * sin(angle) + cos(angle) * cos(angle) == 1.0
    ensures forall k :: k in {1, 2} ==>
      SqrMagnitude3(ShipPoint(angle, height, sin, cos, k)) == MAX_RADIUS * MAX_RADIUS
  {
    var z, x := MAX_RADIUS * sin(angle), MAX_RADIUS * cos(angle);
    assert x * x + z * z == MAX_RADIUS * MAX_RADIUS * (sin(angle) * sin(angle) + cos(angle) * cos(angle));
  }

  /** Every UV lies in the unit square; the profile UVs step by 1/16. */
  lemma ShipUvsInUnitSquare()
    ensures forall k :: 0 <= k < POINTS_COUNT ==> 0.0 <= ShipUv(k).x <= 1.0 && 0.0 <= ShipUv(k).y <= 1.0
    ensures forall k :: 4 <= k < 12 ==> ShipUv(k).x == ShipUv(k + 1).x + 1.0 / 16.0
  {
  }
}
