/** The box ship: an axis-aligned box spanning the clamping sphere along z,
    with its four side faces split from the end faces so they get hard edges. */
module Box {
  import opened Geometry
  import opened Lists
  import opened SpaceshipGenerator

  const MIN_SIZE: real := 0.1
  /** Vertices per ring of side-face vertices (4 corners, each doubled). */
  const FACE_SIZE: int := 8
  /** Index of the first vertex of the far end face. */
  const LAST_FACE_OFFSET: int := 8 + 8 + 4
  const POINTS_COUNT: int := 4 * 2 + 4 * 2 * 2

  /** The inspector's size correction: a minimum below MIN_SIZE is raised to
      it and the maximum is raised to at least MIN_SIZE. */
  function ValidatedSize(r: FloatRange): (v: FloatRange)
    ensures v.min >= MIN_SIZE
    ensures r.min >= MIN_SIZE ==> v == r
    ensures r.min < MIN_SIZE ==> v.min == MIN_SIZE && v.max >= MIN_SIZE && v.max >= r.max
    ensures r.min <= r.max ==> v.min <= v.max
  {
    if r.min < MIN_SIZE then FloatRange(MIN_SIZE, MaxReal(r.max, MIN_SIZE)) else r
  }

  /** The near end face, at z = -MAX_RADIUS, clockwise from the upper right. */
  function FirstFace(topHalfSize: real, sidesHalfSize: real): seq<Vec3> {
    [Vec3(sidesHalfSize, topHalfSize, -MAX_RADIUS),
     Vec3(sidesHalfSize, -topHalfSize, -MAX_RADIUS),
     Vec3(-sidesHalfSize, -topHalfSize, -MAX_RADIUS),
     Vec3(-sidesHalfSize, topHalfSize, -MAX_RADIUS)]
  }

  const FIRST_FACE_UVS: seq<Vec2> :=
    [Vec2(1.0, 0.25), Vec2(1.0, 0.0), Vec2(0.75, 0.0), Vec2(0.75, 0.25)]

  /** The outline walks the near face once around: position j of it copies
      corner 0, 1, 1, 2, 2, 3, 3, 0, every corner but the first doubled. */
  function OutlineCorner(j: int): int {
    ((j + 1) / 2) % 4
  }

  /** The near-face corner that vertex k of the box copies: the near face
      (0..3), the outline (4..11), the outline at the far end (12..19) and
      the far face (20..23). */
  function CornerOf(k: int): int {
    if k < 4 then k
    else if k < 4 + FACE_SIZE then OutlineCorner(k - 4)
    else if k < LAST_FACE_OFFSET then OutlineCorner(k - 4 - FACE_SIZE)
    else k - LAST_FACE_OFFSET
  }

  /** Vertex k: its corner, moved to z = MAX_RADIUS from index 12 onwards. */
  function BoxPoint(topHalfSize: real, sidesHalfSize: real, k: int): Vec3
    requires 0 <= k < POINTS_COUNT
  {
    var corner := FirstFace(topHalfSize, sidesHalfSize)[CornerOf(k)];
    if k < 4 + FACE_SIZE then corner else WithZ(corner, MAX_RADIUS)
  }

  function BoxPoints(topHalfSize: real, sidesHalfSize: real): seq<Vec3> {
    seq(POINTS_COUNT, k requires 0 <= k < POINTS_COUNT => BoxPoint(topHalfSize, sidesHalfSize, k))
  }

  /** u along the outline strip: a quarter per side, corners doubled. */
  const OUTLINE_U: seq<real> := [0.0, 0.25, 0.25, 0.5, 0.5, 0.75, 0.75, 1.0]

  /** UV of vertex k: the near face in the bottom band, the outline as a strip
      from u = 0 to u = 1 at v = 0.25 and at v = 0.75, the far face mirrored
      into the top band. */
  function BoxUv(k: int): Vec2
    requires 0 <= k < POINTS_COUNT
  {
    if k < 4 then FIRST_FACE_UVS[k]
    else if k < 4 + FACE_SIZE then Vec2(OUTLINE_U[k - 4], 0.25)
    else if k < LAST_FACE_OFFSET then Vec2(OUTLINE_U[k - 4 - FACE_SIZE], 0.75)
    else Vec2(FIRST_FACE_UVS[k - LAST_FACE_OFFSET].x, 1.0 - FIRST_FACE_UVS[k - LAST_FACE_OFFSET].y)
  }

  function BoxUvs(): seq<Vec2> {
    seq(POINTS_COUNT, k requires 0 <= k < POINTS_COUNT => BoxUv(k))
  }

  /** Two triangles per face: near face, right, bottom, left, top, far face. */
  const BOX_TRIANGLES: seq<int> := [
    0, 1, 3,
    1, 2, 3,
    5, 4, 5 + FACE_SIZE,
    4, 4 + FACE_SIZE, 5 + FACE_SIZE,
    7, 6, 7 + FACE_SIZE,
    6, 6 + FACE_SIZE, 7 + FACE_SIZE,
    9, 8, 9 + FACE_SIZE,
    8, 8 + FACE_SIZE, 9 + FACE_SIZE,
    11, 10, 11 + FACE_SIZE,
    10, 10 + FACE_SIZE, 11 + FACE_SIZE,
    1 + LAST_FACE_OFFSET, 0 + LAST_FACE_OFFSET, 3 + LAST_FACE_OFFSET,
    2 + LAST_FACE_OFFSET, 1 + LAST_FACE_OFFSET, 3 + LAST_FACE_OFFSET
  ]

  class BoxSpaceshipGenerator {
    var topSizeRange: FloatRange
    var sidesSizeRange: FloatRange
    var autoClampToMaxRadius: bool

    constructor (topSizeRange: FloatRange, sidesSizeRange: FloatRange, autoClampToMaxRadius: bool)
      ensures this.topSizeRange == topSizeRange && this.sidesSizeRange == sidesSizeRange
      ensures this.autoClampToMaxRadius == autoClampToMaxRadius
    {
      this.topSizeRange := topSizeRange;
      this.sidesSizeRange := sidesSizeRange;
      this.autoClampToMaxRadius := autoClampToMaxRadius;
    }

    /** Corrects both size ranges; the error log is not modelled. */
    method OnValidate()
      modifies this
      ensures topSizeRange == ValidatedSize(old(topSizeRange))
      ensures sidesSizeRange == ValidatedSize(old(sidesSizeRange))
      ensures autoClampToMaxRadius == old(autoClampToMaxRadius)
    {
      if topSizeRange.min < MIN_SIZE {
        topSizeRange := topSizeRange.(min := MIN_SIZE);
        topSizeRange := topSizeRange.(max := MaxReal(topSizeRange.max, MIN_SIZE));
      }
      if sidesSizeRange.min < MIN_SIZE {
        sidesSizeRange := sidesSizeRange.(min := MIN_SIZE);
        sidesSizeRange := sidesSizeRange.(max := MaxReal(sidesSizeRange.max, MIN_SIZE));
      }
    }

    /** Builds the box. topSample and sidesSample stand for the two
        RandomInside() draws from the size ranges; normalized is the engine's
        Vector3.normalized used by the clamp. */
    method Generate(topSample: real, sidesSample: real, normalized: Normalizer)
      returns (points: seq<Vec3>, triangles: seq<int>, uvs: seq<Vec2>)
      ensures var box := BoxPoints(topSample / 2.0, sidesSample / 2.0);
              points == if autoClampToMaxRadius then Clamped(box, MAX_RADIUS, normalized) else box
      ensures triangles == BOX_TRIANGLES && uvs == BoxUvs()
    {
      var topHalfSize := topSample / 2.0;
      var sidesHalfSize := sidesSample / 2.0;
      ghost var t, s := topHalfSize, sidesHalfSize;

      var pointList := new List<Vec3>(FirstFace(topHalfSize, sidesHalfSize));
      var uvList := new List<Vec2>(FIRST_FACE_UVS);
      PrefixStart(t, s);

      AddOutline(pointList, uvList, t, s);
      AddFarOutline(pointList, uvList, t, s);
      AddFarFace(pointList, uvList, t, s);
      PrefixComplete(pointList.elems, uvList.elems, t, s);
      ghost var box := pointList.elems;
      assert box == BoxPoints(topSample / 2.0, sidesSample / 2.0);
      uvs := uvList.elems;

      triangles := BOX_TRIANGLES;
      if autoClampToMaxRadius {
        ClampToRadiusList(pointList, MAX_RADIUS, normalized);
        points := pointList.elems;
        assert points == Clamped(box, MAX_RADIUS, normalized);
      } else {
        points := pointList.elems;
        assert points == box;
      }
    }
  }

  /** Duplicates the first face as its outline, every corner but the first
      doubled so the side faces get hard edges. */
  method AddOutline(pointList: List<Vec3>, uvList: List<Vec2>, ghost t: real, ghost s: real)
    requires PointsPrefix(pointList.elems, t, s, 4) && UvsPrefix(uvList.elems, 4)
    modifies pointList, uvList
    ensures PointsPrefix(pointList.elems, t, s, 4 + FACE_SIZE) && UvsPrefix(uvList.elems, 4 + FACE_SIZE)
  {
    OutlineStep(t, s, 0);
    AddPoint(pointList, t, s, pointList.elems[0]);
    AddUv(uvList, Vec2(0.0, 0.25));
    var i := 1;
    while i < 4
      invariant 1 <= i <= 4
      invariant PointsPrefix(pointList.elems, t, s, 4 + 2 * i - 1)
      invariant UvsPrefix(uvList.elems, 4 + 2 * i - 1)
    {
      AddCornerTwice(pointList, uvList, t, s, i);
      i := i + 1;
    }
    OutlineStep(t, s, 4);
    AddPoint(pointList, t, s, pointList.elems[0]);
    AddUv(uvList, Vec2(1.0, 0.25));
  }

  /** One pass of the outline loop: corner i twice, with u = i / 4 twice. */
  method AddCornerTwice(pointList: List<Vec3>, uvList: List<Vec2>, ghost t: real, ghost s: real, i: int)
    requires 1 <= i < 4
    requires PointsPrefix(pointList.elems, t, s, 4 + 2 * i - 1) && UvsPrefix(uvList.elems, 4 + 2 * i - 1)
    modifies pointList, uvList
    ensures PointsPrefix(pointList.elems, t, s, 4 + 2 * i + 1) && UvsPrefix(uvList.elems, 4 + 2 * i + 1)
  {
    OutlineStep(t, s, i);
    AddPoint(pointList, t, s, pointList.elems[i]);
    AddPoint(pointList, t, s, pointList.elems[i]);
    var uv := Vec2(0.25 * i as real, 0.25);
    AddUv(uvList, uv);
    AddUv(uvList, uv);
  }

  /** Creates the other end of the side faces at z = MAX_RADIUS. */
  method AddFarOutline(pointList: List<Vec3>, uvList: List<Vec2>, ghost t: real, ghost s: real)
    requires PointsPrefix(pointList.elems, t, s, 4 + FACE_SIZE) && UvsPrefix(uvList.elems, 4 + FACE_SIZE)
    modifies pointList, uvList
    ensures PointsPrefix(pointList.elems, t, s, LAST_FACE_OFFSET) && UvsPrefix(uvList.elems, LAST_FACE_OFFSET)
  {
    var i := 4;
    while i < 4 + 8
      invariant 4 <= i <= 12
      invariant PointsPrefix(pointList.elems, t, s, i + FACE_SIZE)
      invariant UvsPrefix(uvList.elems, i + FACE_SIZE)
    {
      FarStep(t, s, i);
      var point := pointList.elems[i];
      point := point.(z := MAX_RADIUS);
      AddPoint(pointList, t, s, point);
      var uv := uvList.elems[i];
      uv := uv.(y := 0.75);
      AddUv(uvList, uv);
      i := i + 1;
    }
  }

  /** Adds the far end face: the first face at z = MAX_RADIUS, its UVs
      mirrored in v. */
  method AddFarFace(pointList: List<Vec3>, uvList: List<Vec2>, ghost t: real, ghost s: real)
    requires PointsPrefix(pointList.elems, t, s, LAST_FACE_OFFSET) && UvsPrefix(uvList.elems, LAST_FACE_OFFSET)
    modifies pointList, uvList
    ensures PointsPrefix(pointList.elems, t, s, POINTS_COUNT) && UvsPrefix(uvList.elems, POINTS_COUNT)
  {
    var i := 0;
    while i < 4
      invariant 0 <= i <= 4
      invariant PointsPrefix(pointList.elems, t, s, LAST_FACE_OFFSET + i)
      invariant UvsPrefix(uvList.elems, LAST_FACE_OFFSET + i)
    {
      FarStep(t, s, i);
      var point := pointList.elems[i];
      point := point.(z := MAX_RADIUS);
      AddPoint(pointList, t, s, point);
      var uv := uvList.elems[i];
      uv := uv.(y := 1.0 - uv.y);
      AddUv(uvList, uv);
      i := i + 1;
    }
  }

  /** The first n vertices of the box have been emitted. */
  ghost predicate PointsPrefix(points: seq<Vec3>, t: real, s: real, n: int) {
    0 <= n <= POINTS_COUNT && |points| == n &&
    forall k :: 0 <= k < n ==> points[k] == BoxPoint(t, s, k)
  }

  /** The first n UVs of the box have been emitted. */
  ghost predicate UvsPrefix(uvs: seq<Vec2>, n: int) {
    0 <= n <= POINTS_COUNT && |uvs| == n &&
    forall k :: 0 <= k < n ==> uvs[k] == BoxUv(k)
  }

  lemma PrefixStart(t: real, s: real)
    ensures PointsPrefix(FirstFace(t, s), t, s, 4) && UvsPrefix(FIRST_FACE_UVS, 4)
  {
  }

  lemma PrefixComplete(points: seq<Vec3>, uvs: seq<Vec2>, t: real, s: real)
    requires PointsPrefix(points, t, s, POINTS_COUNT) && UvsPrefix(uvs, POINTS_COUNT)
    ensures points == BoxPoints(t, s) && uvs == BoxUvs()
  {
  }

  /** Adds the next vertex of the box to the list. */
  method AddPoint(list: List<Vec3>, ghost t: real, ghost s: real, p: Vec3)
    requires PointsPrefix(list.elems, t, s, |list.elems|) && |list.elems| < POINTS_COUNT
    requires p == BoxPoint(t, s, |list.elems|)
    modifies list
    ensures list.elems == old(list.elems) + [p]
    ensures PointsPrefix(list.elems, t, s, |list.elems|)
  {
    list.Add(p);
  }

  /** Adds the next UV of the box to the list. */
  method AddUv(list: List<Vec2>, uv: Vec2)
    requires UvsPrefix(list.elems, |list.elems|) && |list.elems| < POINTS_COUNT
    requires uv == BoxUv(|list.elems|)
    modifies list
    ensures list.elems == old(list.elems) + [uv]
    ensures UvsPrefix(list.elems, |list.elems|)
  {
    list.Add(uv);
  }

  /** The outline vertices 2i + 3 and 2i + 4 (those that exist) copy corner
      i (corner 0 for i = 4) and carry u = i / 4 on the v = 0.25 strip. */
  lemma OutlineStep(t: real, s: real, i: int)
    requires 0 <= i <= 4
    ensures i > 0 ==> BoxPoint(t, s, 2 * i + 3) == BoxPoint(t, s, i % 4) &&
                      BoxUv(2 * i + 3) == Vec2(0.25 * i as real, 0.25)
    ensures i < 4 ==> BoxPoint(t, s, 2 * i + 4) == BoxPoint(t, s, i) &&
                      BoxUv(2 * i + 4) == Vec2(0.25 * i as real, 0.25)
  {
  }

  /** Vertex k + 8 (k in 4..11) and vertex k + 20 (k in 0..3) repeat vertex k
      at the far end, with the UV the loops give them. */
  lemma FarStep(t: real, s: real, k: int)
    requires 0 <= k < 12
    ensures 4 <= k ==> BoxPoint(t, s, k + FACE_SIZE) == WithZ(BoxPoint(t, s, k), MAX_RADIUS) &&
                       BoxUv(k + FACE_SIZE) == WithY2(BoxUv(k), 0.75)
    ensures k < 4 ==> BoxPoint(t, s, k + LAST_FACE_OFFSET) == WithZ(BoxPoint(t, s, k), MAX_RADIUS) &&
                      BoxUv(k + LAST_FACE_OFFSET) == WithY2(BoxUv(k), 1.0 - BoxUv(k).y)
  {
  }

  /** Buffer sizes: 24 vertices with a UV each, 12 triangles addressing them. */
  lemma BoxLayout(topHalfSize: real, sidesHalfSize: real)
    ensures |BoxPoints(topHalfSize, sidesHalfSize)| == POINTS_COUNT && |BoxUvs()| == POINTS_COUNT
    ensures |BOX_TRIANGLES| == 3 * 12
    ensures forall k :: 0 <= k < |BOX_TRIANGLES| ==> 0 <= BOX_TRIANGLES[k] < POINTS_COUNT
  {
  }

  /** The end faces are flat: both triangles of the near face lie on
      z = -MAX_RADIUS and both of the far face on z = MAX_RADIUS. */
  lemma BoxEndFacesPlanar(t: real, s: real)
    ensures forall k :: 0 <= k < 6 ==> BoxPoint(t, s, BOX_TRIANGLES[k]).z == -MAX_RADIUS
    ensures forall k :: 30 <= k < 36 ==> BoxPoint(t, s, BOX_TRIANGLES[k]).z == MAX_RADIUS
  {
  }

  /** The side faces are flat: the right, bottom, left and top quads lie on
      x = s, y = -t, x = -s and y = t. */
  lemma BoxSideFacesPlanar(t: real, s: real)
    ensures forall k :: 6 <= k < 12 ==> BoxPoint(t, s, BOX_TRIANGLES[k]).x == s
    ensures forall k :: 12 <= k < 18 ==> BoxPoint(t, s, BOX_TRIANGLES[k]).y == -t
    ensures forall k :: 18 <= k < 24 ==> BoxPoint(t, s, BOX_TRIANGLES[k]).x == -s
    ensures forall k :: 24 <= k < 30 ==> BoxPoint(t, s, BOX_TRIANGLES[k]).y == t
  {
  }

  /** The side-face vertices are copies of the corners, and the far end
      repeats the near end at z = MAX_RADIUS. */
  lemma BoxSeams(t: real, s: real)
    ensures var p := BoxPoints(t, s);
      |p| == POINTS_COUNT &&
      (forall k {:trigger p[k]} :: 4 <= k < 4 + FACE_SIZE ==> p[k] == p[OutlineCorner(k - 4)]) &&
      (forall k :: 4 + FACE_SIZE <= k < LAST_FACE_OFFSET ==> p[k] == WithZ(p[k - FACE_SIZE], MAX_RADIUS)) &&
      (forall k :: LAST_FACE_OFFSET <= k < POINTS_COUNT ==> p[k] == WithZ(p[k - LAST_FACE_OFFSET], MAX_RADIUS))
  {
  }

  /** The far face is the near face moved by LAST_FACE_OFFSET with each
      triangle's winding reversed, so both faces point outwards. */
  lemma BoxEndFacesFlipped()
    ensures forall k :: 0 <= k < 2 ==>
      BOX_TRIANGLES[30 + 3 * k] == BOX_TRIANGLES[3 * k + 1] + LAST_FACE_OFFSET &&
      BOX_TRIANGLES[30 + 3 * k + 1] == BOX_TRIANGLES[3 * k] + LAST_FACE_OFFSET &&
      BOX_TRIANGLES[30 + 3 * k + 2] == BOX_TRIANGLES[3 * k + 2] + LAST_FACE_OFFSET
  {
  }

  /** Every UV lies in the unit square; the side strips and the end faces use
      the bands v in [0.25, 0.75], [0, 0.25] and [0.75, 1]. */
  lemma BoxUvsInUnitSquare()
    ensures forall k :: 0 <= k < |BoxUvs()| ==>
      0.0 <= BoxUvs()[k].x <= 1.0 && 0.0 <= BoxUvs()[k].y <= 1.0
    ensures forall k :: 0 <= k < 4 ==> BoxUvs()[k].y <= 0.25
    ensures forall k :: 4 <= k < 4 + FACE_SIZE ==> BoxUvs()[k].y == 0.25
    ensures forall k :: 4 + FACE_SIZE <= k < LAST_FACE_OFFSET ==> BoxUvs()[k].y == 0.75
    ensures forall k :: LAST_FACE_OFFSET <= k < POINTS_COUNT ==> BoxUvs()[k].y >= 0.75
  {
  }

  /** Any box with a non-zero cross-section pokes out of the sphere at every
      vertex (the end faces sit on z = +-MAX_RADIUS), so clamping puts every
      vertex exactly on the sphere. */
  lemma BoxClampedOnSphere(t: real, s: real, normalized: Normalizer)
    requires UnitDirections(normalized)
    requires t != 0.0 || s != 0.0
    ensures var c := Clamped(BoxPoints(t, s), MAX_RADIUS, normalized);
      |c| == POINTS_COUNT &&
      forall k :: 0 <= k < |c| ==> SqrMagnitude3(c[k]) == MAX_RADIUS * MAX_RADIUS
  {
    var p := BoxPoints(t, s);
    PositiveSquares(t, s);
    forall k | 0 <= k < |p| ensures SqrMagnitude3(ClampPoint(p[k], MAX_RADIUS, normalized)) == MAX_RADIUS * MAX_RADIUS {
      BoxPointSquared(t, s, k);
      ClampPointInside(p[k], MAX_RADIUS, normalized);
    }
  }

  /** Every vertex is a corner of the s by t rectangle at z = +-MAX_RADIUS. */
  lemma BoxPointSquared(t: real, s: real, k: int)
    requires 0 <= k < POINTS_COUNT
    ensures SqrMagnitude3(BoxPoint(t, s, k)) == s * s + t * t + MAX_RADIUS * MAX_RADIUS
  {
    var corner := FirstFace(t, s)[CornerOf(k)];
    NegSquare(s);
    NegSquare(t);
    assert corner.x * corner.x == s * s && corner.y * corner.y == t * t;
  }

  lemma NegSquare(a: real)
    ensures (-a) * (-a) == a * a
  {
  }

  lemma PositiveSquares(t: real, s: real)
    requires t != 0.0 || s != 0.0
    ensures s * s + t * t > 0.0
  {
    if t != 0.0 {
      assert t * t > 0.0;
    } else {
      assert s * s > 0.0;
    }
  }

  /** Sizes drawn from validated ranges give a box with a non-zero
      cross-section, which the clamp therefore always reshapes. */
  lemma ValidatedSizesGiveVolume(top: FloatRange, sides: FloatRange, topSample: real, sidesSample: real)
    requires ValidatedSize(top).min <= topSample && ValidatedSize(sides).min <= sidesSample
    ensures topSample / 2.0 >= MIN_SIZE / 2.0 && sidesSample / 2.0 >= MIN_SIZE / 2.0
  {
  }
}
