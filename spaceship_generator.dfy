/** The shared mesh-buffer utilities of the generators' abstract base class:
    hard-edge splitting of a cross-section ring, winding flips and clamping
    to a sphere. */
module SpaceshipGenerator {
  import opened Geometry
  import opened Lists
  import opened Bookkeeping

  /** Every generator fits its ship inside a sphere of this radius. */
  const MAX_RADIUS: real := 0.9

  /** Edges shorter than this (squared) are treated as an existing hard edge. */
  const MIN_SQR_EDGE: real := 0.001

  // ---------------------------------------------------------------------------
  // SplitByAngle

  /** Corner i of the closed ring is sharp: both edges to its ring neighbours
      are long enough and the angle between them is at most the threshold. */
  predicate IsSharpCorner(points: seq<Vec2>, i: int, angleThreshold: real, angle: AngleBetween)
    requires 0 <= i < |points|
  {
    var n := |points|;
    var l0 := Sub2(points[(i - 1 + n) % n], points[i]);
    var l1 := Sub2(points[(i + 1) % n], points[i]);
    SqrMagnitude2(l0) >= MIN_SQR_EDGE && SqrMagnitude2(l1) >= MIN_SQR_EDGE &&
    angle(l0, l1) <= angleThreshold
  }

  /** The sharp corners among indices 0 .. k-1, in increasing order. */
  function SharpCornersBelow(points: seq<Vec2>, angleThreshold: real, angle: AngleBetween, k: nat): seq<int>
    requires k <= |points|
  {
    if k == 0 then []
    else SharpCornersBelow(points, angleThreshold, angle, k - 1) +
         (if IsSharpCorner(points, k - 1, angleThreshold, angle) then [k - 1] else [])
  }

  function SharpCorners(points: seq<Vec2>, angleThreshold: real, angle: AngleBetween): seq<int> {
    SharpCornersBelow(points, angleThreshold, angle, |points|)
  }

  /** The split list is strictly increasing, lies in [0, k), and holds an
      index exactly when that corner is sharp. */
  lemma {:induction false} SharpCornersBelowSpec(points: seq<Vec2>, angleThreshold: real, angle: AngleBetween, k: nat)
    requires k <= |points|
    ensures var r := SharpCornersBelow(points, angleThreshold, angle, k);
      StrictlyIncreasing(r) && Within(r, 0, k) &&
      forall i :: 0 <= i < k ==> (i in r <==> IsSharpCorner(points, i, angleThreshold, angle))
  {
    if k > 0 {
      var r := SharpCornersBelow(points, angleThreshold, angle, k - 1);
      var b := IsSharpCorner(points, k - 1, angleThreshold, angle);
      SharpCornersBelowSpec(points, angleThreshold, angle, k - 1);
      AppendAbove(r, k - 1, b);
      var t := SharpCornersBelow(points, angleThreshold, angle, k);
      assert t == r + (if b then [k - 1] else []);
      forall i | 0 <= i < k
        ensures i in t <==> IsSharpCorner(points, i, angleThreshold, angle)
      {
        if i < k - 1 {
          assert i in t <==> i in r;
        }
      }
    }
  }

  lemma SharpCornersSpec(points: seq<Vec2>, angleThreshold: real, angle: AngleBetween)
    ensures var r := SharpCorners(points, angleThreshold, angle);
      StrictlyIncreasing(r) && Within(r, 0, |points|) &&
      forall i :: 0 <= i < |points| ==> (i in r <==> IsSharpCorner(points, i, angleThreshold, angle))
  {
    SharpCornersBelowSpec(points, angleThreshold, angle, |points|);
  }

  /** The split points: the ring with every sharp corner duplicated in place.
      It has one more point per split, and the j-th split index s sits at
      s + j followed by its copy. */
  lemma SplitLayout(points: seq<Vec2>, angleThreshold: real, angle: AngleBetween)
    ensures var splits := SharpCorners(points, angleThreshold, angle);
      var split := Expand(points, splits);
      Within(splits, 0, |points|) && |split| == |points| + |splits| &&
      forall j :: 0 <= j < |splits| ==>
        splits[j] + j + 1 < |split| &&
        split[splits[j] + j] == points[splits[j]] && split[splits[j] + j + 1] == points[splits[j]]
  {
    SharpCornersSpec(points, angleThreshold, angle);
    ExpandSorted(points, SharpCorners(points, angleThreshold, angle));
  }

  /** Marks the sharp corners of the ring and duplicates each in place,
      processing indices from the highest down so that the indices still to
      be processed stay valid. Returns the original indices that were split. */
  method SplitByAngle(points: List<Vec2>, angleThreshold: real, angle: AngleBetween) returns (splits: seq<int>)
    modifies points
    ensures splits == SharpCorners(old(points.elems), angleThreshold, angle)
    ensures points.elems == Expand(old(points.elems), splits)
    ensures splits == [] ==> points.elems == old(points.elems)
  {
    var orig := points.elems;
    splits := [];
    var n := |orig|;
    var i := 0;
    while i < n
      invariant 0 <= i <= n && points.elems == orig
      invariant splits == SharpCornersBelow(orig, angleThreshold, angle, i)
    {
      var p0 := orig[(i - 1 + n) % n];
      var p1 := orig[i];
      var p2 := orig[(i + 1) % n];
      var l0 := Sub2(p0, p1);
      if SqrMagnitude2(l0) < MIN_SQR_EDGE {
        // Already a hard edge.
        i := i + 1;
        continue;
      }
      var l1 := Sub2(p2, p1);
      if SqrMagnitude2(l1) < MIN_SQR_EDGE {
        i := i + 1;
        continue;
      }
      var a := angle(l0, l1);
      if a > angleThreshold {
        i := i + 1;
        continue;
      }
      splits := splits + [i];
      i := i + 1;
    }
    if |splits| == 0 {
      ExpandFromNothing(orig, splits, 0);
      return;
    }

    DuplicatePoints(points, splits);
  }

  /** The second half of SplitByAngle: every listed point is duplicated in
      place, from the last index down. */
  method DuplicatePoints(points: List<Vec2>, splits: seq<int>)
    modifies points
    ensures points.elems == Expand(old(points.elems), splits)
  {
    ghost var orig := points.elems;
    var i := points.Count() - 1;
    while i >= 0
      invariant -1 <= i < |orig|
      invariant points.elems == orig[..i + 1] + ExpandFrom(orig, splits, i + 1)
    {
      if i in splits {
        points.Insert(i, points.elems[i]);
        assert points.elems == orig[..i] + ([orig[i], orig[i]] + ExpandFrom(orig, splits, i + 1));
      } else {
        assert orig[..i + 1] == orig[..i] + [orig[i]];
      }
      i := i - 1;
    }
  }

  // ---------------------------------------------------------------------------
  // FlipTriangles

  /** The last index of the flipped range: a negative toIndex means the end. */
  function FlipEnd(length: int, toIndex: int): int {
    if toIndex < 0 then length - 1 else toIndex
  }

  /** k is the first slot of a triple whose first two slots are swapped. */
  predicate IsFlipStart(fromIndex: int, lastIndex: int, k: int) {
    fromIndex <= k <= lastIndex && (k - fromIndex) % 3 == 0
  }

  /** Every swapped pair lies inside an array of this length. */
  predicate FlipInBounds(length: int, fromIndex: int, lastIndex: int) {
    0 <= fromIndex &&
    (lastIndex < fromIndex || fromIndex + 3 * ((lastIndex - fromIndex) / 3) + 1 < length)
  }

  /** Slot k after flipping: the first two slots of each triple starting at
      fromIndex, fromIndex + 3, ... (up to lastIndex) trade places. */
  function FlippedAt(s: seq<int>, fromIndex: int, lastIndex: int, k: int): int
    requires 0 <= k < |s|
  {
    if IsFlipStart(fromIndex, lastIndex, k) && k + 1 < |s| then s[k + 1]
    else if 1 <= k && IsFlipStart(fromIndex, lastIndex, k - 1) then s[k - 1]
    else s[k]
  }

  function Flipped(s: seq<int>, fromIndex: int, lastIndex: int): seq<int> {
    seq(|s|, k requires 0 <= k < |s| => FlippedAt(s, fromIndex, lastIndex, k))
  }

  /** Flipping keeps the length, only touches the swapped slots, and is its
      own inverse. */
  lemma {:induction false} FlipInvolution(s: seq<int>, fromIndex: int, lastIndex: int)
    requires FlipInBounds(|s|, fromIndex, lastIndex)
    ensures |Flipped(s, fromIndex, lastIndex)| == |s|
    ensures forall k ::
              (0 <= k < |s| && !IsFlipStart(fromIndex, lastIndex, k) &&
               !(1 <= k && IsFlipStart(fromIndex, lastIndex, k - 1))) ==>
              Flipped(s, fromIndex, lastIndex)[k] == s[k]
    ensures Flipped(Flipped(s, fromIndex, lastIndex), fromIndex, lastIndex) == s
  {
    var f := Flipped(s, fromIndex, lastIndex);
    forall k | 0 <= k < |s| ensures Flipped(f, fromIndex, lastIndex)[k] == s[k] {
      if IsFlipStart(fromIndex, lastIndex, k) {
        FlipStartInBounds(|s|, fromIndex, lastIndex, k);
        assert !IsFlipStart(fromIndex, lastIndex, k + 1);
      } else if 1 <= k && IsFlipStart(fromIndex, lastIndex, k - 1) {
        FlipStartInBounds(|s|, fromIndex, lastIndex, k - 1);
      }
    }
  }

  /** Every triple start in range has its partner slot inside the array. */
  lemma FlipStartInBounds(length: int, fromIndex: int, lastIndex: int, k: int)
    requires FlipInBounds(length, fromIndex, lastIndex) && IsFlipStart(fromIndex, lastIndex, k)
    ensures k + 1 < length
  {
    var m := (k - fromIndex) / 3;
    assert k == fromIndex + 3 * m;
    assert m <= (lastIndex - fromIndex) / 3;
  }

  /** Reverses the winding of the triangles in [fromIndex, toIndex] by
      swapping the first two indices of each triple starting at fromIndex
      (the source only logs when fromIndex is not a triple boundary); a
      negative toIndex means the end of the array. */
  method FlipTriangles(triangles: array<int>, fromIndex: int := 0, toIndex: int := -1)
    requires FlipInBounds(triangles.Length, fromIndex, FlipEnd(triangles.Length, toIndex))
    modifies triangles
    ensures triangles[..] == Flipped(old(triangles[..]), fromIndex, FlipEnd(triangles.Length, toIndex))
  {
    var last := toIndex;
    if last < 0 {
      last := triangles.Length - 1;
    }
    ghost var orig := triangles[..];
    var i := fromIndex;
    while i <= last
      invariant fromIndex <= i && (i - fromIndex) % 3 == 0
      invariant i <= last + 3 || i == fromIndex
      invariant forall k :: 0 <= k < triangles.Length ==>
                  triangles[k] == if k < i then FlippedAt(orig, fromIndex, last, k) else orig[k]
    {
      FlipStartInBounds(triangles.Length, fromIndex, last, i);
      FlipSlots(orig, fromIndex, last, i);
      triangles[i], triangles[i + 1] := triangles[i + 1], triangles[i];
      i := i + 3;
    }
    FlipRest(orig, fromIndex, last, i);
    assert triangles[..] == Flipped(orig, fromIndex, last);
  }

  /** The triple at a flip start i: its first two slots trade places and the
      third stays. */
  lemma FlipSlots(s: seq<int>, fromIndex: int, lastIndex: int, i: int)
    requires IsFlipStart(fromIndex, lastIndex, i) && 0 <= i && i + 1 < |s|
    ensures FlippedAt(s, fromIndex, lastIndex, i) == s[i + 1]
    ensures FlippedAt(s, fromIndex, lastIndex, i + 1) == s[i]
    ensures i + 2 < |s| ==> FlippedAt(s, fromIndex, lastIndex, i + 2) == s[i + 2]
  {
    assert !IsFlipStart(fromIndex, lastIndex, i + 1) && !IsFlipStart(fromIndex, lastIndex, i + 2);
  }

  /** Past the last triple started below i nothing is flipped. */
  lemma FlipRest(s: seq<int>, fromIndex: int, lastIndex: int, i: int)
    requires 0 <= fromIndex <= i && (i - fromIndex) % 3 == 0 && lastIndex < i
    ensures forall k :: i <= k < |s| ==> FlippedAt(s, fromIndex, lastIndex, k) == s[k]
  {
  }

  // ---------------------------------------------------------------------------
  // ClampToRadius

  /** A point outside the sphere is replaced by its direction scaled to the
      radius; a point inside (or on) the sphere is kept. */
  function ClampPoint(p: Vec3, radius: real, normalized: Normalizer): Vec3 {
    if SqrMagnitude3(p) > radius * radius then Scale3(normalized(p), radius) else p
  }

  function Clamped(s: seq<Vec3>, radius: real, normalized: Normalizer): seq<Vec3> {
    seq(|s|, i requires 0 <= i < |s| => ClampPoint(s[i], radius, normalized))
  }

  /** What the engine promises of Vector3.normalized for non-zero vectors. */
  ghost predicate UnitDirections(normalized: Normalizer) {
    forall v :: SqrMagnitude3(v) > 0.0 ==> SqrMagnitude3(normalized(v)) == 1.0
  }

  /** With unit directions and a non-negative radius, a clamped point lies in
      the sphere, exactly on it when it was moved. */
  lemma ClampPointInside(p: Vec3, radius: real, normalized: Normalizer)
    requires UnitDirections(normalized) && radius >= 0.0
    ensures SqrMagnitude3(ClampPoint(p, radius, normalized)) <= radius * radius
    ensures SqrMagnitude3(p) > radius * radius ==>
              SqrMagnitude3(ClampPoint(p, radius, normalized)) == radius * radius
    ensures SqrMagnitude3(p) <= radius * radius ==> ClampPoint(p, radius, normalized) == p
  {
    if SqrMagnitude3(p) > radius * radius {
      ScaleSqrMagnitude3(normalized(p), radius);
    }
  }

  /** Clamping keeps the length and is idempotent. */
  lemma ClampIdempotent(s: seq<Vec3>, radius: real, normalized: Normalizer)
    requires UnitDirections(normalized) && radius >= 0.0
    ensures |Clamped(s, radius, normalized)| == |s|
    ensures Clamped(Clamped(s, radius, normalized), radius, normalized) == Clamped(s, radius, normalized)
  {
    var c := Clamped(s, radius, normalized);
    forall i | 0 <= i < |s| ensures ClampPoint(c[i], radius, normalized) == c[i] {
      ClampPointInside(s[i], radius, normalized);
      ClampPointInside(c[i], radius, normalized);
    }
  }

  /** ClampToRadius(Vector3[], float): clamps the array in place. */
  method ClampToRadius(points: array<Vec3>, radius: real, normalized: Normalizer)
    modifies points
    ensures points[..] == Clamped(old(points[..]), radius, normalized)
  {
    var sqrRadius := radius * radius;
    var i := 0;
    while i < points.Length
      invariant 0 <= i <= points.Length
      invariant forall k :: 0 <= k < i ==> points[k] == ClampPoint(old(points[k]), radius, normalized)
      invariant forall k :: i <= k < points.Length ==> points[k] == old(points[k])
    {
      var point := points[i];
      if SqrMagnitude3(point) > sqrRadius {
        points[i] := Scale3(normalized(point), radius);
      }
      i := i + 1;
    }
  }

  /** ClampToRadius(List<Vector3>, float): the same element-wise clamping on a list. */
  method ClampToRadiusList(points: List<Vec3>, radius: real, normalized: Normalizer)
    modifies points
    ensures points.elems == Clamped(old(points.elems), radius, normalized)
  {
    var sqrRadius := radius * radius;
    var i := 0;
    while i < points.Count()
      invariant 0 <= i <= points.Count() && |points.elems| == |old(points.elems)|
      invariant forall k :: 0 <= k < i ==> points.elems[k] == ClampPoint(old(points.elems[k]), radius, normalized)
      invariant forall k :: i <= k < |points.elems| ==> points.elems[k] == old(points.elems[k])
    {
      var point := points.elems[i];
      if SqrMagnitude3(point) > sqrRadius {
        points.Set(i, Scale3(normalized(point), radius));
      }
      i := i + 1;
    }
  }
}
