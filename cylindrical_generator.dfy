/** The lathed ship: a random cross-section ring, symmetric about the y axis,
    extruded between two flat caps at z = -MAX_RADIUS and z = +MAX_RADIUS.
    Sharp corners of the ring get duplicated vertices so the circumference
    has hard edges there. */
module Cylindrical {
  import opened Geometry
  import opened Lists
  import opened Bookkeeping
  import opened SpaceshipGenerator
  import opened VectorExtensions

  /** The smallest radius a cross-section point may be sampled at. */
  const MIN_RADIUS: real := 0.1

  // ---------------------------------------------------------------------------
  // Inspector validation

  /** The point-count range after OnValidate: at least one point. */
  function ValidatedPointsRange(r: IntRange): (v: IntRange)
    ensures v.min >= 1
    ensures r.min >= 1 ==> v == r
    ensures r.min < 1 ==> v.max >= 1 && v.max >= r.max && (r.max >= 1 ==> v.max == r.max)
    ensures v.min <= v.max <==> r.min < 1 || r.min <= r.max
  {
    if r.min < 1 then IntRange(1, MaxInt(r.max, 1)) else r
  }

  /** The radius range after OnValidate: inside [MIN_RADIUS, MAX_RADIUS]. */
  function ValidatedRadius(r: FloatRange): (v: FloatRange)
    ensures MIN_RADIUS <= v.min && v.max <= MAX_RADIUS
    ensures MIN_RADIUS <= r.min && r.max <= MAX_RADIUS ==> v == r
    ensures v.min <= v.max <==> !(MIN_RADIUS <= r.min && r.max <= MAX_RADIUS && r.min > r.max)
  {
    var a := if r.min < MIN_RADIUS then FloatRange(MIN_RADIUS, MaxReal(MIN_RADIUS, r.max)) else r;
    if a.max > MAX_RADIUS then FloatRange(MinReal(a.min, MAX_RADIUS), MAX_RADIUS) else a
  }

  // ---------------------------------------------------------------------------
  // The half cross-section

  /** The sum of the first i step angles of a half cross-section of p points
      drawn with the given noise samples (Random.value). */
  function AngleSum(p: nat, noise: seq<real>, amount: real, i: nat): real
    requires i <= p <= |noise|
    decreases i, 0
  {
    if i == 0 then 0.0 else AngleSum(p, noise, amount, i - 1) + StepAngle(p, noise, amount, i - 1)
  }

  /** The angle still left to 180 degrees after i steps, shared evenly among
      the p + 1 - i gaps still to be placed. */
  function EvenAngle(p: nat, noise: seq<real>, amount: real, i: nat): real
    requires i <= p <= |noise|
    decreases i, 1
  {
    (180.0 - AngleSum(p, noise, amount, i)) / (p + 1 - i) as real
  }

  /** Step i: the even share, shrunk by the noise. */
  function StepAngle(p: nat, noise: seq<real>, amount: real, i: nat): real
    requires i < p <= |noise|
    decreases i, 2
  {
    EvenAngle(p, noise, amount, i) * (1.0 - noise[i] * amount)
  }

  /** The unit direction after i steps: up, rotated clockwise step by step. */
  function Offset(p: nat, noise: seq<real>, amount: real, sin: RealFn, cos: RealFn, i: nat): Vec2
    requires i <= p <= |noise|
  {
    if i == 0 then Vec2(0.0, 1.0)
    else RotateInDegrees(Offset(p, noise, amount, sin, cos, i - 1), -StepAngle(p, noise, amount, i - 1), sin, cos)
  }

  /** Point i of the half cross-section: direction i + 1 scaled by its radius. */
  function HalfSectionPoint(p: nat, noise: seq<real>, lengths: seq<real>, amount: real, sin: RealFn, cos: RealFn, i: nat): Vec2
    requires i < p <= |noise| && p <= |lengths|
  {
    Scale2(Offset(p, noise, amount, sin, cos, i + 1), lengths[i])
  }

  function HalfSection(p: nat, noise: seq<real>, lengths: seq<real>, amount: real, sin: RealFn, cos: RealFn): (r: seq<Vec2>)
    requires p <= |noise| && p <= |lengths|
    ensures |r| == p
  {
    seq(p, i requires 0 <= i < p => HalfSectionPoint(p, noise, lengths, amount, sin, cos, i))
  }

  ghost predicate UnitSamples(noise: seq<real>, amount: real) {
    0.0 <= amount <= 1.0 && forall k :: 0 <= k < |noise| ==> 0.0 <= noise[k] <= 1.0
  }

  /** With noise and amount in [0, 1] every step lies between 0 and the even
      share of what is left, and the running sum stays in [0, 180): the half
      cross-section never turns past the bottom point. */
  lemma {:induction false} AngleSumBounds(p: nat, noise: seq<real>, amount: real, i: nat)
    requires i <= p <= |noise| && UnitSamples(noise, amount)
    ensures 0.0 <= AngleSum(p, noise, amount, i) < 180.0
    ensures i < p ==>
      0.0 <= StepAngle(p, noise, amount, i) <= (180.0 - AngleSum(p, noise, amount, i)) / (p + 1 - i) as real
    ensures i < p ==> AngleSum(p, noise, amount, i) <= AngleSum(p, noise, amount, i + 1)
  {
    if i > 0 {
      AngleSumBounds(p, noise, amount, i - 1);
      StepBounds(p, noise, amount, i - 1);
    }
    if i < p {
      StepBounds(p, noise, amount, i);
    }
  }

  /** One step of AngleSumBounds: from a sum below 180 the step is at most
      half of what is left. */
  lemma StepBounds(p: nat, noise: seq<real>, amount: real, i: nat)
    requires i < p <= |noise| && UnitSamples(noise, amount)
    requires 0.0 <= AngleSum(p, noise, amount, i) < 180.0
    ensures var rest := 180.0 - AngleSum(p, noise, amount, i);
      0.0 <= StepAngle(p, noise, amount, i) <= rest / (p + 1 - i) as real <= rest / 2.0
  {
    var rest := 180.0 - AngleSum(p, noise, amount, i);
    var gaps := (p + 1 - i) as real;
    assert gaps >= 2.0;
    ShareBounds(rest, gaps, noise[i], amount);
    assert StepAngle(p, noise, amount, i) == rest / gaps * (1.0 - noise[i] * amount);
  }

  /** A share of rest split gaps >= 2 ways, shrunk by a factor in [0, 1]. */
  lemma ShareBounds(rest: real, gaps: real, sample: real, amount: real)
    requires 0.0 <= rest && gaps >= 2.0 && 0.0 <= sample <= 1.0 && 0.0 <= amount <= 1.0
    ensures 0.0 <= rest / gaps * (1.0 - sample * amount) <= rest / gaps <= rest / 2.0
  {
    var share := rest / gaps;
    var f := 1.0 - sample * amount;
    assert 0.0 <= sample * amount <= 1.0 by {
      assert sample * amount <= 1.0 * amount;
    }
    assert share * gaps == rest;
    assert 0.0 <= share;
    assert share * 2.0 <= share * gaps;
    assert share * f <= share * 1.0;
  }


  /** Without noise the points are evenly spaced: every step is 180 / (p + 1)
      and the first i steps sum to i times that. */
  lemma {:induction false} EvenSpacing(p: nat, noise: seq<real>, i: nat)
    requires i <= p <= |noise|
    ensures AngleSum(p, noise, 0.0, i) == i as real * (180.0 / (p + 1) as real)
    ensures i < p ==> StepAngle(p, noise, 0.0, i) == 180.0 / (p + 1) as real
  {
    var q := 180.0 / (p + 1) as real;
    if i > 0 {
      EvenSpacing(p, noise, i - 1);
      assert AngleSum(p, noise, 0.0, i) == AngleSum(p, noise, 0.0, i - 1) + StepAngle(p, noise, 0.0, i - 1);
      assert (i - 1) as real * q + q == i as real * q;
    }
    if i < p {
      EvenStep(p, noise, i);
    }
  }

  /** An even sum so far gives an even next step. */
  lemma EvenStep(p: nat, noise: seq<real>, i: nat)
    requires i < p <= |noise|
    requires AngleSum(p, noise, 0.0, i) == i as real * (180.0 / (p + 1) as real)
    ensures StepAngle(p, noise, 0.0, i) == 180.0 / (p + 1) as real
  {
    EvenShare((p + 1) as real, i as real);
    assert 1.0 - noise[i] * 0.0 == 1.0;
    assert (p + 1 - i) as real == (p + 1) as real - i as real;
  }

  /** What is left after i even shares of 180 / n, split n - i ways, is again
      a share of 180 / n. */
  lemma EvenShare(n: real, i: real)
    requires 0.0 <= i < n
    ensures (180.0 - i * (180.0 / n)) / (n - i) == 180.0 / n
  {
    var q := 180.0 / n;
    assert q * n == 180.0;
    assert 180.0 - i * q == q * (n - i);
  }

  // ---------------------------------------------------------------------------
  // The closed ring

  function NegateX(v: Vec2): Vec2 { Vec2(-v.x, v.y) }

  /** The unsplit ring of 2h points, h = |half| + 1: the half cross-section,
      the bottom point, the half mirrored in the y axis in reverse order,
      and the top point. */
  function UnsplitSection(half: seq<Vec2>, bottomLength: real, topLength: real): (r: seq<Vec2>)
    ensures |r| == 2 * (|half| + 1)
  {
    var h := |half| + 1;
    seq(2 * h, k requires 0 <= k < 2 * h =>
      if k < h - 1 then half[k]
      else if k == h - 1 then Vec2(0.0, -bottomLength)
      else if k < 2 * h - 1 then NegateX(half[2 * h - 2 - k])
      else Vec2(0.0, topLength))
  }

  /** The ring is symmetric: point j >= h mirrors point 2h - 2 - j, and the
      bottom and top points lie on the y axis at the sampled distances. */
  lemma UnsplitSymmetric(half: seq<Vec2>, bottomLength: real, topLength: real)
    ensures var r, h := UnsplitSection(half, bottomLength, topLength), |half| + 1;
      (forall j :: h <= j < 2 * h - 1 ==> r[j] == NegateX(r[2 * h - 2 - j])) &&
      r[h - 1] == Vec2(0.0, -bottomLength) && r[2 * h - 1] == Vec2(0.0, topLength)
  {
  }

  /** Closes the ring: appends the mirror image of the half cross-section in
      reverse order, then the top point at the sampled distance. */
  method CloseCrossSection(crossSection: List<Vec2>, ghost half: seq<Vec2>, ghost bottomLength: real, topLength: real)
    requires crossSection.elems == half + [Vec2(0.0, -bottomLength)]
    modifies crossSection
    ensures crossSection.elems == UnsplitSection(half, bottomLength, topLength)
  {
    var halfCrossSectionSize := crossSection.Count();
    for i := 0 to halfCrossSectionSize - 1
      invariant |crossSection.elems| == halfCrossSectionSize + i
      invariant forall k :: 0 <= k < halfCrossSectionSize + i ==>
                  crossSection.elems[k] == UnsplitSection(half, bottomLength, topLength)[k]
    {
      var point := crossSection.elems[halfCrossSectionSize - 2 - i];
      assert point == half[halfCrossSectionSize - 2 - i];
      point := point.(x := -point.x);
      crossSection.Add(point);
      UnsplitSymmetric(half, bottomLength, topLength);
    }
    // Top point.
    crossSection.Add(Scale2(Vec2(0.0, 1.0), topLength));
  }

  // ---------------------------------------------------------------------------
  // UV layout of the caps and the circumference

  /** The last index of the first cap's top edge, and of its right edge. */
  function TopRightIndex(h: int): int { (h - 2) / 4 }

  function BottomRightIndex(h: int): int { (h * 3 - 2) / 4 }

  lemma CornerOrder(h: int)
    requires h >= 2
    ensures 0 <= TopRightIndex(h) < BottomRightIndex(h) < h
  {
  }

  function MirrorU(uv: Vec2, c: real): Vec2 { Vec2(c - uv.x, uv.y) }

  /** UV i of the first cap's first half: along the top edge from
      (0.875, 0.25) to the top-right corner (1, 0.25), down the right edge to
      (1, 0), then left along the bottom edge towards (0.875, 0). */
  function HalfCapUv(h: int, i: int): Vec2
    requires h >= 2 && 0 <= i < h
  {
    var t, b := TopRightIndex(h), BottomRightIndex(h);
    if i < t then Vec2(Lerp(0.875, 1.0, (i + 1) as real / (t + 1) as real), 0.25)
    else if i == t then Vec2(1.0, 0.25)
    else if i < b then Vec2(1.0, Lerp(0.25, 0.0, (i - t) as real / (b - t) as real))
    else if i == b then Vec2(1.0, 0.0)
    else Vec2(Lerp(1.0, 0.875, (i - b) as real / (h - b - 1) as real), 0.0)
  }

  /** UV k of the first cap: the first half, then its mirror image about
      u = 0.875 in reverse order, closed by one more UV on the top edge. */
  function CapUv(h: int, k: int): Vec2
    requires h >= 2 && 0 <= k < 2 * h
  {
    if k < h then HalfCapUv(h, k)
    else if h == 2 then (if k == 2 then Vec2(0.75, 0.0) else MirrorU(HalfCapUv(h, 0), 1.75))
    else if k < 2 * h - 1 then MirrorU(HalfCapUv(h, 2 * h - 2 - k), 1.75)
    else Vec2(HalfCapUv(h, h - 1).x, 0.25)
  }

  /** UV i of the circumference's first half: the whole ring is unrolled
      along v = 0.25, running past u = 1 where the cap turns its corners. */
  function HalfCircumferenceUv(h: int, i: int): Vec2
    requires h >= 2 && 0 <= i < h
  {
    var t, b := TopRightIndex(h), BottomRightIndex(h);
    if i < t then Vec2(Lerp(0.875, 1.0, (i + 1) as real / (t + 1) as real), 0.25)
    else if i == t then Vec2(1.0, 0.25)
    else if i < b then Vec2(Lerp(1.0, 1.25, (i - t) as real / (b - t) as real), 0.25)
    else if i == b then Vec2(1.25, 0.25)
    else Vec2(Lerp(1.25, 1.375, (i - b) as real / (h - b - 1) as real), 0.25)
  }

  function CircumferenceUv(h: int, k: int): Vec2
    requires h >= 2 && 0 <= k < 2 * h
  {
    if k < h then HalfCircumferenceUv(h, k)
    else if h == 2 then (if k == 2 then Vec2(1.5, 0.25) else MirrorU(HalfCircumferenceUv(h, 0), 2.75))
    else if k < 2 * h - 1 then MirrorU(HalfCircumferenceUv(h, 2 * h - 2 - k), 2.75)
    else Vec2(1.875, 0.25)
  }

  /** The 4h UVs computed before the ring is split: cap, then circumference. */
  function SectionUv(h: int, k: int): Vec2
    requires h >= 2 && 0 <= k < 4 * h
  {
    if k < 2 * h then CapUv(h, k) else CircumferenceUv(h, k - 2 * h)
  }

  function CapUvs(h: int): (r: seq<Vec2>)
    requires h >= 2
    ensures |r| == 2 * h
  {
    seq(2 * h, k requires 0 <= k < 2 * h => CapUv(h, k))
  }

  function CircumferenceUvs(h: int): (r: seq<Vec2>)
    requires h >= 2
    ensures |r| == 2 * h
  {
    seq(2 * h, k requires 0 <= k < 2 * h => CircumferenceUv(h, k))
  }

  /** Every cap UV lies in the quarter [0.75, 1] x [0, 0.25] of the texture,
      and the first half's corners sit where the cap turns. */
  lemma CapUvsInQuarter(h: int)
    requires h >= 2
    ensures forall k :: 0 <= k < 2 * h ==>
      0.75 <= CapUv(h, k).x <= 1.0 && 0.0 <= CapUv(h, k).y <= 0.25
    ensures CapUv(h, TopRightIndex(h)) == Vec2(1.0, 0.25) && CapUv(h, BottomRightIndex(h)) == Vec2(1.0, 0.0)
  {
    CornerOrder(h);
    forall i | 0 <= i < h
      ensures 0.875 <= HalfCapUv(h, i).x <= 1.0 && 0.0 <= HalfCapUv(h, i).y <= 0.25
    {
      HalfCapUvBounds(h, i);
    }
  }

  lemma HalfCapUvBounds(h: int, i: int)
    requires h >= 2 && 0 <= i < h
    ensures 0.875 <= HalfCapUv(h, i).x <= 1.0 && 0.0 <= HalfCapUv(h, i).y <= 0.25
  {
    var t, b := TopRightIndex(h), BottomRightIndex(h);
    CornerOrder(h);
    if i < t {
      LerpBetween(0.875, 1.0, (i + 1) as real / (t + 1) as real);
    } else if t < i < b {
      LerpBetween(0.25, 0.0, (i - t) as real / (b - t) as real);
    } else if b < i {
      LerpBetween(1.0, 0.875, (i - b) as real / (h - b - 1) as real);
    }
  }

  /** Every circumference UV lies on v = 0.25, between u = 0.875 and u = 1.875. */
  lemma CircumferenceUvsOnRow(h: int)
    requires h >= 2
    ensures forall k :: 0 <= k < 2 * h ==>
      CircumferenceUv(h, k).y == 0.25 && 0.875 <= CircumferenceUv(h, k).x <= 1.875
  {
    CornerOrder(h);
    forall i | 0 <= i < h
      ensures HalfCircumferenceUv(h, i).y == 0.25 && 0.875 <= HalfCircumferenceUv(h, i).x <= 1.375
    {
      var t, b := TopRightIndex(h), BottomRightIndex(h);
      if i < t {
        LerpBetween(0.875, 1.0, (i + 1) as real / (t + 1) as real);
      } else if t < i < b {
        LerpBetween(1.0, 1.25, (i - t) as real / (b - t) as real);
      } else if b < i {
        LerpBetween(1.25, 1.375, (i - b) as real / (h - b - 1) as real);
      }
    }
  }

  /** Lerp stays between its end points. */
  lemma LerpBetween(a: real, b: real, t: real)
    ensures MinReal(a, b) <= Lerp(a, b, t) <= MaxReal(a, b)
  {
    var c := if t < 0.0 then 0.0 else if t > 1.0 then 1.0 else t;
    if a <= b {
      MulNonNegative(b - a, c);
      MulNonNegative(b - a, 1.0 - c);
    } else {
      MulNonNegative(a - b, c);
      MulNonNegative(a - b, 1.0 - c);
    }
  }

  lemma MulNonNegative(x: real, y: real)
    requires 0.0 <= x && 0.0 <= y
    ensures 0.0 <= x * y
  {
  }

  /** The UV list holds the first |s| section UVs. */
  ghost predicate UvPrefix(s: seq<Vec2>, h: int)
    requires h >= 2
  {
    |s| <= 4 * h && forall k :: 0 <= k < |s| ==> s[k] == SectionUv(h, k)
  }

  method PushUv(uvs: List<Vec2>, h: int, uv: Vec2)
    requires h >= 2 && UvPrefix(uvs.elems, h) && |uvs.elems| < 4 * h
    requires uv == SectionUv(h, |uvs.elems|)
    modifies uvs
    ensures uvs.elems == old(uvs.elems) + [uv] && UvPrefix(uvs.elems, h)
  {
    uvs.Add(uv);
  }

  /** The first cap's UVs: the first half along the top, right and bottom
      edges of the cap's quarter of the texture, then its mirror image. */
  method AddCapUvs(uvs: List<Vec2>, h: int)
    requires h >= 2 && uvs.elems == []
    modifies uvs
    ensures |uvs.elems| == 2 * h && UvPrefix(uvs.elems, h)
  {
    var topRightIndex, bottomRightIndex := (h - 2) / 4, (h * 3 - 2) / 4;
    CornerOrder(h);
    AddTopEdgeUvs(uvs, h, topRightIndex);
    AddRightEdgeUvs(uvs, h, topRightIndex, bottomRightIndex);
    AddBottomEdgeUvs(uvs, h, bottomRightIndex);
    AddCapMirrorUvs(uvs, h);
  }

  /** The first cap's top edge up to and including the top-right corner. */
  method AddTopEdgeUvs(uvs: List<Vec2>, h: int, topRightIndex: int)
    requires h >= 2 && uvs.elems == [] && topRightIndex == TopRightIndex(h)
    modifies uvs
    ensures |uvs.elems| == topRightIndex + 1 && UvPrefix(uvs.elems, h)
  {
    CornerOrder(h);
    for i := 0 to topRightIndex
      invariant |uvs.elems| == i && UvPrefix(uvs.elems, h)
    {
      PushUv(uvs, h, Vec2(Lerp(0.875, 1.0, (i as real + 1.0) / (topRightIndex as real + 1.0)), 0.25));
    }
    // Top right.
    PushUv(uvs, h, Vec2(1.0, 0.25));
  }

  /** The first cap's right edge down to and including the bottom-right corner. */
  method AddRightEdgeUvs(uvs: List<Vec2>, h: int, topRightIndex: int, bottomRightIndex: int)
    requires h >= 2 && topRightIndex == TopRightIndex(h) && bottomRightIndex == BottomRightIndex(h)
    requires |uvs.elems| == topRightIndex + 1 && UvPrefix(uvs.elems, h)
    modifies uvs
    ensures |uvs.elems| == bottomRightIndex + 1 && UvPrefix(uvs.elems, h)
  {
    CornerOrder(h);
    for i := topRightIndex + 1 to bottomRightIndex
      invariant |uvs.elems| == i && UvPrefix(uvs.elems, h)
    {
      PushUv(uvs, h, Vec2(1.0, Lerp(0.25, 0.0, (i - topRightIndex) as real / (bottomRightIndex - topRightIndex) as real)));
    }
    // Bottom right.
    PushUv(uvs, h, Vec2(1.0, 0.0));
  }

  /** The first cap's bottom edge, left of the bottom-right corner. */
  method AddBottomEdgeUvs(uvs: List<Vec2>, h: int, bottomRightIndex: int)
    requires h >= 2 && bottomRightIndex == BottomRightIndex(h)
    requires |uvs.elems| == bottomRightIndex + 1 && UvPrefix(uvs.elems, h)
    modifies uvs
    ensures |uvs.elems| == h && UvPrefix(uvs.elems, h)
  {
    CornerOrder(h);
    for i := bottomRightIndex + 1 to h
      invariant |uvs.elems| == i && UvPrefix(uvs.elems, h)
    {
      PushUv(uvs, h, Vec2(Lerp(1.0, 0.875, (i - bottomRightIndex) as real / (h as real - bottomRightIndex as real - 1.0)), 0.0));
    }
  }

  /** The first cap's other half: the mirror image about u = 0.875. */
  method AddCapMirrorUvs(uvs: List<Vec2>, h: int)
    requires h >= 2 && |uvs.elems| == h && UvPrefix(uvs.elems, h)
    modifies uvs
    ensures |uvs.elems| == 2 * h && UvPrefix(uvs.elems, h)
  {
    if h == 2 {
      PushUv(uvs, h, Vec2(0.75, 0.0));
    }
    var i := h - 2;
    while i >= 0
      invariant -1 <= i <= h - 2
      invariant |uvs.elems| == (if h == 2 then h + 1 else h) + (h - 2 - i) && UvPrefix(uvs.elems, h)
    {
      var uv := uvs.elems[i];
      uv := uv.(x := 0.75 + 1.0 - uv.x);
      PushUv(uvs, h, uv);
      i := i - 1;
    }
    if h != 2 {
      var uv := uvs.elems[h - 1];
      uv := uv.(y := 0.25);
      PushUv(uvs, h, uv);
    }
  }

  /** The circumference's UVs: the first half unrolled along v = 0.25, then
      its mirror image. */
  method AddCircumferenceUvs(uvs: List<Vec2>, h: int)
    requires h >= 2 && |uvs.elems| == 2 * h && UvPrefix(uvs.elems, h)
    modifies uvs
    ensures |uvs.elems| == 4 * h && UvPrefix(uvs.elems, h)
  {
    var topRightIndex, bottomRightIndex := (h - 2) / 4, (h * 3 - 2) / 4;
    CornerOrder(h);
    AddRingTopUvs(uvs, h, topRightIndex);
    AddRingSideUvs(uvs, h, topRightIndex, bottomRightIndex);
    AddRingBottomUvs(uvs, h, bottomRightIndex);
    AddCircumferenceMirrorUvs(uvs, h);
  }

  /** The ring's UVs up to and including the top-right corner. */
  method AddRingTopUvs(uvs: List<Vec2>, h: int, topRightIndex: int)
    requires h >= 2 && topRightIndex == TopRightIndex(h)
    requires |uvs.elems| == 2 * h && UvPrefix(uvs.elems, h)
    modifies uvs
    ensures |uvs.elems| == 2 * h + topRightIndex + 1 && UvPrefix(uvs.elems, h)
  {
    CornerOrder(h);
    for i := 0 to topRightIndex
      invariant |uvs.elems| == 2 * h + i && UvPrefix(uvs.elems, h)
    {
      PushUv(uvs, h, Vec2(Lerp(0.875, 1.0, (i as real + 1.0) / (topRightIndex as real + 1.0)), 0.25));
    }
    // Top right.
    PushUv(uvs, h, Vec2(1.0, 0.25));
  }

  /** The ring's UVs from the top-right to the bottom-right corner. They run
      on past u = 1 in case the top-right vertex is not a hard edge. */
  method AddRingSideUvs(uvs: List<Vec2>, h: int, topRightIndex: int, bottomRightIndex: int)
    requires h >= 2 && topRightIndex == TopRightIndex(h) && bottomRightIndex == BottomRightIndex(h)
    requires |uvs.elems| == 2 * h + topRightIndex + 1 && UvPrefix(uvs.elems, h)
    modifies uvs
    ensures |uvs.elems| == 2 * h + bottomRightIndex + 1 && UvPrefix(uvs.elems, h)
  {
    CornerOrder(h);
    for i := topRightIndex + 1 to bottomRightIndex
      invariant |uvs.elems| == 2 * h + i && UvPrefix(uvs.elems, h)
    {
      PushUv(uvs, h, Vec2(Lerp(1.0, 1.25, (i - topRightIndex) as real / (bottomRightIndex - topRightIndex) as real), 0.25));
    }
    // Bottom right.
    PushUv(uvs, h, Vec2(1.25, 0.25));
  }

  /** The ring's UVs after the bottom-right corner. */
  method AddRingBottomUvs(uvs: List<Vec2>, h: int, bottomRightIndex: int)
    requires h >= 2 && bottomRightIndex == BottomRightIndex(h)
    requires |uvs.elems| == 2 * h + bottomRightIndex + 1 && UvPrefix(uvs.elems, h)
    modifies uvs
    ensures |uvs.elems| == 3 * h && UvPrefix(uvs.elems, h)
  {
    CornerOrder(h);
    for i := bottomRightIndex + 1 to h
      invariant |uvs.elems| == 2 * h + i && UvPrefix(uvs.elems, h)
    {
      PushUv(uvs, h, Vec2(Lerp(1.25, 1.375, (i - bottomRightIndex) as real / (h as real - bottomRightIndex as real - 1.0)), 0.25));
    }
  }

  /** The circumference's other half: the mirror image about u = 1.375. */
  method AddCircumferenceMirrorUvs(uvs: List<Vec2>, h: int)
    requires h >= 2 && |uvs.elems| == 3 * h && UvPrefix(uvs.elems, h)
    modifies uvs
    ensures |uvs.elems| == 4 * h && UvPrefix(uvs.elems, h)
  {
    if h == 2 {
      PushUv(uvs, h, Vec2(1.5, 0.25));
    }
    var i := h * 3 - 2;
    while i >= h * 2
      invariant 2 * h - 1 <= i <= 3 * h - 2
      invariant |uvs.elems| == (if h == 2 then 3 * h + 1 else 3 * h) + (3 * h - 2 - i) && UvPrefix(uvs.elems, h)
    {
      var uv := uvs.elems[i];
      uv := uv.(x := 2.75 - uv.x);
      PushUv(uvs, h, uv);
      i := i - 1;
    }
    if h != 2 {
      PushUv(uvs, h, Vec2(1.875, 0.25));
    }
  }

  /** The 4h section UVs, once all are present, are the cap UVs followed by
      the circumference UVs. */
  lemma SectionUvsComplete(s: seq<Vec2>, h: int)
    requires h >= 2 && |s| == 4 * h && UvPrefix(s, h)
    ensures s == CapUvs(h) + CircumferenceUvs(h)
  {
  }

  // ---------------------------------------------------------------------------
  // Hard edges and the split ring

  /** The hard-edge list: the ring's sharp corners, with index 0 put in front
      when it is not one of them, so the UVs can wrap there. */
  function HardEdges(unsplit: seq<Vec2>, threshold: real, angle: AngleBetween): seq<int> {
    var splits := SharpCorners(unsplit, threshold, angle);
    if 0 in splits then splits else [0] + splits
  }

  /** Index 0 always comes first; the list is strictly increasing, inside the
      ring, and marks any other index exactly when it is a sharp corner. */
  lemma HardEdgesSpec(unsplit: seq<Vec2>, threshold: real, angle: AngleBetween)
    requires |unsplit| > 0
    ensures var e := HardEdges(unsplit, threshold, angle);
      |e| > 0 && e[0] == 0 && StrictlyIncreasing(e) && Within(e, 0, |unsplit|) &&
      forall i :: 0 < i < |unsplit| ==> (i in e <==> IsSharpCorner(unsplit, i, threshold, angle))
  {
    var s := SharpCorners(unsplit, threshold, angle);
    SharpCornersSpec(unsplit, threshold, angle);
    if 0 in s {
      ZeroFirst(s, |unsplit|);
    } else {
      PrependZero(s, |unsplit|);
    }
  }

  // ---------------------------------------------------------------------------
  // The mesh

  /** Vertex k of the mesh: the near cap (the unsplit ring at z = -MAX_RADIUS),
      the near and far circumference rings (the split ring at both ends), and
      the far cap (the unsplit ring at z = +MAX_RADIUS). */
  function CylinderPoint(unsplit: seq<Vec2>, split: seq<Vec2>, k: int): Vec3
    requires 0 <= k < 2 * |unsplit| + 2 * |split|
  {
    var u, c := |unsplit|, |split|;
    if k < u then Lift(unsplit[k], -MAX_RADIUS)
    else if k < u + c then Lift(split[k - u], -MAX_RADIUS)
    else if k < u + 2 * c then Lift(split[k - u - c], MAX_RADIUS)
    else Lift(unsplit[k - u - 2 * c], MAX_RADIUS)
  }

  function CylinderPoints(unsplit: seq<Vec2>, split: seq<Vec2>): (r: seq<Vec3>)
    ensures |r| == 2 * |unsplit| + 2 * |split|
  {
    seq(2 * |unsplit| + 2 * |split|, k requires 0 <= k < 2 * |unsplit| + 2 * |split| => CylinderPoint(unsplit, split, k))
  }

  /** Slot r of the two triangles joining split point s and the next one
      around the ring, between the near ring (from u) and the far ring (from
      u + c). */
  function QuadSlot(s: int, r: int, u: int, c: int): int
    requires 0 <= r < 6 && c > 0
  {
    var i := s + u;
    var next := (s + 1) % c + u;
    [i, i + c, next, next, i + c, next + c][r]
  }

  /** Triangle slot k: the near cap's triangulation, one quad per point of
      the split ring that is not the first of a duplicated pair, and the cap
      triangulation again shifted onto the far cap's vertices. */
  function CylinderTriangle(cap: seq<int>, kept: seq<int>, u: int, c: int, k: int): int
    requires c > 0 && 0 <= k < 2 * |cap| + 6 * |kept|
  {
    var n := |cap|;
    if k < n then cap[k]
    else if k < n + 6 * |kept| then QuadSlot(kept[(k - n) / 6], (k - n) % 6, u, c)
    else cap[k - n - 6 * |kept|] + 2 * c + u
  }

  function CylinderTriangles(cap: seq<int>, kept: seq<int>, u: int, c: int): (r: seq<int>)
    requires c > 0
    ensures |r| == 2 * |cap| + 6 * |kept|
  {
    seq(2 * |cap| + 6 * |kept|, k requires 0 <= k < 2 * |cap| + 6 * |kept| => CylinderTriangle(cap, kept, u, c, k))
  }

  /** The six slots of quad m. */
  lemma QuadAt(cap: seq<int>, kept: seq<int>, u: int, c: int, m: int)
    requires c > 0 && 0 <= m < |kept|
    ensures forall r :: 0 <= r < 6 ==>
      CylinderTriangle(cap, kept, u, c, |cap| + 6 * m + r) == QuadSlot(kept[m], r, u, c)
  {
    forall r | 0 <= r < 6
      ensures CylinderTriangle(cap, kept, u, c, |cap| + 6 * m + r) == QuadSlot(kept[m], r, u, c)
    {
      DivMod(m, r, 6);
    }
  }

  /** A UV moved one unit right, where the texture wraps. */
  function Wrapped(uv: Vec2): Vec2 { Vec2(uv.x + 1.0, uv.y) }

  /** The first of the split UVs moves one unit right, so the texture wraps
      from the ring's last quad back to its first. */
  function WrapFirst(s: seq<Vec2>): seq<Vec2>
    requires |s| > 0
  {
    [Wrapped(s[0])] + s[1..]
  }

  /** The circumference UVs with the hard edges duplicated and index 0 wrapped. */
  function SplitUvs(h: int, edges: seq<int>): seq<Vec2>
    requires h >= 2
  {
    WrapFirst(Expand(CircumferenceUvs(h), edges))
  }

  /** UV k of the mesh: the near cap, the near circumference ring (w), the far
      ring (w moved to v = 0.75), and the far cap (flipped vertically). */
  function CylinderUv(h: int, w: seq<Vec2>, k: int): Vec2
    requires h >= 2 && 0 <= k < 4 * h + 2 * |w|
  {
    var c := |w|;
    if k < 2 * h then CapUv(h, k)
    else if k < 2 * h + c then w[k - 2 * h]
    else if k < 2 * h + 2 * c then WithY2(w[k - 2 * h - c], 0.75)
    else WithY2(CapUv(h, k - 2 * h - 2 * c), 1.0 - CapUv(h, k - 2 * h - 2 * c).y)
  }

  function CylinderUvs(h: int, w: seq<Vec2>): (r: seq<Vec2>)
    requires h >= 2
    ensures |r| == 4 * h + 2 * |w|
  {
    seq(4 * h + 2 * |w|, k requires 0 <= k < 4 * h + 2 * |w| => CylinderUv(h, w, k))
  }

  // ---------------------------------------------------------------------------
  // Assembly steps

  /** Duplicates the circumference UV of every hard edge in place, from the
      highest index down; the copy for index 0 is moved one unit right. */
  method InsertHardEdgeUvs(uvs: List<Vec2>, hardEdgeIndices: seq<int>, h: int, ghost cap: seq<Vec2>, ghost circ: seq<Vec2>)
    requires h >= 1 && |cap| == 2 * h && |circ| == 2 * h && uvs.elems == cap + circ && 0 in hardEdgeIndices
    modifies uvs
    ensures uvs.elems == cap + WrapFirst(Expand(circ, hardEdgeIndices))
  {
    ghost var w := Wrapped(circ[0]);
    UvsDuringEnds(cap, circ, hardEdgeIndices, w);
    var i := h * 2 - 1;
    while i >= 0
      invariant -1 <= i < 2 * h
      invariant uvs.elems == UvsDuring(cap, circ, hardEdgeIndices, i, w)
    {
      if i in hardEdgeIndices {
        DuplicateUv(uvs, i, h, cap, circ, hardEdgeIndices, w);
      } else if i > 0 {
        UvKept(cap, circ, hardEdgeIndices, i, w);
      }
      i := i - 1;
    }
    ExpandFirst(circ, hardEdgeIndices);
  }

  /** The body of InsertHardEdgeUvs at a hard edge i: the UV of circumference
      point i is inserted again in front of itself, one unit right for i = 0. */
  method DuplicateUv(uvs: List<Vec2>, i: int, h: int, ghost cap: seq<Vec2>, ghost circ: seq<Vec2>,
                     ghost e: seq<int>, ghost w: Vec2)
    requires 0 <= i < |circ| && i in e && |cap| == h * 2 && w == Wrapped(circ[0])
    requires uvs.elems == UvsDuring(cap, circ, e, i, w)
    modifies uvs
    ensures uvs.elems == UvsDuring(cap, circ, e, i - 1, w)
  {
    ghost var before := uvs.elems;
    UvDuplicated(cap, circ, e, i, w);
    var uv := uvs.elems[i + h * 2];
    if i == 0 {
      // Wrap the UVs at the end.
      uv := uv.(x := uv.x + 1.0);
    }
    uvs.Insert(i + h * 2, uv);
    UvInserted(cap, circ, e, i, w, before, i + h * 2, uv, uvs.elems);
  }

  /** The list after DuplicateUv's insertion is the one of the next step. */
  lemma UvInserted<T>(cap: seq<T>, circ: seq<T>, e: seq<int>, i: int, w: T, before: seq<T>, at: int, x: T, after: seq<T>)
    requires 0 <= i < |circ| && i in e && at == |cap| + i
    requires before == UvsDuring(cap, circ, e, i, w) && at <= |before|
    requires x == if i == 0 then w else circ[i]
    requires after == before[..at] + [x] + before[at..]
    ensures after == UvsDuring(cap, circ, e, i - 1, w)
  {
    UvDuplicated(cap, circ, e, i, w);
  }

  /** What InsertHardEdgeUvs has yet to leave in place from index i on: the
      expanded suffix, its first entry replaced by w once i reaches 0. */
  ghost function Pending<T>(circ: seq<T>, e: seq<int>, i: int, w: T): seq<T>
    requires 0 <= i <= |circ| && |circ| > 0
  {
    if i == 0 then [w] + Expand(circ, e)[1..] else ExpandFrom(circ, e, i)
  }

  /** The UV list while InsertHardEdgeUvs is at index i: the indices above i
      are done, the ones up to i untouched. */
  ghost function UvsDuring<T>(cap: seq<T>, circ: seq<T>, e: seq<int>, i: int, w: T): seq<T>
    requires 0 < |circ| && -1 <= i < |circ|
  {
    cap + circ[..i + 1] + Pending(circ, e, i + 1, w)
  }

  /** A step of InsertHardEdgeUvs at an index i that is not a hard edge. */
  lemma UvKept<T>(cap: seq<T>, circ: seq<T>, e: seq<int>, i: int, w: T)
    requires 0 < i < |circ| && i !in e
    ensures UvsDuring(cap, circ, e, i, w) == UvsDuring(cap, circ, e, i - 1, w)
  {
    assert circ[..i + 1] == circ[..i] + [circ[i]];
  }

  /** A step of InsertHardEdgeUvs at a hard edge i: the entry at |cap| + i is
      circ[i], and inserting its copy (w when i is 0) in front of it gives
      the list of the next step. */
  lemma UvDuplicated<T>(cap: seq<T>, circ: seq<T>, e: seq<int>, i: int, w: T)
    requires 0 <= i < |circ| && i in e
    ensures var before, at := UvsDuring(cap, circ, e, i, w), |cap| + i;
      at < |before| && before[at] == circ[i] &&
      before[..at] + [if i == 0 then w else circ[i]] + before[at..] == UvsDuring(cap, circ, e, i - 1, w)
  {
    var x, rest := circ[i], ExpandFrom(circ, e, i + 1);
    var front := cap + circ[..i];
    UvsDuringAt(cap, circ, e, i, w);
    PendingDuplicated(circ, e, i, w);
    InsertStep(UvsDuring(cap, circ, e, i, w), UvsDuring(cap, circ, e, i - 1, w), front, x, rest,
               if i == 0 then w else x);
  }

  /** Around index i the list is the untouched front, circ[i] and the done
      suffix; one step later the front is followed by what is pending at i. */
  lemma UvsDuringAt<T>(cap: seq<T>, circ: seq<T>, e: seq<int>, i: int, w: T)
    requires 0 <= i < |circ|
    ensures UvsDuring(cap, circ, e, i, w) == cap + circ[..i] + [circ[i]] + ExpandFrom(circ, e, i + 1)
    ensures UvsDuring(cap, circ, e, i - 1, w) == cap + circ[..i] + Pending(circ, e, i, w)
  {
    assert circ[..i + 1] == circ[..i] + [circ[i]];
  }

  /** At a hard edge the pending entries start with the copy (w at index 0). */
  lemma PendingDuplicated<T>(circ: seq<T>, e: seq<int>, i: int, w: T)
    requires 0 <= i < |circ| && i in e
    ensures Pending(circ, e, i, w) == [if i == 0 then w else circ[i]] + [circ[i]] + ExpandFrom(circ, e, i + 1)
  {
    var x, rest := circ[i], ExpandFrom(circ, e, i + 1);
    var ex := ExpandFrom(circ, e, i);
    assert ex == [x, x] + rest;
    if i == 0 {
      assert Pending(circ, e, i, w) == [w] + ex[1..];
      assert ex[1..] == [x] + rest;
    } else {
      assert Pending(circ, e, i, w) == ex;
    }
  }

  /** Inserting w at |a| in a + [x] + r gives a + ([w] + [x] + r). */
  lemma InsertStep<T>(s: seq<T>, t: seq<T>, a: seq<T>, x: T, r: seq<T>, w: T)
    requires s == a + [x] + r && t == a + ([w] + [x] + r)
    ensures |a| < |s| && s[|a|] == x && s[..|a|] + [w] + s[|a|..] == t
  {
    assert s[..|a|] == a;
    assert s[|a|..] == [x] + r;
  }

  /** Before the first step the list is the cap and circumference UVs;
      after the last it is the cap UVs and the split ones, the first
      replaced by w. */
  lemma UvsDuringEnds<T>(cap: seq<T>, circ: seq<T>, e: seq<int>, w: T)
    requires |circ| > 0
    ensures UvsDuring(cap, circ, e, |circ| - 1, w) == cap + circ
    ensures UvsDuring(cap, circ, e, -1, w) == cap + ([w] + Expand(circ, e)[1..])
  {
    assert circ[..|circ|] == circ;
  }

  /** Appends the far ring's UVs (v = 0.75) and the far cap's (flipped). */
  method AddFarUvs(uvs: List<Vec2>, h: int, ghost w: seq<Vec2>)
    requires h >= 2 && uvs.elems == CapUvs(h) + w
    modifies uvs
    ensures uvs.elems == CylinderUvs(h, w)
  {
    var uvsCount := uvs.Count();
    for i := h * 2 to uvsCount
      invariant |uvs.elems| == uvsCount + i - 2 * h
      invariant forall k :: 0 <= k < |uvs.elems| ==> uvs.elems[k] == CylinderUv(h, w, k)
    {
      var uv := uvs.elems[i];
      uv := uv.(y := 0.75);
      uvs.Add(uv);
    }
    for i := 0 to h * 2
      invariant |uvs.elems| == 2 * uvsCount - 2 * h + i
      invariant forall k :: 0 <= k < |uvs.elems| ==> uvs.elems[k] == CylinderUv(h, w, k)
    {
      var uv := uvs.elems[i];
      uv := uv.(y := 1.0 - uv.y);
      uvs.Add(uv);
    }
  }

  /** Writes both caps' vertices: the unsplit ring at each end. */
  method FillCapPoints(points: array<Vec3>, unsplitCrossSection: seq<Vec2>, ghost split: seq<Vec2>)
    requires points.Length == 2 * |unsplitCrossSection| + 2 * |split|
    modifies points
    ensures forall k :: 0 <= k < |unsplitCrossSection| || |unsplitCrossSection| + 2 * |split| <= k < points.Length ==>
              points[k] == CylinderPoint(unsplitCrossSection, split, k)
    ensures forall k :: |unsplitCrossSection| <= k < |unsplitCrossSection| + 2 * |split| ==> points[k] == old(points[k])
  {
    var u := |unsplitCrossSection|;
    var farCapIndexOffset := points.Length - u;
    for i := 0 to u
      invariant forall k :: 0 <= k < i || farCapIndexOffset <= k < farCapIndexOffset + i ==>
                  points[k] == CylinderPoint(unsplitCrossSection, split, k)
      invariant forall k :: i <= k < farCapIndexOffset || farCapIndexOffset + i <= k < points.Length ==>
                  points[k] == old(points[k])
    {
      var point := Lift(unsplitCrossSection[i], 0.0);
      point := point.(z := -MAX_RADIUS);
      points[i] := point;
      point := point.(z := MAX_RADIUS);
      points[i + farCapIndexOffset] := point;
    }
  }

  /** hardEdgeIndices[i] += i for every i. */
  method ShiftHardEdges(hardEdgeIndices: List<int>)
    modifies hardEdgeIndices
    ensures hardEdgeIndices.elems == Shifted(old(hardEdgeIndices.elems))
  {
    for i := 0 to hardEdgeIndices.Count()
      invariant |hardEdgeIndices.elems| == |old(hardEdgeIndices.elems)|
      invariant forall k :: 0 <= k < i ==> hardEdgeIndices.elems[k] == old(hardEdgeIndices.elems[k]) + k
      invariant forall k :: i <= k < |hardEdgeIndices.elems| ==> hardEdgeIndices.elems[k] == old(hardEdgeIndices.elems[k])
    {
      hardEdgeIndices.Set(i, hardEdgeIndices.elems[i] + i);
    }
  }

  /** The rings' points below split index i - u are written, the rest of the
      vertex array is as it was (orig). */
  ghost predicate RingsFilled(pts: seq<Vec3>, orig: seq<Vec3>, unsplit: seq<Vec2>, split: seq<Vec2>, i: int)
    requires |pts| == |orig| == 2 * |unsplit| + 2 * |split|
  {
    var u, c := |unsplit|, |split|;
    u <= i <= u + c &&
    (forall k :: u <= k < i || u + c <= k < i + c ==> pts[k] == CylinderPoint(unsplit, split, k)) &&
    (forall k :: 0 <= k < u || i <= k < u + c || i + c <= k < |pts| ==> pts[k] == orig[k])
  }

  lemma RingsStep(pts: seq<Vec3>, orig: seq<Vec3>, unsplit: seq<Vec2>, split: seq<Vec2>, i: int)
    requires |pts| == |orig| == 2 * |unsplit| + 2 * |split| && i < |unsplit| + |split|
    requires RingsFilled(pts, orig, unsplit, split, i)
    ensures var xy := split[i - |unsplit|];
      RingsFilled(pts[i := Lift(xy, -MAX_RADIUS)][i + |split| := Lift(xy, MAX_RADIUS)], orig, unsplit, split, i + 1)
  {
  }

  /** The first t slots of the quads are written, the rest of the triangle
      array is as it was (orig). */
  ghost predicate QuadsFilled(ts: seq<int>, orig: seq<int>, cap: seq<int>, kept: seq<int>, u: int, c: int, t: int)
    requires c > 0 && |ts| == |orig| == 2 * |cap| + 6 * |kept|
  {
    0 <= t <= 6 * |kept| &&
    (forall k :: |cap| <= k < |cap| + t ==> ts[k] == CylinderTriangle(cap, kept, u, c, k)) &&
    (forall k :: 0 <= k < |cap| || |cap| + t <= k < |ts| ==> ts[k] == orig[k])
  }

  lemma QuadsStep(ts: seq<int>, ts': seq<int>, orig: seq<int>, cap: seq<int>, kept: seq<int>, u: int, c: int, m: int)
    requires c > 0 && |ts| == |ts'| == |orig| == 2 * |cap| + 6 * |kept| && 0 <= m < |kept|
    requires QuadsFilled(ts, orig, cap, kept, u, c, 6 * m)
    requires var i, next := kept[m] + u, (kept[m] + 1) % c + u;
      ts'[|cap| + 6 * m..|cap| + 6 * m + 6] == [i, i + c, next, next, i + c, next + c]
    requires forall k :: 0 <= k < |cap| + 6 * m || |cap| + 6 * m + 6 <= k < |ts| ==> ts'[k] == ts[k]
    ensures QuadsFilled(ts', orig, cap, kept, u, c, 6 * m + 6)
  {
    QuadWritten(ts', cap, kept, u, c, m);
  }

  /** The six slots written for quad m hold what the mesh has there. */
  lemma QuadWritten(ts: seq<int>, cap: seq<int>, kept: seq<int>, u: int, c: int, m: int)
    requires c > 0 && 0 <= m < |kept| && |cap| + 6 * m + 6 <= |ts|
    requires var i, next := kept[m] + u, (kept[m] + 1) % c + u;
      ts[|cap| + 6 * m..|cap| + 6 * m + 6] == [i, i + c, next, next, i + c, next + c]
    ensures forall k :: |cap| + 6 * m <= k < |cap| + 6 * m + 6 ==> ts[k] == CylinderTriangle(cap, kept, u, c, k)
  {
    QuadAt(cap, kept, u, c, m);
    var at := |cap| + 6 * m;
    forall k | at <= k < at + 6
      ensures ts[k] == CylinderTriangle(cap, kept, u, c, k)
    {
      assert ts[k] == ts[at..at + 6][k - at];
      assert k == |cap| + 6 * m + (k - at);
    }
  }

  /** Writes the two circumference rings and, for every split point that is
      not the first of a duplicated pair, the quad to the next point. */
  method FillCircumference(points: array<Vec3>, triangles: array<int>, crossSection: seq<Vec2>,
                           hardEdgeIndices: seq<int>, unsplit: seq<Vec2>, cap: seq<int>)
    requires |crossSection| > 0 && points.Length == 2 * |unsplit| + 2 * |crossSection|
    requires |Kept(hardEdgeIndices, |crossSection|)| == |unsplit|
    requires triangles.Length == 2 * |cap| + 6 * |unsplit|
    modifies points, triangles
    ensures RingsFilled(points[..], old(points[..]), unsplit, crossSection, |unsplit| + |crossSection|)
    ensures QuadsFilled(triangles[..], old(triangles[..]), cap, Kept(hardEdgeIndices, |crossSection|),
                        |unsplit|, |crossSection|, 6 * |unsplit|)
  {
    var u, c := |unsplit|, |crossSection|;
    ghost var kept := Kept(hardEdgeIndices, c);
    ghost var points0, triangles0 := points[..], triangles[..];
    var i, trianglesIndex := u, 0;
    while i < c + u
      invariant u <= i <= c + u
      invariant trianglesIndex == 6 * |Kept(hardEdgeIndices, i - u)| && trianglesIndex <= 6 * u
      invariant RingsFilled(points[..], points0, unsplit, crossSection, i)
      invariant QuadsFilled(triangles[..], triangles0, cap, kept, u, c, trianglesIndex)
    {
      FillRingPoint(points, crossSection, unsplit, i, points0);
      trianglesIndex := QuadStep(triangles, hardEdgeIndices, u, c, cap, i, trianglesIndex, triangles0);
      i := i + 1;
    }
  }

  /** The point half of a pass of FillCircumference's loop, at ring index i:
      split point i - u on both rings. */
  method FillRingPoint(points: array<Vec3>, crossSection: seq<Vec2>, unsplit: seq<Vec2>, i: int, ghost points0: seq<Vec3>)
    requires points.Length == 2 * |unsplit| + 2 * |crossSection| && |points0| == points.Length
    requires |unsplit| <= i < |crossSection| + |unsplit|
    requires RingsFilled(points[..], points0, unsplit, crossSection, i)
    modifies points
    ensures RingsFilled(points[..], points0, unsplit, crossSection, i + 1)
  {
    RingsStep(points[..], points0, unsplit, crossSection, i);
    WriteRingPoints(points, i, |crossSection|, crossSection[i - |unsplit|]);
  }

  /** The triangle half of a pass, at ring index i: the quad to the next
      split point, unless point i - u is the first copy of a hard edge.
      Returns the next quad's offset in the triangle layout. */
  method QuadStep(triangles: array<int>, hardEdgeIndices: seq<int>, u: int, c: int, cap: seq<int>,
                  i: int, trianglesIndex: int, ghost triangles0: seq<int>)
    returns (nextTrianglesIndex: int)
    requires c > 0 && |Kept(hardEdgeIndices, c)| == u
    requires triangles.Length == 2 * |cap| + 6 * u && |triangles0| == triangles.Length
    requires u <= i < c + u
    requires trianglesIndex == 6 * |Kept(hardEdgeIndices, i - u)|
    requires QuadsFilled(triangles[..], triangles0, cap, Kept(hardEdgeIndices, c), u, c, trianglesIndex)
    modifies triangles
    ensures nextTrianglesIndex == 6 * |Kept(hardEdgeIndices, i + 1 - u)| && nextTrianglesIndex <= 6 * u
    ensures QuadsFilled(triangles[..], triangles0, cap, Kept(hardEdgeIndices, c), u, c, nextTrianglesIndex)
  {
    ghost var kept := Kept(hardEdgeIndices, c);
    var circumferenceTrianglesOffset := |cap|;
    var crossSectionIndex := i - u;
    KeptStep(hardEdgeIndices, crossSectionIndex, c);
    nextTrianglesIndex := trianglesIndex;
    if crossSectionIndex in hardEdgeIndices {
      // Skip the duplicated hard edge vertex.
      nextTrianglesIndex := nextTrianglesIndex - 6;
    } else {
      ghost var m := |Kept(hardEdgeIndices, crossSectionIndex)|;
      assert kept[m] == crossSectionIndex && trianglesIndex == 6 * m;
      WriteQuad(triangles, circumferenceTrianglesOffset + trianglesIndex, i, c, (crossSectionIndex + 1) % c + u,
                triangles0, cap, kept, u, m);
    }
    nextTrianglesIndex := nextTrianglesIndex + 6;
  }

  /** Writes split point xy to both rings: at i on the near ring and at
      i + c on the far one. */
  method WriteRingPoints(points: array<Vec3>, i: int, c: int, xy: Vec2)
    requires 0 <= i && 0 <= c && i + c < points.Length
    modifies points
    ensures points[..] == old(points[..])[i := Lift(xy, -MAX_RADIUS)][i + c := Lift(xy, MAX_RADIUS)]
  {
    var point := Lift(xy, 0.0);
    point := point.(z := -MAX_RADIUS);
    points[i] := point;
    point := point.(z := MAX_RADIUS);
    points[i + c] := point;
  }

  /** Connects vertex i and nextIndex on both rings with two triangles: the
      slots of quad m, kept point kept[m] = i - u, in the triangle layout. */
  method WriteQuad(triangles: array<int>, at: int, i: int, c: int, nextIndex: int,
                   ghost orig: seq<int>, ghost cap: seq<int>, ghost kept: seq<int>, ghost u: int, ghost m: int)
    requires c > 0 && triangles.Length == |orig| == 2 * |cap| + 6 * |kept| && 0 <= m < |kept|
    requires at == |cap| + 6 * m && i == kept[m] + u && nextIndex == (kept[m] + 1) % c + u
    requires QuadsFilled(triangles[..], orig, cap, kept, u, c, 6 * m)
    modifies triangles
    ensures QuadsFilled(triangles[..], orig, cap, kept, u, c, 6 * m + 6)
  {
    ghost var before := triangles[..];
    triangles[at] := i;
    triangles[at + 1] := i + c;
    triangles[at + 2] := nextIndex;
    triangles[at + 3] := nextIndex;
    triangles[at + 4] := i + c;
    triangles[at + 5] := nextIndex + c;
    QuadsStep(before, triangles[..], orig, cap, kept, u, c, m);
  }

  /** Copies the cap triangulation to the near cap and, shifted onto the far
      cap's vertices, to the end of the array. */
  method CopyCapTriangles(triangles: array<int>, crossSectionCapTriangles: seq<int>, ghost kept: seq<int>, u: int, c: int)
    requires c > 0 && triangles.Length == 2 * |crossSectionCapTriangles| + 6 * |kept|
    modifies triangles
    ensures forall k :: 0 <= k < |crossSectionCapTriangles| || triangles.Length - |crossSectionCapTriangles| <= k < triangles.Length ==>
              triangles[k] == CylinderTriangle(crossSectionCapTriangles, kept, u, c, k)
    ensures forall k :: |crossSectionCapTriangles| <= k < triangles.Length - |crossSectionCapTriangles| ==>
              triangles[k] == old(triangles[k])
  {
    var n := |crossSectionCapTriangles|;
    var farCapTrianglesOffset := triangles.Length - n;
    for i := 0 to n
      invariant forall k :: 0 <= k < i || farCapTrianglesOffset <= k < farCapTrianglesOffset + i ==>
                  triangles[k] == CylinderTriangle(crossSectionCapTriangles, kept, u, c, k)
      invariant forall k :: i <= k < farCapTrianglesOffset || farCapTrianglesOffset + i <= k < triangles.Length ==>
                  triangles[k] == old(triangles[k])
    {
      triangles[i] := crossSectionCapTriangles[i];
      triangles[i + farCapTrianglesOffset] := crossSectionCapTriangles[i] + c * 2 + u;
    }
  }

  /** The far cap starts on a triangle boundary and every flipped pair lies
      inside the array. */
  lemma FarCapFlipInBounds(length: int, n: int, u: int, from: int)
    requires n >= 0 && n % 3 == 0 && u >= 0 && length == 2 * n + 6 * u && from == length - n
    ensures from % 3 == 0 && FlipEnd(length, -1) == length - 1 && FlipInBounds(length, from, FlipEnd(length, -1))
  {
    var q := n / 3;
    assert n == q * 3;
    DivMod(q + 2 * u, 0, 3);
    assert (q + 2 * u) * 3 == length - n;
    if n > 0 {
      DivMod(q - 1, 2, 3);
      assert (q - 1) * 3 + 2 == n - 1;
    }
  }


  // ---------------------------------------------------------------------------
  // The generated mesh, as functions of the samples

  /** The closed, unsplit cross-section ring for the given samples. */
  function UnsplitRing(p: nat, noise: seq<real>, lengths: seq<real>, amount: real,
                       bottomLength: real, topLength: real, sin: RealFn, cos: RealFn): (r: seq<Vec2>)
    requires p <= |noise| && p <= |lengths|
    ensures |r| == 2 * (p + 1)
  {
    UnsplitSection(HalfSection(p, noise, lengths, amount, sin, cos), bottomLength, topLength)
  }

  /** The vertices: both caps and both rings, clamped onto the sphere of
      radius MAX_RADIUS when asked. */
  function MeshPoints(unsplit: seq<Vec2>, threshold: real, angle: AngleBetween, clamp: bool, normalized: Normalizer): seq<Vec3> {
    var mesh := CylinderPoints(unsplit, Expand(unsplit, HardEdges(unsplit, threshold, angle)));
    if clamp then Clamped(mesh, MAX_RADIUS, normalized) else mesh
  }

  /** The triangles before the far cap is flipped. */
  function AssembledTriangles(unsplit: seq<Vec2>, cap: seq<int>, threshold: real, angle: AngleBetween): seq<int>
    requires |unsplit| > 0
  {
    var edges := HardEdges(unsplit, threshold, angle);
    var c := |Expand(unsplit, edges)|;
    CylinderTriangles(cap, Kept(Shifted(edges), c), |unsplit|, c)
  }

  /** The triangles: the far cap's triangles are flipped so that it faces
      outwards. */
  function MeshTriangles(unsplit: seq<Vec2>, cap: seq<int>, threshold: real, angle: AngleBetween): seq<int>
    requires |unsplit| > 0
  {
    var assembled := AssembledTriangles(unsplit, cap, threshold, angle);
    Flipped(assembled, |assembled| - |cap|, |assembled| - 1)
  }

  /** The UVs, for h = |unsplit| / 2. */
  function MeshUvs(h: int, unsplit: seq<Vec2>, threshold: real, angle: AngleBetween): seq<Vec2>
    requires h >= 2
  {
    CylinderUvs(h, SplitUvs(h, HardEdges(unsplit, threshold, angle)))
  }

  /** Where slot j of a cap triangulation goes when its triangles are
      flipped: the first two slots of each triple trade places. */
  function SwappedSlot(j: int): int {
    if j % 3 == 0 then j + 1 else if j % 3 == 1 then j - 1 else j
  }

  /** The split ring has one point per hard edge more than the unsplit ring,
      and one quad starts at each of the unsplit ring's points. */
  lemma RingCounts(unsplit: seq<Vec2>, threshold: real, angle: AngleBetween)
    requires |unsplit| > 0
    ensures var e := HardEdges(unsplit, threshold, angle);
      var c := |Expand(unsplit, e)|;
      c == |unsplit| + |e| && |Kept(Shifted(e), c)| == |unsplit|
  {
    HardEdgesSpec(unsplit, threshold, angle);
    ShiftedLayout(unsplit, HardEdges(unsplit, threshold, angle));
  }

  /** The mesh has as many UVs as vertices: both caps (2h each) and both
      rings (one point per unsplit point and one more per hard edge). It has
      two cap triangulations and two triangles per unsplit point, so whole
      triangles only. */
  lemma MeshSizes(h: int, unsplit: seq<Vec2>, cap: seq<int>, threshold: real, angle: AngleBetween,
                  clamp: bool, normalized: Normalizer)
    requires h >= 2 && |unsplit| == 2 * h && |cap| % 3 == 0
    ensures var e := HardEdges(unsplit, threshold, angle);
      |MeshPoints(unsplit, threshold, angle, clamp, normalized)| == 8 * h + 2 * |e| &&
      |MeshUvs(h, unsplit, threshold, angle)| == 8 * h + 2 * |e|
    ensures var triangles := MeshTriangles(unsplit, cap, threshold, angle);
      |triangles| == 2 * |cap| + 6 * |unsplit| && |triangles| % 3 == 0
  {
    var e := HardEdges(unsplit, threshold, angle);
    HardEdgesSpec(unsplit, threshold, angle);
    RingCounts(unsplit, threshold, angle);
    var circ := CircumferenceUvs(h);
    ExpandSorted(circ, e);
    assert |SplitUvs(h, e)| == |Expand(circ, e)|;
    var q := |cap| / 3;
    DivMod(2 * q + 2 * |unsplit|, 0, 3);
  }

  /** Given a cap triangulation of the unsplit ring, every index of the mesh
      addresses one of its vertices. */
  lemma MeshTrianglesInRange(unsplit: seq<Vec2>, cap: seq<int>, threshold: real, angle: AngleBetween)
    requires |unsplit| > 0 && |cap| % 3 == 0
    requires Within(cap, 0, |unsplit|)
    ensures var split := Expand(unsplit, HardEdges(unsplit, threshold, angle));
      Within(MeshTriangles(unsplit, cap, threshold, angle), 0, 2 * |unsplit| + 2 * |split|)
  {
    var e := HardEdges(unsplit, threshold, angle);
    HardEdgesSpec(unsplit, threshold, angle);
    ShiftedLayout(unsplit, e);
    var c := |Expand(unsplit, e)|;
    var kept := Kept(Shifted(e), c);
    KeptSpec(Shifted(e), c);
    CylinderTrianglesInRange(cap, kept, |unsplit|, c);
    var a := CylinderTriangles(cap, kept, |unsplit|, c);
    assert a == AssembledTriangles(unsplit, cap, threshold, angle);
    FlippedInRange(a, |a| - |cap|, |a| - 1, 0, 2 * |unsplit| + 2 * c);
  }

  /** Cap indices below u and quad starts below c give indices below 2u + 2c. */
  lemma CylinderTrianglesInRange(cap: seq<int>, kept: seq<int>, u: int, c: int)
    requires c > 0 && u >= 0 && Within(cap, 0, u) && Within(kept, 0, c)
    ensures Within(CylinderTriangles(cap, kept, u, c), 0, 2 * u + 2 * c)
  {
    var a := CylinderTriangles(cap, kept, u, c);
    forall k | 0 <= k < |a| ensures 0 <= a[k] < 2 * u + 2 * c {
      var n := |cap|;
      if n <= k < n + 6 * |kept| {
        var m := (k - n) / 6;
        QuadSlotInRange(kept[m], (k - n) % 6, u, c);
      }
    }
  }

  /** Both triangles of a quad join the near ring to the far ring. */
  lemma QuadSlotInRange(s: int, r: int, u: int, c: int)
    requires 0 <= s < c && 0 <= r < 6 && u >= 0
    ensures u <= QuadSlot(s, r, u, c) < u + 2 * c
  {
  }

  /** Flipping only moves values around, so it keeps them in any range. */
  lemma FlippedInRange(s: seq<int>, fromIndex: int, lastIndex: int, lo: int, hi: int)
    requires Within(s, lo, hi)
    ensures Within(Flipped(s, fromIndex, lastIndex), lo, hi)
  {
  }

  /** The flip leaves everything before the far cap alone: the near cap is
      the triangulation as given and the ring quads stay as assembled. */
  lemma MeshNearCap(unsplit: seq<Vec2>, cap: seq<int>, threshold: real, angle: AngleBetween)
    requires |unsplit| > 0 && |cap| % 3 == 0
    ensures var triangles := MeshTriangles(unsplit, cap, threshold, angle);
      |triangles| == |AssembledTriangles(unsplit, cap, threshold, angle)| == 2 * |cap| + 6 * |unsplit|
    ensures var triangles := MeshTriangles(unsplit, cap, threshold, angle);
      forall k :: 0 <= k < |cap| ==> triangles[k] == cap[k]
    ensures var triangles, assembled := MeshTriangles(unsplit, cap, threshold, angle), AssembledTriangles(unsplit, cap, threshold, angle);
      forall k :: 0 <= k < |cap| + 6 * |unsplit| ==> triangles[k] == assembled[k]
  {
    MeshFlip(unsplit, cap, threshold, angle);
  }

  /** The far cap is the triangulation with the first two indices of every
      triangle swapped, so that it faces the other way, moved onto the far
      cap's vertices (which start at u + 2c). */
  lemma MeshFarCap(unsplit: seq<Vec2>, cap: seq<int>, threshold: real, angle: AngleBetween)
    requires |unsplit| > 0 && |cap| % 3 == 0
    ensures FlippedCopy(MeshTriangles(unsplit, cap, threshold, angle), cap, |cap| + 6 * |unsplit|,
                        |unsplit| + 2 * |Expand(unsplit, HardEdges(unsplit, threshold, angle))|)
  {
    MeshFlip(unsplit, cap, threshold, angle);
  }

  /** The flip, in terms of the assembled triangles. */
  lemma MeshFlip(unsplit: seq<Vec2>, cap: seq<int>, threshold: real, angle: AngleBetween)
    requires |unsplit| > 0 && |cap| % 3 == 0
    ensures var e := HardEdges(unsplit, threshold, angle);
      var c := |Expand(unsplit, e)|;
      var a := AssembledTriangles(unsplit, cap, threshold, angle);
      a == CylinderTriangles(cap, Kept(Shifted(e), c), |unsplit|, c) &&
      CappedFlip(a, MeshTriangles(unsplit, cap, threshold, angle), cap, |unsplit|, c)
  {
    var e := HardEdges(unsplit, threshold, angle);
    RingCounts(unsplit, threshold, angle);
    var c := |Expand(unsplit, e)|;
    CylinderFlip(cap, Kept(Shifted(e), c), |unsplit|, c, MeshTriangles(unsplit, cap, threshold, angle));
  }

  /** t is a with the far cap flipped: the near cap and the quads are left
      as they are and the far cap is the flipped copy of cap. */
  ghost predicate CappedFlip(a: seq<int>, t: seq<int>, cap: seq<int>, u: int, c: int) {
    u >= 0 && |a| == |t| == 2 * |cap| + 6 * u &&
    (forall k :: 0 <= k < |cap| ==> a[k] == cap[k]) &&
    (forall k :: 0 <= k < |cap| + 6 * u ==> t[k] == a[k]) &&
    FlippedCopy(t, cap, |cap| + 6 * u, u + 2 * c)
  }

  lemma CylinderFlip(cap: seq<int>, kept: seq<int>, u: int, c: int, t: seq<int>)
    requires c > 0 && u >= 0 && |cap| % 3 == 0 && |kept| == u
    requires t == Flipped(CylinderTriangles(cap, kept, u, c), |cap| + 6 * u, 2 * |cap| + 6 * u - 1)
    ensures CappedFlip(CylinderTriangles(cap, kept, u, c), t, cap, u, c)
  {
    var a := CylinderTriangles(cap, kept, u, c);
    CylinderCaps(cap, kept, u, c);
    FlippedTail(a, t, cap, |cap| + 6 * u, u + 2 * c);
  }

  /** The assembled triangles start with the near cap and end with the far
      cap: the near cap's indices moved by u + 2c. */
  lemma CylinderCaps(cap: seq<int>, kept: seq<int>, u: int, c: int)
    requires c > 0
    ensures var a := CylinderTriangles(cap, kept, u, c);
      (forall k :: 0 <= k < |cap| ==> a[k] == cap[k]) &&
      forall k :: |cap| + 6 * |kept| <= k < |a| ==> a[k] == cap[k - |cap| - 6 * |kept|] + (u + 2 * c)
  {
  }

  /** From index far on, t holds the triangles of cap with the first two
      indices of each swapped, every index moved by offset. */
  ghost predicate FlippedCopy(t: seq<int>, cap: seq<int>, far: int, offset: int) {
    far >= 0 && far + |cap| <= |t| &&
    forall j :: 0 <= j < |cap| ==> 0 <= SwappedSlot(j) < |cap| && t[far + j] == cap[SwappedSlot(j)] + offset
  }

  /** Flipping from a triple boundary to the end swaps the first two slots
      of each triple of the tail and leaves everything before it alone. */
  lemma FlippedTail(s: seq<int>, t: seq<int>, cap: seq<int>, far: int, offset: int)
    requires far >= 0 && |cap| % 3 == 0 && |s| == far + |cap|
    requires forall k :: far <= k < |s| ==> s[k] == cap[k - far] + offset
    requires t == Flipped(s, far, |s| - 1)
    ensures |t| == |s|
    ensures forall k :: 0 <= k < far ==> t[k] == s[k]
    ensures FlippedCopy(t, cap, far, offset)
  {
    forall k | 0 <= k < far ensures t[k] == s[k] {
      assert !IsFlipStart(far, |s| - 1, k) && !IsFlipStart(far, |s| - 1, k - 1);
    }
    forall j | 0 <= j < |cap|
      ensures 0 <= SwappedSlot(j) < |cap| && t[far + j] == cap[SwappedSlot(j)] + offset
    {
      FlippedTailAt(s, cap, far, offset, far + j);
    }
  }

  /** One slot of the flipped tail. */
  lemma FlippedTailAt(s: seq<int>, cap: seq<int>, far: int, offset: int, k: int)
    requires far >= 0 && |cap| % 3 == 0 && |s| == far + |cap| && far <= k < |s|
    requires forall k :: far <= k < |s| ==> s[k] == cap[k - far] + offset
    ensures 0 <= SwappedSlot(k - far) < |cap|
    ensures FlippedAt(s, far, |s| - 1, k) == cap[SwappedSlot(k - far)] + offset
  {
    var j := k - far;
    var q, r := j / 3, j % 3;
    assert j == 3 * q + r;
    var p := |cap| / 3;
    assert |cap| == 3 * p && q < p;
    if r == 0 {
      assert IsFlipStart(far, |s| - 1, k) && j + 1 < |cap|;
    } else if r == 1 {
      DivMod(q, 0, 3);
      assert !IsFlipStart(far, |s| - 1, k) && IsFlipStart(far, |s| - 1, k - 1);
    } else {
      DivMod(q, 1, 3);
      assert !IsFlipStart(far, |s| - 1, k) && !IsFlipStart(far, |s| - 1, k - 1);
    }
  }

  // ---------------------------------------------------------------------------
  // The generator

  class CylindricalSpaceshipGenerator {
    var pointsInCrossSectionRange: IntRange
    var radius: FloatRange
    /** In [0, 1]: how much of each step angle the noise may take away. */
    var angleRandomAmount: real
    var autoClampToMaxRadius: bool
    /** In [0, 180]: corners at most this sharp become hard edges. */
    var hardEdgeMaxAngle: real

    /** The serialized defaults: clamping on, hard edges up to 120 degrees. */
    constructor (pointsInCrossSectionRange: IntRange, radius: FloatRange, angleRandomAmount: real)
      ensures this.pointsInCrossSectionRange == pointsInCrossSectionRange && this.radius == radius
      ensures this.angleRandomAmount == angleRandomAmount
      ensures autoClampToMaxRadius && hardEdgeMaxAngle == 120.0
    {
      this.pointsInCrossSectionRange := pointsInCrossSectionRange;
      this.radius := radius;
      this.angleRandomAmount := angleRandomAmount;
      autoClampToMaxRadius := true;
      hardEdgeMaxAngle := 120.0;
    }

    /** Repairs the ranges edited in the inspector. */
    method OnValidate()
      modifies this
      ensures pointsInCrossSectionRange == ValidatedPointsRange(old(pointsInCrossSectionRange))
      ensures radius == ValidatedRadius(old(radius))
      ensures angleRandomAmount == old(angleRandomAmount) && autoClampToMaxRadius == old(autoClampToMaxRadius)
      ensures hardEdgeMaxAngle == old(hardEdgeMaxAngle)
    {
      if pointsInCrossSectionRange.min < 1 {
        pointsInCrossSectionRange := pointsInCrossSectionRange.(min := 1);
        pointsInCrossSectionRange := pointsInCrossSectionRange.(max := MaxInt(pointsInCrossSectionRange.max, 1));
      }
      if radius.min < MIN_RADIUS {
        radius := radius.(min := MIN_RADIUS);
        radius := radius.(max := MaxReal(radius.min, radius.max));
      }
      if radius.max > MAX_RADIUS {
        radius := radius.(max := MAX_RADIUS);
        radius := radius.(min := MinReal(radius.min, radius.max));
      }
    }

    /** The half cross-section without its top and bottom points.
        pointsInCrossSection is the sampled point count, noise the
        Random.value draws and lengths the sampled radii, one per point. */
    method GenerateHalfCrossSection(pointsInCrossSection: int, noise: seq<real>, lengths: seq<real>, sin: RealFn, cos: RealFn)
      returns (crossSection: seq<Vec2>)
      requires 0 <= pointsInCrossSection <= |noise| && pointsInCrossSection <= |lengths|
      ensures crossSection == HalfSection(pointsInCrossSection, noise, lengths, angleRandomAmount, sin, cos)
    {
      var p, amount := pointsInCrossSection, angleRandomAmount;
      var section := new List<Vec2>([]);
      var offset := Vec2(0.0, 1.0);
      var angleStep := 180.0 / (p + 1) as real;
      var sumAngle := 0.0;
      for i := 0 to p
        invariant sumAngle == AngleSum(p, noise, amount, i)
        invariant angleStep == EvenAngle(p, noise, amount, i)
        invariant offset == Offset(p, noise, amount, sin, cos, i)
        invariant |section.elems| == i
        invariant forall k :: 0 <= k < i ==>
                    section.elems[k] == HalfSectionPoint(p, noise, lengths, amount, sin, cos, k)
      {
        sumAngle, angleStep, offset := HalfSectionStep(section, p, noise, lengths, amount, sin, cos, i, sumAngle, angleStep, offset);
      }
      crossSection := section.elems;
    }

    /** One pass of the loop: rotate the offset by the next jittered step,
        emit the scaled point and spread the remaining angle over the points
        still to come. */
    static method HalfSectionStep(section: List<Vec2>, p: int, noise: seq<real>, lengths: seq<real>, amount: real,
                                  sin: RealFn, cos: RealFn, i: int, sumAngle: real, angleStep: real, offset: Vec2)
      returns (nextSumAngle: real, nextAngleStep: real, nextOffset: Vec2)
      requires 0 <= i < p <= |noise| && p <= |lengths|
      requires sumAngle == AngleSum(p, noise, amount, i)
      requires angleStep == EvenAngle(p, noise, amount, i)
      requires offset == Offset(p, noise, amount, sin, cos, i)
      requires |section.elems| == i
      requires forall k :: 0 <= k < i ==>
                 section.elems[k] == HalfSectionPoint(p, noise, lengths, amount, sin, cos, k)
      modifies section
      ensures nextSumAngle == AngleSum(p, noise, amount, i + 1)
      ensures nextAngleStep == EvenAngle(p, noise, amount, i + 1)
      ensures nextOffset == Offset(p, noise, amount, sin, cos, i + 1)
      ensures |section.elems| == i + 1
      ensures forall k :: 0 <= k < i + 1 ==>
                section.elems[k] == HalfSectionPoint(p, noise, lengths, amount, sin, cos, k)
    {
      var angle := angleStep * (1.0 - noise[i] * amount);
      assert angle == StepAngle(p, noise, amount, i);
      nextOffset := RotateInDegrees(offset, -angle, sin, cos);
      assert nextOffset == Offset(p, noise, amount, sin, cos, i + 1);
      var length := lengths[i];
      ghost var before := section.elems;
      section.Add(Scale2(nextOffset, length));
      assert section.elems == before + [HalfSectionPoint(p, noise, lengths, amount, sin, cos, i)];
      nextSumAngle := sumAngle + angle;
      assert nextSumAngle == AngleSum(p, noise, amount, i + 1);
      nextAngleStep := (180.0 - nextSumAngle) / (p - i) as real;
    }

    /** Builds the mesh. The samples stand for the engine's random draws:
        pointsInCrossSection for pointsInCrossSectionRange, noise and lengths
        for the half cross-section, bottomLength and topLength for the two
        axis points. crossSectionCapTriangles is the triangulation of the
        unsplit ring; sin, cos, angle and normalized are the engine's math. */
    method Generate(pointsInCrossSection: int, noise: seq<real>, lengths: seq<real>,
                    bottomLength: real, topLength: real, crossSectionCapTriangles: seq<int>,
                    sin: RealFn, cos: RealFn, angle: AngleBetween, normalized: Normalizer)
      returns (meshPoints: seq<Vec3>, meshTriangles: seq<int>, meshUvs: seq<Vec2>)
      requires 1 <= pointsInCrossSection <= |noise| && pointsInCrossSection <= |lengths|
      requires |crossSectionCapTriangles| % 3 == 0
      ensures var unsplit := UnsplitRing(pointsInCrossSection, noise, lengths, angleRandomAmount, bottomLength, topLength, sin, cos);
        meshPoints == MeshPoints(unsplit, hardEdgeMaxAngle, angle, autoClampToMaxRadius, normalized) &&
        meshTriangles == MeshTriangles(unsplit, crossSectionCapTriangles, hardEdgeMaxAngle, angle) &&
        meshUvs == MeshUvs(pointsInCrossSection + 1, unsplit, hardEdgeMaxAngle, angle)
    {
      var half := GenerateHalfCrossSection(pointsInCrossSection, noise, lengths, sin, cos);
      assert |half| + 1 == pointsInCrossSection + 1;
      assert UnsplitSection(half, bottomLength, topLength) ==
             UnsplitRing(pointsInCrossSection, noise, lengths, angleRandomAmount, bottomLength, topLength, sin, cos);
      meshPoints, meshTriangles, meshUvs := AssembleMesh(half, bottomLength, topLength, crossSectionCapTriangles,
                                                         hardEdgeMaxAngle, autoClampToMaxRadius, angle, normalized);
    }
  }

  /** Everything Generate does after the half cross-section: closing the
      ring, the UVs, splitting the hard edges, the vertex and triangle
      arrays, flipping the far cap and clamping. */
  method AssembleMesh(half: seq<Vec2>, bottomLength: real, topLength: real, crossSectionCapTriangles: seq<int>,
                      hardEdgeMaxAngle: real, autoClampToMaxRadius: bool, angle: AngleBetween, normalized: Normalizer)
    returns (meshPoints: seq<Vec3>, meshTriangles: seq<int>, meshUvs: seq<Vec2>)
    requires |half| >= 1 && |crossSectionCapTriangles| % 3 == 0
    ensures var unsplit := UnsplitSection(half, bottomLength, topLength);
      meshPoints == MeshPoints(unsplit, hardEdgeMaxAngle, angle, autoClampToMaxRadius, normalized) &&
      meshTriangles == MeshTriangles(unsplit, crossSectionCapTriangles, hardEdgeMaxAngle, angle) &&
      meshUvs == MeshUvs(|half| + 1, unsplit, hardEdgeMaxAngle, angle)
  {
    var crossSection, uvs := BuildUnsplitRing(half, bottomLength, topLength);
    var halfCrossSectionSize := |half| + 1;
    var unsplitCrossSection := crossSection.elems;
    var hardEdgeIndices := SplitRing(crossSection, uvs, halfCrossSectionSize, hardEdgeMaxAngle, angle);
    var points, triangles := BuildMesh(unsplitCrossSection, crossSection.elems, hardEdgeIndices,
                                       crossSectionCapTriangles, hardEdgeMaxAngle, angle);
    ghost var assembled := triangles[..];
    FarCapFlipInBounds(triangles.Length, |crossSectionCapTriangles|, |unsplitCrossSection|,
                       triangles.Length - |crossSectionCapTriangles|);
    FlipFarCap(triangles, crossSectionCapTriangles);
    MeshTrianglesOf(unsplitCrossSection, crossSectionCapTriangles, hardEdgeMaxAngle, angle,
                    assembled, triangles.Length, triangles[..]);

    if autoClampToMaxRadius {
      ClampToRadius(points, MAX_RADIUS, normalized);
    }
    meshPoints, meshTriangles, meshUvs := points[..], triangles[..], uvs.elems;
  }

  /** The assembled triangles with the far cap flipped are the mesh's. */
  lemma MeshTrianglesOf(unsplit: seq<Vec2>, cap: seq<int>, threshold: real, angle: AngleBetween,
                        assembled: seq<int>, length: int, t: seq<int>)
    requires |unsplit| > 0 && assembled == AssembledTriangles(unsplit, cap, threshold, angle)
    requires |assembled| == length && t == Flipped(assembled, length - |cap|, length - 1)
    ensures t == MeshTriangles(unsplit, cap, threshold, angle)
  {
  }

  /** The last part of Generate: the far cap's triangles, the last
      |crossSectionCapTriangles| slots, are flipped. */
  method FlipFarCap(triangles: array<int>, crossSectionCapTriangles: seq<int>)
    requires |crossSectionCapTriangles| <= triangles.Length
    requires (triangles.Length - |crossSectionCapTriangles|) % 3 == 0
    requires FlipInBounds(triangles.Length, triangles.Length - |crossSectionCapTriangles|, FlipEnd(triangles.Length, -1))
    modifies triangles
    ensures triangles[..] == Flipped(old(triangles[..]), triangles.Length - |crossSectionCapTriangles|, FlipEnd(triangles.Length, -1))
  {
    var farCapTrianglesOffset := triangles.Length - |crossSectionCapTriangles|;
    FlipTriangles(triangles, farCapTrianglesOffset);
  }

  /** The first part of Generate: the half cross-section closed by the
      bottom point, the cap and circumference UVs laid out on it, then the
      mirrored half and the top point. */
  method BuildUnsplitRing(half: seq<Vec2>, bottomLength: real, topLength: real)
    returns (crossSection: List<Vec2>, uvs: List<Vec2>)
    requires |half| >= 1
    ensures fresh(crossSection) && fresh(uvs) && crossSection != uvs
    ensures crossSection.elems == UnsplitSection(half, bottomLength, topLength)
    ensures uvs.elems == CapUvs(|half| + 1) + CircumferenceUvs(|half| + 1)
  {
    crossSection := new List<Vec2>(half);
    // Bottom point.
    crossSection.Add(Scale2(Vec2(0.0, -1.0), bottomLength));
    assert crossSection.elems == half + [Vec2(0.0, -bottomLength)];

    // The UVs of the first cap and of the circumference.
    uvs := new List<Vec2>([]);
    var halfCrossSectionSize := crossSection.Count();
    AddCapUvs(uvs, halfCrossSectionSize);
    AddCircumferenceUvs(uvs, halfCrossSectionSize);
    SectionUvsComplete(uvs.elems, halfCrossSectionSize);

    CloseCrossSection(crossSection, half, bottomLength, topLength);
  }

  /** The second part of Generate: the ring split at its hard edges (index 0
      always among them), the circumference UVs split to match, and the far
      ring's and far cap's UVs appended. */
  method SplitRing(crossSection: List<Vec2>, uvs: List<Vec2>, h: int, hardEdgeMaxAngle: real, angle: AngleBetween)
    returns (hardEdgeIndices: List<int>)
    requires crossSection != uvs && h >= 2 && |crossSection.elems| == 2 * h
    requires uvs.elems == CapUvs(h) + CircumferenceUvs(h)
    modifies crossSection, uvs
    ensures fresh(hardEdgeIndices)
    ensures hardEdgeIndices.elems == HardEdges(old(crossSection.elems), hardEdgeMaxAngle, angle)
    ensures crossSection.elems == Expand(old(crossSection.elems), hardEdgeIndices.elems)
    ensures uvs.elems == MeshUvs(h, old(crossSection.elems), hardEdgeMaxAngle, angle)
  {
    var unsplitCrossSection := crossSection.elems;
    var splits := SplitByAngle(crossSection, hardEdgeMaxAngle, angle);
    hardEdgeIndices := new List<int>(splits);
    SplitFirstPoint(crossSection, hardEdgeIndices, unsplitCrossSection, hardEdgeMaxAngle, angle);
    InsertHardEdgeUvs(uvs, hardEdgeIndices.elems, h, CapUvs(h), CircumferenceUvs(h));
    AddFarUvs(uvs, h, SplitUvs(h, hardEdgeIndices.elems));
  }

  /** Always split the first point so the UVs can wrap: index 0 is marked
      and point 0 duplicated unless the angle test already did so. */
  method SplitFirstPoint(crossSection: List<Vec2>, hardEdgeIndices: List<int>, ghost unsplit: seq<Vec2>,
                         ghost hardEdgeMaxAngle: real, ghost angle: AngleBetween)
    requires |unsplit| > 0
    requires hardEdgeIndices.elems == SharpCorners(unsplit, hardEdgeMaxAngle, angle)
    requires crossSection.elems == Expand(unsplit, hardEdgeIndices.elems)
    modifies crossSection, hardEdgeIndices
    ensures hardEdgeIndices.elems == HardEdges(unsplit, hardEdgeMaxAngle, angle)
    ensures crossSection.elems == Expand(unsplit, hardEdgeIndices.elems)
  {
    ghost var splits := hardEdgeIndices.elems;
    if 0 !in hardEdgeIndices.elems {
      ExpandFirst(unsplit, splits);
      hardEdgeIndices.Insert(0, 0);
      crossSection.Insert(0, crossSection.elems[0]);
      ExpandMarkFirst(unsplit, splits);
    }
  }

  /** The third part of Generate: the vertex array (both caps and both
      rings) and the triangle array (both caps and the ring quads). */
  method BuildMesh(unsplitCrossSection: seq<Vec2>, crossSection: seq<Vec2>, hardEdgeIndices: List<int>,
                   crossSectionCapTriangles: seq<int>, ghost hardEdgeMaxAngle: real, ghost angle: AngleBetween)
    returns (points: array<Vec3>, triangles: array<int>)
    requires |unsplitCrossSection| > 0
    requires hardEdgeIndices.elems == HardEdges(unsplitCrossSection, hardEdgeMaxAngle, angle)
    requires crossSection == Expand(unsplitCrossSection, hardEdgeIndices.elems)
    modifies hardEdgeIndices
    ensures fresh(points) && fresh(triangles)
    ensures points.Length == 2 * |unsplitCrossSection| + 2 * |crossSection|
    ensures triangles.Length == 2 * |crossSectionCapTriangles| + 6 * |unsplitCrossSection|
    ensures points[..] == CylinderPoints(unsplitCrossSection, crossSection)
    ensures triangles[..] == AssembledTriangles(unsplitCrossSection, crossSectionCapTriangles, hardEdgeMaxAngle, angle)
  {
    HardEdgesSpec(unsplitCrossSection, hardEdgeMaxAngle, angle);
    ShiftedLayout(unsplitCrossSection, hardEdgeIndices.elems);
    var u, c := |unsplitCrossSection|, |crossSection|;
    points := new Vec3[u * 2 + c * 2];
    var circumferenceTriangles := u * 2;
    triangles := new int[|crossSectionCapTriangles| * 2 + circumferenceTriangles * 3];

    FillCapPoints(points, unsplitCrossSection, crossSection);
    ShiftHardEdges(hardEdgeIndices);
    ghost var kept := Kept(hardEdgeIndices.elems, c);
    ghost var points0 := points[..];
    FillCircumference(points, triangles, crossSection, hardEdgeIndices.elems, unsplitCrossSection, crossSectionCapTriangles);
    CopyCapTriangles(triangles, crossSectionCapTriangles, kept, u, c);
    MeshComplete(points0, points[..], unsplitCrossSection, crossSection);
  }

  /** The caps written by FillCapPoints and the rings written by
      FillCircumference together make up the whole vertex array. */
  lemma MeshComplete(before: seq<Vec3>, after: seq<Vec3>, unsplit: seq<Vec2>, split: seq<Vec2>)
    requires |before| == |after| == 2 * |unsplit| + 2 * |split|
    requires forall k :: 0 <= k < |unsplit| || |unsplit| + 2 * |split| <= k < |before| ==>
               before[k] == CylinderPoint(unsplit, split, k)
    requires RingsFilled(after, before, unsplit, split, |unsplit| + |split|)
    ensures after == CylinderPoints(unsplit, split)
  {
  }
}
