/** The flat subdivided plane: an (n+1) x (n+1) grid of vertices over
    [-1, 1]^2 with two triangles per cell. */
module Plane {
  import opened Geometry
  import opened Bookkeeping

  /** Where vertex (i, j) of a grid with d divisions is stored. */
  function VertexIndex(d: int, i: int, j: int): int {
    i * (d + 1) + j
  }

  /** Where the six indices of cell (i, j), 1 <= i, j <= d, are stored. */
  function CellStart(d: int, i: int, j: int): int {
    6 * ((i - 1) * d + (j - 1))
  }

  /** The two triangles of cell (i, j): the vertex itself, its left, lower-left
      and lower neighbours. */
  function CellTriangles(d: int, i: int, j: int): seq<int> {
    [VertexIndex(d, i, j), VertexIndex(d, i, j - 1), VertexIndex(d, i - 1, j - 1),
     VertexIndex(d, i, j), VertexIndex(d, i - 1, j - 1), VertexIndex(d, i - 1, j)]
  }

  function GridUv(d: int, i: int, j: int): Vec2
    requires d != 0
  {
    Vec2(i as real / d as real, j as real / d as real)
  }

  /** point * 2 - Vector2.one, as a Vector3 with z = 0. */
  function GridPoint(d: int, i: int, j: int): Vec3
    requires d != 0
  {
    var uv := GridUv(d, i, j);
    Vec3(uv.x * 2.0 - 1.0, uv.y * 2.0 - 1.0, 0.0)
  }

  /** The UV and point stored at vertex slot k, read through the row layout. */
  function UvAt(d: int, k: int): Vec2
    requires d > 0
  {
    GridUv(d, k / (d + 1), k % (d + 1))
  }

  function PointAt(d: int, k: int): Vec3
    requires d > 0
  {
    GridPoint(d, k / (d + 1), k % (d + 1))
  }

  /** Triangle slot k read through the cell layout. */
  function TriangleSlot(d: int, k: int): int
    requires d > 0
  {
    var c := k / 6;
    CellTriangles(d, c / d + 1, c % d + 1)[k % 6]
  }

  /** Vertex (i, j) is read back from its slot. */
  lemma VertexSlot(d: int, i: int, j: int)
    requires d > 0 && 0 <= j <= d
    ensures UvAt(d, VertexIndex(d, i, j)) == GridUv(d, i, j)
    ensures PointAt(d, VertexIndex(d, i, j)) == GridPoint(d, i, j)
  {
    DivMod(i, j, d + 1);
  }

  /** Every grid coordinate gives an index inside the vertex buffer. */
  lemma VertexInGrid(d: int, i: int, j: int)
    requires 0 <= i <= d && 0 <= j <= d
    ensures 0 <= VertexIndex(d, i, j) < (d + 1) * (d + 1)
  {
    MulMono(i, d, d + 1);
    MulDist(d + 1, d + 1, 1);
  }

  /** A grid UV lies in [0, 1]^2 and its point in [-1, 1]^2. */
  lemma GridBounds(d: int, i: int, j: int)
    requires d > 0 && 0 <= i <= d && 0 <= j <= d
    ensures 0.0 <= GridUv(d, i, j).x <= 1.0 && 0.0 <= GridUv(d, i, j).y <= 1.0
    ensures -1.0 <= GridPoint(d, i, j).x <= 1.0 && -1.0 <= GridPoint(d, i, j).y <= 1.0
  {
    UnitFraction(i, d);
    UnitFraction(j, d);
  }

  lemma UnitFraction(a: int, b: int)
    requires 0 <= a <= b && b > 0
    ensures 0.0 <= a as real / b as real <= 1.0
  {
    var f := a as real / b as real;
    assert f * b as real == a as real;
  }

  /** The indices of every cell address vertices of the grid. */
  lemma CellInGrid(d: int, i: int, j: int)
    requires 1 <= i <= d && 1 <= j <= d
    ensures forall s :: 0 <= s < 6 ==> 0 <= CellTriangles(d, i, j)[s] < (d + 1) * (d + 1)
  {
    VertexInGrid(d, i, j);
    VertexInGrid(d, i, j - 1);
    VertexInGrid(d, i - 1, j - 1);
    VertexInGrid(d, i - 1, j);
  }

  /** The buffers hold, slot by slot, what the row and cell layouts put there,
      and every triangle index addresses an emitted vertex. */
  ghost predicate Emitted(d: int, points: seq<Vec3>, uvs: seq<Vec2>, triangles: seq<int>)
    requires d > 0
  {
    |uvs| == |points| &&
    (forall k :: 0 <= k < |triangles| ==> 0 <= triangles[k] < |points|) &&
    (forall k :: 0 <= k < |uvs| ==> uvs[k] == UvAt(d, k) && points[k] == PointAt(d, k)) &&
    (forall k :: 0 <= k < |triangles| ==> triangles[k] == TriangleSlot(d, k))
  }

  /** The buffer sizes after one more row. */
  lemma RowCounts(d: int, i: int)
    requires d > 0 && i >= 0
    ensures (i + 1) * (d + 1) == i * (d + 1) + d + 1
    ensures i * d == (if i == 0 then 0 else (i - 1) * d) + (if i == 0 then 0 else d)
  {
    MulDist(d + 1, i + 1, 1);
    MulDist(d, i, 1);
  }

  class PlaneGenerator {
    var divisions: int

    constructor (divisions: int)
      ensures this.divisions == divisions
    {
      this.divisions := divisions;
    }

    /** Builds the grid row by row. Triangle indices are computed from the
        number of points emitted so far, before the current point is added.
        With no divisions the single vertex's coordinates are the float
        quotient 0f / 0, passed in as zeroByZero. */
    method Generate(zeroByZero: real) returns (points: seq<Vec3>, uvs: seq<Vec2>, triangles: seq<int>)
      ensures divisions < 0 ==> points == [] && uvs == [] && triangles == []
      ensures divisions == 0 ==>
        var uv := Vec2(zeroByZero, zeroByZero);
        uvs == [uv] && points == [Vec3(uv.x * 2.0 - 1.0, uv.y * 2.0 - 1.0, 0.0)] && triangles == []
      ensures divisions > 0 ==>
        var d := divisions;
        |points| == (d + 1) * (d + 1) && |uvs| == |points| && |triangles| == 6 * (d * d) &&
        (forall i, j :: 0 <= i <= d && 0 <= j <= d ==>
          0 <= VertexIndex(d, i, j) < |points| &&
          uvs[VertexIndex(d, i, j)] == GridUv(d, i, j) &&
          points[VertexIndex(d, i, j)] == GridPoint(d, i, j)) &&
        (forall i, j :: 1 <= i <= d && 1 <= j <= d ==>
          0 <= CellStart(d, i, j) && CellStart(d, i, j) + 6 <= |triangles| &&
          triangles[CellStart(d, i, j)..CellStart(d, i, j) + 6] == CellTriangles(d, i, j))
      ensures forall k :: 0 <= k < |triangles| ==> 0 <= triangles[k] < |points|
    {
      var d := divisions;
      points, uvs, triangles := [], [], [];
      if d < 0 {
        return;
      }
      if d == 0 {
        var uv := Vec2(zeroByZero, zeroByZero);
        points, uvs := [Vec3(uv.x * 2.0 - 1.0, uv.y * 2.0 - 1.0, 0.0)], [uv];
        return;
      }
      ghost var cells := 0;
      var i := 0;
      while i <= d
        invariant 0 <= i <= d + 1
        invariant |points| == i * (d + 1)
        invariant cells == (if i == 0 then 0 else (i - 1) * d) && |triangles| == 6 * cells
        invariant Emitted(d, points, uvs, triangles)
      {
        points, uvs, triangles, cells := EmitRow(d, i, points, uvs, triangles, cells);
        RowCounts(d, i);
        i := i + 1;
      }
      ReadBack(d, points, uvs, triangles);
    }
  }

  /** One pass of the inner loop: row i of the grid, with the two triangles
      of every cell that has vertex (i, j) as its upper-right corner. */
  method EmitRow(d: int, i: int, points0: seq<Vec3>, uvs0: seq<Vec2>, triangles0: seq<int>, ghost cells0: int)
    returns (points: seq<Vec3>, uvs: seq<Vec2>, triangles: seq<int>, ghost cells: int)
    requires d > 0 && 0 <= i <= d
    requires |points0| == i * (d + 1)
    requires cells0 == (if i == 0 then 0 else (i - 1) * d) && |triangles0| == 6 * cells0
    requires Emitted(d, points0, uvs0, triangles0)
    ensures |points| == |points0| + d + 1
    ensures cells == cells0 + (if i == 0 then 0 else d) && |triangles| == 6 * cells
    ensures Emitted(d, points, uvs, triangles)
  {
    points, uvs, triangles, cells := points0, uvs0, triangles0, cells0;
    var j := 0;
    while j <= d
      invariant 0 <= j <= d + 1
      invariant |points| == |points0| + j && |uvs| == |points|
      invariant cells == cells0 + (if i == 0 || j == 0 then 0 else j - 1)
      invariant |triangles| == 6 * cells
      invariant forall k :: 0 <= k < |triangles| ==> 0 <= triangles[k] < |points|
      invariant forall k :: 0 <= k < |uvs| ==> uvs[k] == UvAt(d, k) && points[k] == PointAt(d, k)
      invariant forall k :: 0 <= k < |triangles| ==> triangles[k] == TriangleSlot(d, k)
    {
      if i > 0 && j > 0 {
        var count := |points|;
        CellAppend(d, i, j, cells, count);
        triangles := triangles + [count, count - 1, count - d - 2,
                                  count, count - d - 2, count - d - 1];
        cells := cells + 1;
      }
      VertexSlot(d, i, j);
      var point := Vec2(i as real / d as real, j as real / d as real);
      points := points + [Vec3(point.x * 2.0 - 1.0, point.y * 2.0 - 1.0, 0.0)];
      uvs := uvs + [point];
      j := j + 1;
    }
  }

  /** Buffers filled slot by slot hold every vertex and every cell at the
      place the layout gives it. */
  lemma ReadBack(d: int, points: seq<Vec3>, uvs: seq<Vec2>, triangles: seq<int>)
    requires d > 0
    requires |points| == (d + 1) * (d + 1) && |triangles| == 6 * (d * d)
    requires Emitted(d, points, uvs, triangles)
    ensures forall i, j :: 0 <= i <= d && 0 <= j <= d ==>
              0 <= VertexIndex(d, i, j) < |points| &&
              uvs[VertexIndex(d, i, j)] == GridUv(d, i, j) &&
              points[VertexIndex(d, i, j)] == GridPoint(d, i, j)
    ensures forall i, j :: 1 <= i <= d && 1 <= j <= d ==>
              0 <= CellStart(d, i, j) && CellStart(d, i, j) + 6 <= |triangles| &&
              triangles[CellStart(d, i, j)..CellStart(d, i, j) + 6] == CellTriangles(d, i, j)
  {
    ReadBackVertices(d, points, uvs, triangles);
    ReadBackCells(d, points, uvs, triangles);
  }

  lemma ReadBackVertices(d: int, points: seq<Vec3>, uvs: seq<Vec2>, triangles: seq<int>)
    requires d > 0
    requires |points| == (d + 1) * (d + 1)
    requires Emitted(d, points, uvs, triangles)
    ensures forall i, j :: 0 <= i <= d && 0 <= j <= d ==>
              0 <= VertexIndex(d, i, j) < |points| &&
              uvs[VertexIndex(d, i, j)] == GridUv(d, i, j) &&
              points[VertexIndex(d, i, j)] == GridPoint(d, i, j)
  {
    forall i, j | 0 <= i <= d && 0 <= j <= d
      ensures 0 <= VertexIndex(d, i, j) < |points|
      ensures uvs[VertexIndex(d, i, j)] == GridUv(d, i, j)
      ensures points[VertexIndex(d, i, j)] == GridPoint(d, i, j)
    {
      VertexInGrid(d, i, j);
      VertexSlot(d, i, j);
    }
  }

  lemma ReadBackCells(d: int, points: seq<Vec3>, uvs: seq<Vec2>, triangles: seq<int>)
    requires d > 0
    requires |triangles| == 6 * (d * d)
    requires Emitted(d, points, uvs, triangles)
    ensures forall i, j :: 1 <= i <= d && 1 <= j <= d ==>
              0 <= CellStart(d, i, j) && CellStart(d, i, j) + 6 <= |triangles| &&
              triangles[CellStart(d, i, j)..CellStart(d, i, j) + 6] == CellTriangles(d, i, j)
  {
    forall i, j | 1 <= i <= d && 1 <= j <= d
      ensures 0 <= CellStart(d, i, j) && CellStart(d, i, j) + 6 <= |triangles|
      ensures triangles[CellStart(d, i, j)..CellStart(d, i, j) + 6] == CellTriangles(d, i, j)
    {
      CellSlots(d, i, j);
    }
  }

  /** Appending the six indices of cell (i, j) when the triangle buffer holds
      all earlier cells and the point buffer all earlier vertices. */
  lemma CellAppend(d: int, i: int, j: int, cells: int, count: int)
    requires 1 <= i <= d && 1 <= j <= d
    requires cells == (i - 1) * d + (j - 1) && count == i * (d + 1) + j
    ensures count - d - 2 >= 0
    ensures [count, count - 1, count - d - 2, count, count - d - 2, count - d - 1] == CellTriangles(d, i, j)
    ensures forall s :: 0 <= s < 6 ==> TriangleSlot(d, 6 * cells + s) == CellTriangles(d, i, j)[s]
  {
    MulAtLeast(d + 1, i);
    MulDist(d + 1, i, 1);
    forall s | 0 <= s < 6 ensures TriangleSlot(d, 6 * cells + s) == CellTriangles(d, i, j)[s] {
      SlotOfCell(d, i, j, cells, s);
    }
  }

  /** The cell layout read back from the slot layout. */
  lemma CellSlots(d: int, i: int, j: int)
    requires 1 <= i <= d && 1 <= j <= d
    ensures 0 <= CellStart(d, i, j) && CellStart(d, i, j) + 6 <= 6 * (d * d)
    ensures forall s :: 0 <= s < 6 ==> TriangleSlot(d, CellStart(d, i, j) + s) == CellTriangles(d, i, j)[s]
  {
    var cells := (i - 1) * d + (j - 1);
    CellBelowGrid(d, i, j);
    forall s | 0 <= s < 6 ensures TriangleSlot(d, 6 * cells + s) == CellTriangles(d, i, j)[s] {
      SlotOfCell(d, i, j, cells, s);
    }
  }

  lemma CellBelowGrid(d: int, i: int, j: int)
    requires 1 <= i <= d && 1 <= j <= d
    ensures 0 <= (i - 1) * d && (i - 1) * d + j <= d * d
  {
    MulMono(0, i - 1, d);
    MulMono(i - 1, d - 1, d);
    MulDist(d, d, 1);
  }

  lemma SlotOfCell(d: int, i: int, j: int, cells: int, s: int)
    requires 1 <= i <= d && 1 <= j <= d && 0 <= s < 6
    requires cells == (i - 1) * d + (j - 1)
    ensures TriangleSlot(d, 6 * cells + s) == CellTriangles(d, i, j)[s]
  {
    DivMod(cells, s, 6);
    DivMod(i - 1, j - 1, d);
  }
}
