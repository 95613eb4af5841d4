# Spaceship generator core, modelled in Dafny

This project models the procedural mesh builders of a small space-ship
generator, the vector helpers they use, and the fixed-width bit sets of the
render pipeline's core utilities.

- **Mesh-buffer utilities** (`SpaceshipGenerator`): `SplitByAngle`
  duplicates the sharp corners of a cross-section ring. `FlipTriangles`
  reverses the winding of a range of triangles. `ClampToRadius` pulls points
  onto a sphere.
- **Generators**:
  - `Plane` builds an n x n grid.
  - `Box` builds a 24-vertex tube.
  - `OurSpaceShip` builds a 15-vertex wing.
  - `Cylindrical` builds a lathed cross-section with hard-edge splitting.

  Each generator returns its vertex, triangle-index and UV buffers. The
  proofs cover the integer bookkeeping: buffer lengths agree, every triangle
  index is in range, duplicated vertices are skipped consistently, and the
  cap and circumference offsets line up.
- **`VectorExtensions`**: angle wrapping, plane projections, rotation,
  channel-wise arithmetic and nearest-point search.
- **`BitArray`**: `BitArray8/16/32/64`, one `bv8`/`bv16`/`bv32`/`bv64`
  word each. The module covers the index-list constructor, `~ | &`,
  `allFalse`/`allTrue`, equality and `humanizedData`.

Modelling choices:

- The engine's list is modelled as the class `Lists.List` over a `seq`.
- The classes that mutate fields (the generators' `OnValidate`) are Dafny
  classes. Arrays filled by index stay `array`s.
- Coordinates are `real`. The engine's math is passed in as function
  parameters: `Mathf.Sin`/`Cos`/`Atan2`, `Vector2.Angle` and
  `Vector3.normalized`.
- Random draws (`RandomInside`, `Random.value`) are passed in as sample
  parameters.
- The cross-section triangulation is an input index sequence.
- A generator returns its buffers instead of handing them to the mesh
  (`mesh.SetPoints`, `mesh.Mesh.uv`).

Where the documentation and the code disagree, the model follows the code.
`NormalizeToAcuteAngle` is documented as returning a difference in
(-180, 180], but its loops leave a difference of exactly -180 as it is (see
Findings).

The 64-bit `humanizedData` passes `(long)data` to `Convert.ToString`. For a
negative long that prints the 64-bit two's complement, which is the
unsigned numeral of `data`. The model therefore states it on `data`.
`FlipTriangles` checks `fromIndex % 3 == 0` with `Debug.Assert`, which only
logs; the model swaps from any `fromIndex`, as the loop does.

## Model

| member | source | states |
|---|---|---|
| SpaceshipGenerator.SplitByAngle | Assets/Scripts/SpaceshipGenerator/SpaceshipGenerator.cs:17-49 | returns exactly the sharp corners of the original ring (SharpCorners) and leaves the list as the ring with each of them duplicated in place (Expand); with no split the list is unchanged |
| SpaceshipGenerator.SharpCornersSpec | Assets/Scripts/SpaceshipGenerator/SpaceshipGenerator.cs:20-39 | the split list is strictly increasing, inside [0, n), and holds i exactly when both ring edges at i (neighbours (i-1+n)%n and (i+1)%n) have squared length at least 0.001 and the angle between them is at most the threshold |
| SpaceshipGenerator.SharpCornersBelowSpec | Assets/Scripts/SpaceshipGenerator/SpaceshipGenerator.cs:20-39 | the same for the corners examined so far (indices below k), the induction behind the loop |
| SpaceshipGenerator.SplitLayout | Assets/Scripts/SpaceshipGenerator/SpaceshipGenerator.cs:42-47 | the split ring has n + |splits| points; the j-th split index s sits at s + j followed by an equal copy |
| SpaceshipGenerator.DuplicatePoints | Assets/Scripts/SpaceshipGenerator/SpaceshipGenerator.cs:43-47 | the descending Insert loop turns the list into the ring with every listed index duplicated next to itself |
| SpaceshipGenerator.FlipTriangles | Assets/Scripts/SpaceshipGenerator/SpaceshipGenerator.cs:57-65 | with a negative toIndex meaning the last slot, the array becomes Flipped: slots i and i+1 swapped for i = fromIndex, fromIndex+3, ... <= toIndex, everything else and the length unchanged |
| SpaceshipGenerator.FlipInvolution | Assets/Scripts/SpaceshipGenerator/SpaceshipGenerator.cs:62-64 | flipping keeps the length, changes only the swapped slots, and flipping twice restores the array |
| SpaceshipGenerator.FlipSlots | Assets/Scripts/SpaceshipGenerator/SpaceshipGenerator.cs:63 | at a triple start i the two first slots trade places and the third stays |
| SpaceshipGenerator.FlipRest | Assets/Scripts/SpaceshipGenerator/SpaceshipGenerator.cs:62 | past the last triple started at or below toIndex nothing changes |
| SpaceshipGenerator.ClampToRadius | Assets/Scripts/SpaceshipGenerator/SpaceshipGenerator.cs:73-81 | the array becomes Clamped: points with squared magnitude at most radius^2 unchanged, the others replaced by normalized * radius |
| SpaceshipGenerator.ClampToRadiusList | Assets/Scripts/SpaceshipGenerator/SpaceshipGenerator.cs:89-97 | the list overload computes the same element-wise Clamped result |
| SpaceshipGenerator.ClampPointInside | Assets/Scripts/SpaceshipGenerator/SpaceshipGenerator.cs:77-78 | with unit directions a clamped point lies in the sphere; an outside point lands on it and an inside point is kept |
| SpaceshipGenerator.ClampIdempotent | Assets/Scripts/SpaceshipGenerator/SpaceshipGenerator.cs:73-97 | clamping keeps the length and clamping twice equals clamping once |
| Plane.PlaneGenerator.Generate | Assets/Scripts/SpaceshipGenerator/PlaneGenerator.cs:10-32 | (d+1)^2 points with as many UVs and 6d^2 indices; vertex (i, j) at i(d+1)+j holds UV (i/d, j/d) and point 2 uv - 1; cell (i, j) holds (i,j),(i,j-1),(i-1,j-1),(i,j),(i-1,j-1),(i-1,j); every index is below the point count; a negative d gives empty buffers, and d = 0 one vertex at the float quotient 0/0 and no triangles |
| Plane.EmitRow | Assets/Scripts/SpaceshipGenerator/PlaneGenerator.cs:15-27 | one pass of the inner loop adds d+1 vertices and, for i > 0, d cells, keeping the slot layout |
| Plane.CellAppend | Assets/Scripts/SpaceshipGenerator/PlaneGenerator.cs:16-23 | the six indices computed from points.Count are exactly the cell's two triangles |
| Plane.ReadBack | Assets/Scripts/SpaceshipGenerator/PlaneGenerator.cs:14-28 | buffers filled row by row hold every vertex and every cell at its layout position |
| Plane.VertexInGrid | Assets/Scripts/SpaceshipGenerator/PlaneGenerator.cs:24-26 | every grid coordinate gives an index in [0, (d+1)^2) |
| Plane.CellInGrid | Assets/Scripts/SpaceshipGenerator/PlaneGenerator.cs:17-22 | every index a cell emits addresses a grid vertex |
| Plane.GridBounds | Assets/Scripts/SpaceshipGenerator/PlaneGenerator.cs:24-26 | a UV lies in [0,1]^2 and its point in [-1,1]^2 |
| Plane.VertexSlot | Assets/Scripts/SpaceshipGenerator/PlaneGenerator.cs:24-26 | vertex (i, j) reads back its UV and point from slot i(d+1)+j |
| Box.ValidatedSize | Assets/Scripts/SpaceshipGenerator/BoxSpaceshipGenerator.cs:17-28 | a minimum below MIN_SIZE becomes MIN_SIZE and the maximum at least MIN_SIZE; a valid range is kept; an ordered range stays ordered |
| Box.BoxSpaceshipGenerator.OnValidate | Assets/Scripts/SpaceshipGenerator/BoxSpaceshipGenerator.cs:17-28 | both size ranges become ValidatedSize of their old values; the clamp flag is unchanged |
| Box.BoxSpaceshipGenerator.Generate | Assets/Scripts/SpaceshipGenerator/BoxSpaceshipGenerator.cs:30-113 | points are the 24 box vertices (clamped to MAX_RADIUS exactly when autoClampToMaxRadius is set), triangles the literal array, UVs the 24 box UVs |
| Box.BoxLayout | Assets/Scripts/SpaceshipGenerator/BoxSpaceshipGenerator.cs:35-104 | 24 points, 24 UVs, 36 triangle indices, all in [0, 24) |
| Box.BoxSeams | Assets/Scripts/SpaceshipGenerator/BoxSpaceshipGenerator.cs:51-81 | points 4..11 copy corners 0,1,1,2,2,3,3,0; points 12..19 repeat 4..11 and 20..23 repeat 0..3 at z = MAX_RADIUS |
| Box.OutlineStep | Assets/Scripts/SpaceshipGenerator/BoxSpaceshipGenerator.cs:51-61 | the outline loop's copies and their u = i/4 UVs |
| Box.FarStep | Assets/Scripts/SpaceshipGenerator/BoxSpaceshipGenerator.cs:64-81 | the far loops' copies at z = MAX_RADIUS with v = 0.75 and v mirrored to 1 - v |
| Box.BoxUvsInUnitSquare | Assets/Scripts/SpaceshipGenerator/BoxSpaceshipGenerator.cs:42-81 | every UV lies in the unit square; near face, side strips and far face use separate v bands |
| Box.BoxEndFacesPlanar | Assets/Scripts/SpaceshipGenerator/BoxSpaceshipGenerator.cs:85-104 | both end faces' triangles lie on z = -MAX_RADIUS and z = MAX_RADIUS |
| Box.BoxSideFacesPlanar | Assets/Scripts/SpaceshipGenerator/BoxSpaceshipGenerator.cs:89-100 | the right, bottom, left and top quads lie on x = s, y = -t, x = -s, y = t |
| Box.BoxEndFacesFlipped | Assets/Scripts/SpaceshipGenerator/BoxSpaceshipGenerator.cs:101-103 | the far face is the near face shifted by LAST_FACE_OFFSET with each triangle's winding reversed |
| Box.BoxClampedOnSphere | Assets/Scripts/SpaceshipGenerator/BoxSpaceshipGenerator.cs:106-108 | with a non-zero cross-section every clamped vertex lies exactly on the sphere |
| Box.ValidatedSizesGiveVolume | Assets/Scripts/SpaceshipGenerator/BoxSpaceshipGenerator.cs:17-32 | sizes drawn from validated ranges have half sizes at least MIN_SIZE / 2 |
| OurSpaceShip.OurSpaceShipGenerator.Generate | Assets/Scripts/SpaceshipGenerator/OurSpaceShipGenerator.cs:13-78 | points, triangles and UVs are the ship's fixed 15-vertex, 54-index and 15-UV buffers for the sampled angle and height |
| OurSpaceShip.BuildTriangles | Assets/Scripts/SpaceshipGenerator/OurSpaceShipGenerator.cs:42-58 | the base triangles then, for j = 4..11, front (3, j, j+1) and back (j+1, j, 13) |
| OurSpaceShip.BuildUvs | Assets/Scripts/SpaceshipGenerator/OurSpaceShipGenerator.cs:60-75 | nose and base UVs, the profile UVs (i/16, 0.5) for i = 8 down to 0, then the two tail UVs |
| OurSpaceShip.ShipLayout | Assets/Scripts/SpaceshipGenerator/OurSpaceShipGenerator.cs:19-75 | 15 points and 15 UVs; 54 triangle indices, all in [0, 15) |
| OurSpaceShip.FanExtend | Assets/Scripts/SpaceshipGenerator/OurSpaceShipGenerator.cs:48-58 | each loop pass extends a correct prefix of the triangle list by six slots |
| OurSpaceShip.ShipFrontBackWinding | Assets/Scripts/SpaceshipGenerator/OurSpaceShipGenerator.cs:48-58 | each profile edge is used by a front triangle to vertex 3 and a back triangle to vertex 13 listing the edge the other way |
| OurSpaceShip.ShipDuplicates | Assets/Scripts/SpaceshipGenerator/OurSpaceShipGenerator.cs:22-40 | points 0 and 3 coincide, and points 13 and 14 coincide |
| OurSpaceShip.ShipProfileSymmetric | Assets/Scripts/SpaceshipGenerator/OurSpaceShipGenerator.cs:28-36 | profile points 4+k and 12-k share x and y and have opposite z |
| OurSpaceShip.ShipBaseOnCircle | Assets/Scripts/SpaceshipGenerator/OurSpaceShipGenerator.cs:17-24 | with sin^2 + cos^2 = 1 the base corners lie on the circle of radius MAX_RADIUS |
| OurSpaceShip.ShipUvsInUnitSquare | Assets/Scripts/SpaceshipGenerator/OurSpaceShipGenerator.cs:60-74 | every UV lies in the unit square and the profile UVs step by 1/16 |
| Cylindrical.ValidatedPointsRange | Assets/Scripts/SpaceshipGenerator/CylindricalSpaceshipGenerator.cs:22-26 | a minimum below 1 becomes 1 and the maximum at least 1; a valid range is kept |
| Cylindrical.ValidatedRadius | Assets/Scripts/SpaceshipGenerator/CylindricalSpaceshipGenerator.cs:27-36 | the radius range ends inside [MIN_RADIUS, MAX_RADIUS]; an in-range range is kept |
| Cylindrical.CylindricalSpaceshipGenerator.OnValidate | Assets/Scripts/SpaceshipGenerator/CylindricalSpaceshipGenerator.cs:21-37 | both ranges become their validated values; the other fields are unchanged |
| Cylindrical.CylindricalSpaceshipGenerator.GenerateHalfCrossSection | Assets/Scripts/SpaceshipGenerator/CylindricalSpaceshipGenerator.cs:226-251 | returns HalfSection: p points, point i the up vector rotated by the first i+1 jittered steps and scaled by its radius |
| Cylindrical.CylindricalSpaceshipGenerator.HalfSectionStep | Assets/Scripts/SpaceshipGenerator/CylindricalSpaceshipGenerator.cs:240-248 | one loop pass advances sumAngle, angleStep and offset to their values after step i+1 and emits point i |
| Cylindrical.HalfSection | Assets/Scripts/SpaceshipGenerator/CylindricalSpaceshipGenerator.cs:226-251 | exactly p points |
| Cylindrical.AngleSumBounds | Assets/Scripts/SpaceshipGenerator/CylindricalSpaceshipGenerator.cs:234-249 | with noise and amount in [0, 1] each step is in [0, even share of what is left] and the running sum stays in [0, 180) |
| Cylindrical.EvenSpacing | Assets/Scripts/SpaceshipGenerator/CylindricalSpaceshipGenerator.cs:234-249 | with amount 0 every step is 180/(p+1) |
| Cylindrical.UnsplitSection | Assets/Scripts/SpaceshipGenerator/CylindricalSpaceshipGenerator.cs:109-117 | the closed ring has 2h points, h = half size including the bottom point |
| Cylindrical.UnsplitSymmetric | Assets/Scripts/SpaceshipGenerator/CylindricalSpaceshipGenerator.cs:110-117 | point j >= h mirrors point 2h-2-j in x; bottom and top lie on the y axis at the sampled lengths |
| Cylindrical.CloseCrossSection | Assets/Scripts/SpaceshipGenerator/CylindricalSpaceshipGenerator.cs:109-117 | the mirror loop and the top point turn half + bottom into UnsplitSection |
| Cylindrical.CornerOrder | Assets/Scripts/SpaceshipGenerator/CylindricalSpaceshipGenerator.cs:49-50 | 0 <= topRightIndex < bottomRightIndex < h for h >= 2 |
| Cylindrical.CapUvsInQuarter | Assets/Scripts/SpaceshipGenerator/CylindricalSpaceshipGenerator.cs:53-79 | every first-cap UV lies in [0.75, 1] x [0, 0.25], with the corners at (1, 0.25) and (1, 0) |
| Cylindrical.CircumferenceUvsOnRow | Assets/Scripts/SpaceshipGenerator/CylindricalSpaceshipGenerator.cs:81-107 | every circumference UV lies on v = 0.25 with u in [0.875, 1.875] |
| Cylindrical.AddCapUvs | Assets/Scripts/SpaceshipGenerator/CylindricalSpaceshipGenerator.cs:47-79 | the cap loops add the 2h cap UVs |
| Cylindrical.AddCircumferenceUvs | Assets/Scripts/SpaceshipGenerator/CylindricalSpaceshipGenerator.cs:80-107 | the circumference loops add the 2h circumference UVs |
| Cylindrical.HardEdgesSpec | Assets/Scripts/SpaceshipGenerator/CylindricalSpaceshipGenerator.cs:123-128 | index 0 comes first; the list is ascending, inside the ring, and marks any other index exactly when it is a sharp corner |
| Cylindrical.SplitFirstPoint | Assets/Scripts/SpaceshipGenerator/CylindricalSpaceshipGenerator.cs:124-128 | after the insertions the list is HardEdges and the ring is the unsplit ring expanded at those indices |
| Cylindrical.SplitRing | Assets/Scripts/SpaceshipGenerator/CylindricalSpaceshipGenerator.cs:122-149 | the hard edges, the split ring and the full UV list (MeshUvs) after splitting |
| Cylindrical.InsertHardEdgeUvs | Assets/Scripts/SpaceshipGenerator/CylindricalSpaceshipGenerator.cs:129-138 | the circumference UVs are duplicated at every hard edge, the copy for index 0 moved one unit right |
| Cylindrical.AddFarUvs | Assets/Scripts/SpaceshipGenerator/CylindricalSpaceshipGenerator.cs:139-149 | appends the far ring's UVs at v = 0.75 and the far cap's flipped to 1 - v |
| Cylindrical.ShiftHardEdges | Assets/Scripts/SpaceshipGenerator/CylindricalSpaceshipGenerator.cs:169-172 | hardEdgeIndices[i] += i for every i (Shifted) |
| Bookkeeping.ShiftedLayout | Assets/Scripts/SpaceshipGenerator/CylindricalSpaceshipGenerator.cs:169-172 | after the shift every index is the first of two equal consecutive split points, and the list stays ascending |
| Cylindrical.FillCapPoints | Assets/Scripts/SpaceshipGenerator/CylindricalSpaceshipGenerator.cs:159-167 | both caps get the unsplit ring at z = -MAX_RADIUS and at farCapIndexOffset with z = MAX_RADIUS; the ring slots are untouched |
| Cylindrical.FillCircumference | Assets/Scripts/SpaceshipGenerator/CylindricalSpaceshipGenerator.cs:174-201 | both rings get the split ring; one quad per non-duplicated point fills exactly 6 u triangle slots after the near cap |
| Cylindrical.QuadStep | Assets/Scripts/SpaceshipGenerator/CylindricalSpaceshipGenerator.cs:186-200 | a hard edge skips its quad; any other point writes the six quad slots; trianglesIndex tracks 6 times the quads written |
| Cylindrical.CopyCapTriangles | Assets/Scripts/SpaceshipGenerator/CylindricalSpaceshipGenerator.cs:203-208 | the triangulation is copied to the front and, shifted by 2c + u, to the end |
| Cylindrical.FarCapFlipInBounds | Assets/Scripts/SpaceshipGenerator/CylindricalSpaceshipGenerator.cs:204-211 | the far cap starts on a triangle boundary and every flipped pair is inside the array |
| Cylindrical.FlipFarCap | Assets/Scripts/SpaceshipGenerator/CylindricalSpaceshipGenerator.cs:209-211 | the far cap's triples are flipped |
| Cylindrical.BuildUnsplitRing | Assets/Scripts/SpaceshipGenerator/CylindricalSpaceshipGenerator.cs:40-117 | the closed ring and the cap-then-circumference UVs |
| Cylindrical.BuildMesh | Assets/Scripts/SpaceshipGenerator/CylindricalSpaceshipGenerator.cs:151-208 | points are CylinderPoints and triangles the assembled ones, of lengths 2u + 2c and 2|cap| + 6u |
| Cylindrical.AssembleMesh | Assets/Scripts/SpaceshipGenerator/CylindricalSpaceshipGenerator.cs:42-219 | points, triangles and UVs are MeshPoints, MeshTriangles and MeshUvs of the closed ring |
| Cylindrical.CylindricalSpaceshipGenerator.Generate | Assets/Scripts/SpaceshipGenerator/CylindricalSpaceshipGenerator.cs:39-220 | points, triangles and UVs are MeshPoints, MeshTriangles and MeshUvs of the sampled ring |
| Cylindrical.RingCounts | Assets/Scripts/SpaceshipGenerator/CylindricalSpaceshipGenerator.cs:122-157 | the split ring has one point per hard edge more, and one quad starts at each unsplit point |
| Cylindrical.MeshSizes | Assets/Scripts/SpaceshipGenerator/CylindricalSpaceshipGenerator.cs:139-157 | the UV count equals the point count, 8h + 2|edges|; the triangle count is 2|cap| + 6u, a multiple of 3 |
| Cylindrical.MeshTrianglesInRange | Assets/Scripts/SpaceshipGenerator/CylindricalSpaceshipGenerator.cs:152-211 | given cap indices below u, every triangle index is below 2u + 2c, the point count |
| Cylindrical.MeshNearCap | Assets/Scripts/SpaceshipGenerator/CylindricalSpaceshipGenerator.cs:203-211 | the flip leaves the near cap (the triangulation) and the quads alone |
| Cylindrical.MeshFarCap | Assets/Scripts/SpaceshipGenerator/CylindricalSpaceshipGenerator.cs:204-211 | the far cap is the triangulation with each triple's first two slots swapped, moved by u + 2c |
| Cylindrical.CylinderCaps | Assets/Scripts/SpaceshipGenerator/CylindricalSpaceshipGenerator.cs:205-208 | the assembled array starts with the near cap and ends with it shifted by u + 2c |
| Cylindrical.FlippedTail | Assets/Scripts/SpaceshipGenerator/CylindricalSpaceshipGenerator.cs:211 | flipping from a triple boundary to the end swaps each tail triple's first two slots and nothing before |
| Bookkeeping.ExpandSorted | Assets/Scripts/SpaceshipGenerator/SpaceshipGenerator.cs:43-47 | duplicating an ascending in-range index list adds exactly |d| entries, with index d[j] at d[j]+j followed by its copy |
| Bookkeeping.ExpandFromAt | Assets/Scripts/SpaceshipGenerator/SpaceshipGenerator.cs:43-47 | element k lands after the marked ones before it, and a marked element's copy follows it |
| Bookkeeping.ExpandFromLength | Assets/Scripts/SpaceshipGenerator/SpaceshipGenerator.cs:43-47 | each marked element adds one entry |
| Bookkeeping.KeptSpec | Assets/Scripts/SpaceshipGenerator/CylindricalSpaceshipGenerator.cs:186-191 | the quad starts are exactly the unmarked indices below c, ascending |
| Bookkeeping.KeptComplement | Assets/Scripts/SpaceshipGenerator/CylindricalSpaceshipGenerator.cs:186-191 | an ascending in-range list of c indices leaves c - |d| quad starts |
| Bookkeeping.KeptStep | Assets/Scripts/SpaceshipGenerator/CylindricalSpaceshipGenerator.cs:186-191 | an unmarked index is the next quad start; a marked one adds none |
| VectorExtensions.WrapAngleInRange | Assets/Scripts/Avrahamy/Math/VectorExtensions.cs:39-47 | one wrap step brings an angle in (-540, 540] into (-180, 180] by at most one turn and keeps an in-range angle |
| VectorExtensions.AnglesInRange | Assets/Scripts/Avrahamy/Math/VectorExtensions.cs:11-62 | with Atan2 in [-PI, PI] every angle getter answers in (-180, 180] and a direction is at angle 0 from itself |
| VectorExtensions.Atan2Degrees | Assets/Scripts/Avrahamy/Math/VectorExtensions.cs:39-47 | GetAngle2D answers in (-180, 180] |
| VectorExtensions.NormalizeToAcuteAngle | Assets/Scripts/Avrahamy/Math/VectorExtensions.cs:69-76 | ends with -180 <= to - from <= 180, moved by whole turns; an in-range to is unchanged, one coming from above ends above -180 and one from below ends below 180 |
| VectorExtensions.AcuteAngleAdmitsMinusHalfTurn | Assets/Scripts/Avrahamy/Math/VectorExtensions.cs:73 | from = 0, to = -180 is returned as -180, outside (-180, 180], and from = 0, to = -540 also ends at -180 |
| VectorExtensions.NormalizeToAcuteAngleHalfOpen | Assets/Scripts/Avrahamy/Math/VectorExtensions.cs:64-76 | the documented behaviour: ends with -180 < to - from <= 180, moved by whole turns |
| VectorExtensions.TurnStep | Assets/Scripts/Avrahamy/Math/VectorExtensions.cs:70-75 | adding or removing a turn keeps a whole number of turns |
| VectorExtensions.ProjectionRoundTrips | Assets/Scripts/Avrahamy/Math/VectorExtensions.cs:81-129 | ToVector2XZ(ToVector3XZ(v)) = v and ToVector2XY(ToVector3XY(v)) = v; the reverse holds exactly in the plane |
| VectorExtensions.ToVector2XZArray | Assets/Scripts/Avrahamy/Math/VectorExtensions.cs:88-95 | same length, element i is ToVector2XZ of input i |
| VectorExtensions.ToVector2XYArray | Assets/Scripts/Avrahamy/Math/VectorExtensions.cs:100-107 | same length, element i is ToVector2XY of input i |
| VectorExtensions.ToVector3XZArray | Assets/Scripts/Avrahamy/Math/VectorExtensions.cs:113-120 | same length, element i is ToVector3XZ of input i |
| VectorExtensions.ToVector3XYArray | Assets/Scripts/Avrahamy/Math/VectorExtensions.cs:122-129 | same length, element i is input i with z = 0 |
| VectorExtensions.RotateKeepsLength | Assets/Scripts/Avrahamy/Math/VectorExtensions.cs:153-162 | with sin^2 + cos^2 = 1 rotation keeps the squared length |
| VectorExtensions.QuarterTurn | Assets/Scripts/Avrahamy/Math/VectorExtensions.cs:153-181 | a counter-clockwise quarter turn is the negated clockwise perpendicular |
| VectorExtensions.PerpendicularProperties | Assets/Scripts/Avrahamy/Math/VectorExtensions.cs:179-181 | GetPerpendicularCW is orthogonal, as long as v; two applications negate v and four return it |
| VectorExtensions.PointDirectionSide | Assets/Scripts/Avrahamy/Math/VectorExtensions.cs:189-191 | PointDirection(v, p) is the dot product of GetPerpendicularCW(v) with p; it is 0 along v and antisymmetric |
| VectorExtensions.MultiplyChannelsAgree | Assets/Scripts/Avrahamy/Math/VectorExtensions.cs:201-237 | the overloads agree with the full 3D product, which is commutative with unit (1, 1, 1) |
| VectorExtensions.ClampInRange | Assets/Scripts/Avrahamy/Math/VectorExtensions.cs:246-247 | with min <= max a clamped value lies in [min, max], equals the value exactly when it was inside, and is idempotent |
| VectorExtensions.ClampChannelsInBox | Assets/Scripts/Avrahamy/Math/VectorExtensions.cs:245-256 | channel-wise clamping lands in the box, is idempotent, and the 2D overload agrees with the 3D one |
| VectorExtensions.AbsProperties | Assets/Scripts/Avrahamy/Math/VectorExtensions.cs:258-262 | Abs gives non-negative channels, keeps the length, is idempotent and ignores sign |
| VectorExtensions.GetClosest | Assets/Scripts/Avrahamy/Math/VectorExtensions.cs:271-281 | returns point when no element is nearer than float.MaxValue; otherwise the earliest element with minimal squared distance |
| BitArray.AnyBitArray.BitAnd | Library/PackageCache/com.unity.render-pipelines.core@10.8.1/Runtime/Utilities/BitArray.cs:128 | None exactly when the widths differ (the failing cast); otherwise the same width with bit k set iff set in both |
| BitArray.AnyBitArray.BitOr | Library/PackageCache/com.unity.render-pipelines.core@10.8.1/Runtime/Utilities/BitArray.cs:134 | None exactly when the widths differ; otherwise the same width with bit k set iff set in either |
| BitArray.AnyBitArray.BitNot | Library/PackageCache/com.unity.render-pipelines.core@10.8.1/Runtime/Utilities/BitArray.cs:139 | the same width with every bit inverted |
| BitArray.FixedBinary | Library/PackageCache/com.unity.render-pipelines.core@10.8.1/Runtime/Utilities/BitArray.cs:67 | w characters, character i the digit of bit w-1-i (most significant first) |
| BitArray.PaddedNumeral | Library/PackageCache/com.unity.render-pipelines.core@10.8.1/Runtime/Utilities/BitArray.cs:67 | the space-padded binary numeral with spaces replaced by '0' is exactly the w-digit binary form |
| BitArray.GroupedNumeral | Library/PackageCache/com.unity.render-pipelines.core@10.8.1/Runtime/Utilities/BitArray.cs:185 | Regex.Replace(".{8}", "$0.") then TrimEnd('.') of the padded numeral gives groups of 8 digits separated by '.', no trailing '.' |
| BitArray.GroupedDigits | Library/PackageCache/com.unity.render-pipelines.core@10.8.1/Runtime/Utilities/BitArray.cs:185 | the dot insertion and trim group any digit string whose length is a multiple of 8 |
| BitArray.DottedGroups | Library/PackageCache/com.unity.render-pipelines.core@10.8.1/Runtime/Utilities/BitArray.cs:185 | before trimming every group of 8 is followed by '.' |
| BitArray.PaddedBinary | Library/PackageCache/com.unity.render-pipelines.core@10.8.1/Runtime/Utilities/BitArray.cs:67 | the padding and replacement yield FixedBinary for n < 2^w |
| BitArray.Pow2Widths | Library/PackageCache/com.unity.render-pipelines.core@10.8.1/Runtime/Utilities/BitArray.cs:61-65 | 2^8, 2^16, 2^32 and 2^64 are the four value ranges |
| BitArray.BitArray8.FromIndexList | Library/PackageCache/com.unity.render-pipelines.core@10.8.1/Runtime/Utilities/BitArray.cs:89-100 | the built value is IndexListValue8: the loop from the last index down ORs in each index below 8 and skips the rest |
| BitArray.IndexListValue8 | Library/PackageCache/com.unity.render-pipelines.core@10.8.1/Runtime/Utilities/BitArray.cs:89-100 | bit k (k < 8) is set exactly when the list is not null and contains k; a null list gives all zeros |
| BitArray.MaskBits8 | Library/PackageCache/com.unity.render-pipelines.core@10.8.1/Runtime/Utilities/BitArray.cs:89-100 | bit k of the folded mask is set exactly when k is in the list |
| BitArray.BitArray8.AllFalse | Library/PackageCache/com.unity.render-pipelines.core@10.8.1/Runtime/Utilities/BitArray.cs:63 | true exactly when no bit is set (data == 0) |
| BitArray.BitArray8.AllTrue | Library/PackageCache/com.unity.render-pipelines.core@10.8.1/Runtime/Utilities/BitArray.cs:65 | true exactly when every bit is set (data is all ones) |
| BitArray.BitArray8.Not | Library/PackageCache/com.unity.render-pipelines.core@10.8.1/Runtime/Utilities/BitArray.cs:107 | every bit inverted |
| BitArray.BitArray8.Or | Library/PackageCache/com.unity.render-pipelines.core@10.8.1/Runtime/Utilities/BitArray.cs:114 | bit k set exactly when set in either operand |
| BitArray.BitArray8.And | Library/PackageCache/com.unity.render-pipelines.core@10.8.1/Runtime/Utilities/BitArray.cs:121 | bit k set exactly when set in both operands |
| BitArray.BitArray8.Eq | Library/PackageCache/com.unity.render-pipelines.core@10.8.1/Runtime/Utilities/BitArray.cs:147 | true exactly when the values are equal, which is when every bit agrees |
| BitArray.BitArray8.Neq | Library/PackageCache/com.unity.render-pipelines.core@10.8.1/Runtime/Utilities/BitArray.cs:154 | the negation of == |
| BitArray.BitArray8.Equals | Library/PackageCache/com.unity.render-pipelines.core@10.8.1/Runtime/Utilities/BitArray.cs:160 | true exactly for a boxed BitArray8 with the same data |
| BitArray.BitArray8.HumanizedData | Library/PackageCache/com.unity.render-pipelines.core@10.8.1/Runtime/Utilities/BitArray.cs:67 | exactly 8 characters '0'/'1', most significant bit first |
| BitArray.AllClear8 | Library/PackageCache/com.unity.render-pipelines.core@10.8.1/Runtime/Utilities/BitArray.cs:63 | data is 0 exactly when no bit is set |
| BitArray.SameBits8 | Library/PackageCache/com.unity.render-pipelines.core@10.8.1/Runtime/Utilities/BitArray.cs:147 | two values are equal exactly when all bits agree |
| BitArray.NotNot8 | Library/PackageCache/com.unity.render-pipelines.core@10.8.1/Runtime/Utilities/BitArray.cs:107 | ~~a == a and (~a).allTrue == a.allFalse |
| BitArray.OrAndLaws8 | Library/PackageCache/com.unity.render-pipelines.core@10.8.1/Runtime/Utilities/BitArray.cs:114-121 | | and & are commutative and a & ~a is allFalse |
| BitArray.EqualityAgrees8 | Library/PackageCache/com.unity.render-pipelines.core@10.8.1/Runtime/Utilities/BitArray.cs:147-160 | ==, != and Equals agree |
| BitArray.BitArray16.FromIndexList | Library/PackageCache/com.unity.render-pipelines.core@10.8.1/Runtime/Utilities/BitArray.cs:208-219 | the built value is IndexListValue16: the loop from the last index down ORs in each index below 16 and skips the rest |
| BitArray.IndexListValue16 | Library/PackageCache/com.unity.render-pipelines.core@10.8.1/Runtime/Utilities/BitArray.cs:208-219 | bit k (k < 16) is set exactly when the list is not null and contains k; a null list gives all zeros |
| BitArray.MaskBits16 | Library/PackageCache/com.unity.render-pipelines.core@10.8.1/Runtime/Utilities/BitArray.cs:208-219 | bit k of the folded mask is set exactly when k is in the list |
| BitArray.BitArray16.AllFalse | Library/PackageCache/com.unity.render-pipelines.core@10.8.1/Runtime/Utilities/BitArray.cs:181 | true exactly when no bit is set (data == 0) |
| BitArray.BitArray16.AllTrue | Library/PackageCache/com.unity.render-pipelines.core@10.8.1/Runtime/Utilities/BitArray.cs:183 | true exactly when every bit is set (data is all ones) |
| BitArray.BitArray16.Not | Library/PackageCache/com.unity.render-pipelines.core@10.8.1/Runtime/Utilities/BitArray.cs:226 | every bit inverted |
| BitArray.BitArray16.Or | Library/PackageCache/com.unity.render-pipelines.core@10.8.1/Runtime/Utilities/BitArray.cs:233 | bit k set exactly when set in either operand |
| BitArray.BitArray16.And | Library/PackageCache/com.unity.render-pipelines.core@10.8.1/Runtime/Utilities/BitArray.cs:240 | bit k set exactly when set in both operands |
| BitArray.BitArray16.Eq | Library/PackageCache/com.unity.render-pipelines.core@10.8.1/Runtime/Utilities/BitArray.cs:266 | true exactly when the values are equal, which is when every bit agrees |
| BitArray.BitArray16.Neq | Library/PackageCache/com.unity.render-pipelines.core@10.8.1/Runtime/Utilities/BitArray.cs:273 | the negation of == |
| BitArray.BitArray16.Equals | Library/PackageCache/com.unity.render-pipelines.core@10.8.1/Runtime/Utilities/BitArray.cs:279 | true exactly for a boxed BitArray16 with the same data |
| BitArray.BitArray16.HumanizedData | Library/PackageCache/com.unity.render-pipelines.core@10.8.1/Runtime/Utilities/BitArray.cs:185 | the 16 binary digits, most significant first, in groups of 8 separated by '.', no trailing '.' |
| BitArray.AllClear16 | Library/PackageCache/com.unity.render-pipelines.core@10.8.1/Runtime/Utilities/BitArray.cs:181 | data is 0 exactly when no bit is set |
| BitArray.SameBits16 | Library/PackageCache/com.unity.render-pipelines.core@10.8.1/Runtime/Utilities/BitArray.cs:266 | two values are equal exactly when all bits agree |
| BitArray.NotNot16 | Library/PackageCache/com.unity.render-pipelines.core@10.8.1/Runtime/Utilities/BitArray.cs:226 | ~~a == a and (~a).allTrue == a.allFalse |
| BitArray.OrAndLaws16 | Library/PackageCache/com.unity.render-pipelines.core@10.8.1/Runtime/Utilities/BitArray.cs:233-240 | | and & are commutative and a & ~a is allFalse |
| BitArray.EqualityAgrees16 | Library/PackageCache/com.unity.render-pipelines.core@10.8.1/Runtime/Utilities/BitArray.cs:266-279 | ==, != and Equals agree |
| BitArray.BitArray32.FromIndexList | Library/PackageCache/com.unity.render-pipelines.core@10.8.1/Runtime/Utilities/BitArray.cs:328-339 | the built value is IndexListValue32: the loop from the last index down ORs in each index below 32 and skips the rest |
| BitArray.IndexListValue32 | Library/PackageCache/com.unity.render-pipelines.core@10.8.1/Runtime/Utilities/BitArray.cs:328-339 | bit k (k < 32) is set exactly when the list is not null and contains k; a null list gives all zeros |
| BitArray.MaskBits32 | Library/PackageCache/com.unity.render-pipelines.core@10.8.1/Runtime/Utilities/BitArray.cs:328-339 | bit k of the folded mask is set exactly when k is in the list |
| BitArray.BitArray32.AllFalse | Library/PackageCache/com.unity.render-pipelines.core@10.8.1/Runtime/Utilities/BitArray.cs:300 | true exactly when no bit is set (data == 0) |
| BitArray.BitArray32.AllTrue | Library/PackageCache/com.unity.render-pipelines.core@10.8.1/Runtime/Utilities/BitArray.cs:302 | true exactly when every bit is set (data is all ones) |
| BitArray.BitArray32.Not | Library/PackageCache/com.unity.render-pipelines.core@10.8.1/Runtime/Utilities/BitArray.cs:364 | every bit inverted |
| BitArray.BitArray32.Or | Library/PackageCache/com.unity.render-pipelines.core@10.8.1/Runtime/Utilities/BitArray.cs:371 | bit k set exactly when set in either operand |
| BitArray.BitArray32.And | Library/PackageCache/com.unity.render-pipelines.core@10.8.1/Runtime/Utilities/BitArray.cs:378 | bit k set exactly when set in both operands |
| BitArray.BitArray32.Eq | Library/PackageCache/com.unity.render-pipelines.core@10.8.1/Runtime/Utilities/BitArray.cs:386 | true exactly when the values are equal, which is when every bit agrees |
| BitArray.BitArray32.Neq | Library/PackageCache/com.unity.render-pipelines.core@10.8.1/Runtime/Utilities/BitArray.cs:393 | the negation of == |
| BitArray.BitArray32.Equals | Library/PackageCache/com.unity.render-pipelines.core@10.8.1/Runtime/Utilities/BitArray.cs:399 | true exactly for a boxed BitArray32 with the same data |
| BitArray.BitArray32.HumanizedData | Library/PackageCache/com.unity.render-pipelines.core@10.8.1/Runtime/Utilities/BitArray.cs:305 | the 32 binary digits, most significant first, in groups of 8 separated by '.', no trailing '.' |
| BitArray.AllClear32 | Library/PackageCache/com.unity.render-pipelines.core@10.8.1/Runtime/Utilities/BitArray.cs:300 | data is 0 exactly when no bit is set |
| BitArray.SameBits32 | Library/PackageCache/com.unity.render-pipelines.core@10.8.1/Runtime/Utilities/BitArray.cs:386 | two values are equal exactly when all bits agree |
| BitArray.NotNot32 | Library/PackageCache/com.unity.render-pipelines.core@10.8.1/Runtime/Utilities/BitArray.cs:364 | ~~a == a and (~a).allTrue == a.allFalse |
| BitArray.OrAndLaws32 | Library/PackageCache/com.unity.render-pipelines.core@10.8.1/Runtime/Utilities/BitArray.cs:371-378 | | and & are commutative and a & ~a is allFalse |
| BitArray.EqualityAgrees32 | Library/PackageCache/com.unity.render-pipelines.core@10.8.1/Runtime/Utilities/BitArray.cs:386-399 | ==, != and Equals agree |
| BitArray.BitArray64.FromIndexList | Library/PackageCache/com.unity.render-pipelines.core@10.8.1/Runtime/Utilities/BitArray.cs:447-458 | the built value is IndexListValue64: the loop from the last index down ORs in each index below 64 and skips the rest |
| BitArray.IndexListValue64 | Library/PackageCache/com.unity.render-pipelines.core@10.8.1/Runtime/Utilities/BitArray.cs:447-458 | bit k (k < 64) is set exactly when the list is not null and contains k; a null list gives all zeros |
| BitArray.MaskBits64 | Library/PackageCache/com.unity.render-pipelines.core@10.8.1/Runtime/Utilities/BitArray.cs:447-458 | bit k of the folded mask is set exactly when k is in the list |
| BitArray.BitArray64.AllFalse | Library/PackageCache/com.unity.render-pipelines.core@10.8.1/Runtime/Utilities/BitArray.cs:420 | true exactly when no bit is set (data == 0) |
| BitArray.BitArray64.AllTrue | Library/PackageCache/com.unity.render-pipelines.core@10.8.1/Runtime/Utilities/BitArray.cs:422 | true exactly when every bit is set (data is all ones) |
| BitArray.BitArray64.Not | Library/PackageCache/com.unity.render-pipelines.core@10.8.1/Runtime/Utilities/BitArray.cs:465 | every bit inverted |
| BitArray.BitArray64.Or | Library/PackageCache/com.unity.render-pipelines.core@10.8.1/Runtime/Utilities/BitArray.cs:472 | bit k set exactly when set in either operand |
| BitArray.BitArray64.And | Library/PackageCache/com.unity.render-pipelines.core@10.8.1/Runtime/Utilities/BitArray.cs:479 | bit k set exactly when set in both operands |
| BitArray.BitArray64.Eq | Library/PackageCache/com.unity.render-pipelines.core@10.8.1/Runtime/Utilities/BitArray.cs:505 | true exactly when the values are equal, which is when every bit agrees |
| BitArray.BitArray64.Neq | Library/PackageCache/com.unity.render-pipelines.core@10.8.1/Runtime/Utilities/BitArray.cs:512 | the negation of == |
| BitArray.BitArray64.Equals | Library/PackageCache/com.unity.render-pipelines.core@10.8.1/Runtime/Utilities/BitArray.cs:518 | true exactly for a boxed BitArray64 with the same data |
| BitArray.BitArray64.HumanizedData | Library/PackageCache/com.unity.render-pipelines.core@10.8.1/Runtime/Utilities/BitArray.cs:424 | the 64 binary digits, most significant first, in groups of 8 separated by '.', no trailing '.' |
| BitArray.AllClear64 | Library/PackageCache/com.unity.render-pipelines.core@10.8.1/Runtime/Utilities/BitArray.cs:420 | data is 0 exactly when no bit is set |
| BitArray.SameBits64 | Library/PackageCache/com.unity.render-pipelines.core@10.8.1/Runtime/Utilities/BitArray.cs:505 | two values are equal exactly when all bits agree |
| BitArray.NotNot64 | Library/PackageCache/com.unity.render-pipelines.core@10.8.1/Runtime/Utilities/BitArray.cs:465 | ~~a == a and (~a).allTrue == a.allFalse |
| BitArray.OrAndLaws64 | Library/PackageCache/com.unity.render-pipelines.core@10.8.1/Runtime/Utilities/BitArray.cs:472-479 | | and & are commutative and a & ~a is allFalse |
| BitArray.EqualityAgrees64 | Library/PackageCache/com.unity.render-pipelines.core@10.8.1/Runtime/Utilities/BitArray.cs:505-518 | ==, != and Equals agree |

## Left out

- Engine I/O is not modelled: `mesh.SetPoints`, `mesh.Mesh.uv` and the `Debug.LogError` messages of `OnValidate`. The buffers are returned instead.
- `Triangulator.Triangulate` is not part of this model. Its result is an input sequence of whole triangles (length a multiple of 3). The in-range property assumes its indices are below the unsplit ring's size.
- `FloatRange`/`IntRange.RandomInside` and `Random.value` are not part of this model. Their draws are parameters. `AngleSumBounds` assumes `Random.value` and `angleRandomAmount` lie in [0, 1], as the engine and the inspector's range attribute promise.
- Floating-point rounding, NaN and infinity are not modelled, because coordinates are reals.
  - Exact sine, cosine, arctangent and normalisation values are parameters; lemmas that need a property of them (Pythagorean identity, the range of Atan2, unit directions) take it as a precondition.
  - For `divisions == 0` the source divides 0f by 0. `Plane.PlaneGenerator.Generate` takes that quotient (NaN in C#) as a parameter.
- `Cylindrical.CylindricalSpaceshipGenerator.Generate` requires at least one cross-section point, which `OnValidate` guarantees. With zero points the half ring is the bottom point alone, and the cap loops then emit three UVs for a two-point ring.
- The cylindrical UV constants are modelled, but only the position bands they lie in are proved, not finer geometric facts.
- `RotateInDegreesAroundX/Y/Z`, `Rotate(Vector3, degrees, axis)`, `DirectionToSlope`, `GetWithMagnitude`, `DivideChannels`, `Approximately`, `DistanceFromLine` and `FastComparableDistanceFromLineXZ` are left out. They are quaternion, normalisation or floating-point helpers that no core operation depends on.
- `BitArray128` is left out: the available source file is cut off inside it.
- The bit-array indexer (`this[uint]`) is left out: it calls `BitArrayUtilities.Get*/Set*`, which is not part of this model. `Has(k)` states the meaning of bit k directly on `data`.
- `GetHashCode` and the serialization and debugger attributes of the bit arrays are left out: they have no behaviour to prove.
- `BitArray.AnyBitArray.BitAnd`: a null `other` (a `NullReferenceException` in C#) is not modelled; only the failing cast between widths is.
- `BitArray.AnyBitArray.BitOr`: a null `other` (a `NullReferenceException` from the same unboxing cast) is not modelled; only the failing cast between widths is.
- `SpaceshipGenerator.FlipTriangles`: requires every swapped pair to lie inside the array and `fromIndex >= 0` (`FlipInBounds`). Outside that the source swaps some triples and then throws `IndexOutOfRangeException`; that partial flip and the exception are not modelled. The one caller, the cylindrical far cap, is in bounds (`Cylindrical.FarCapFlipInBounds`).
- The bit-array structs are values, so `BitAnd`, `BitOr` and `BitNot` leave the receiver unchanged by construction. No separate lemma states it.
- Each `BitArrayN.HumanizedData` states its digits through the bits of `data` read as a natural number, not through `Has(k)`: relating a bit-vector to its numeric value is outside what the verifier handles here.
- Some loop bodies are split into helper methods (`HalfSectionStep`, `QuadStep`, `FillRingPoint`, `EmitRow`, ...). They compute what the loop body computes, in the same order.

## Findings

| source | as written | input that shows it | evidently intended | confidence | as-written member | corrected member |
|---|---|---|---|---|---|---|
| Assets/Scripts/Avrahamy/Math/VectorExtensions.cs:69-76 | the second loop runs only while `to - from < -180`, so a difference of exactly -180 is kept | from = 0, to = -180 returns -180 | a result in (-180, 180] as the doc comment says, i.e. the loop condition `<= -180` | not executed; high | VectorExtensions.AcuteAngleAdmitsMinusHalfTurn | VectorExtensions.NormalizeToAcuteAngleHalfOpen |
