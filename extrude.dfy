/**
 * Mesh.extrudePolygonMesh: a mesh holding one polygon becomes a prism. The source
 * vertices are copied, a displaced copy of each is added along the polygon's
 * normal scaled by the distance, and the polygons are the displaced cap, one wall
 * per edge and the original polygon flipped; the result goes through createMesh,
 * whose sanityCheck is modelled by its index part.
 */
module Extrusion {
  import opened Wrappers
  import opened Vectors
  import opened Meshes

  datatype ExtrudeError =
    | TooManyPolygons          // more than one polygon in the source mesh
    | ArrayTooLarge            // 2 * n overflows int: a negative array size
    | NoPolygon                // polygons.get(0) on an empty list
    | VertexOutOfBounds        // an array access outside its bounds
    | MissingVertex            // a corner read from the still empty upper half (null)
    | Insane(error: MeshError) // createMesh's sanityCheck rejects the result

  /** The displacement: the normal E01 x E12 of the first three corners, normalised and scaled. */
  function Displacement(p0: Vec4, p1: Vec4, p2: Vec4, distance: real, sqrt: real -> real): Vec4
  {
    Scale3(Normalized(Cross(Sub3(p1, p0), Sub3(p2, p1)), sqrt), distance)
  }

  /** Index i of the cap: the polygon's index i shifted to the displaced copies, in int arithmetic. */
  function CapIndex(idx: seq<int>, n: int, i: int): int
    requires 0 <= i < |idx|
  {
    Int32(idx[i] + n)
  }

  function CapIndexes(idx: seq<int>, n: int, k: nat): (r: seq<int>)
    requires k <= |idx|
    ensures |r| == k
  {
    seq(k, i requires 0 <= i < k => CapIndex(idx, n, i))
  }

  /** Wall i: the base edge from corner i to corner i + 1 and the cap edge back. */
  function Wall(idx: seq<int>, cap: seq<int>, n: nat, i: int, color: Option<int>): Polygon3D
    requires 0 <= i < n <= |idx| && |cap| == n
  {
    Polygon3D([idx[i], idx[(i + 1) % n], cap[(i + 1) % n], cap[i]], color)
  }

  function Walls(idx: seq<int>, cap: seq<int>, n: nat, k: nat, color: Option<int>): (r: seq<Polygon3D>)
    requires k <= n <= |idx| && |cap| == n
    ensures |r| == k
  {
    seq(k, i requires 0 <= i < k => Wall(idx, cap, n, i, color))
  }

  function FlippedIndex(idx: seq<int>, n: nat, i: int): int
    requires 0 <= i < n <= |idx|
  {
    idx[n - i - 1]
  }

  function FlippedIndexes(idx: seq<int>, n: nat, k: nat): (r: seq<int>)
    requires k <= n <= |idx|
    ensures |r| == k
  {
    seq(k, i requires 0 <= i < k => FlippedIndex(idx, n, i))
  }

  function DisplacedVertex(vs: seq<Vec4>, d: Vec4, i: int): Vec4
    requires 0 <= i < |vs|
  {
    Add3(vs[i], d)
  }

  function DisplacedVertices(vs: seq<Vec4>, d: Vec4, k: nat): (r: seq<Vec4>)
    requires k <= |vs|
    ensures |r| == k
  {
    seq(k, i requires 0 <= i < k => DisplacedVertex(vs, d, i))
  }

  /** The polygons of the prism: cap, walls, flipped base, all with the source polygon's colour. */
  function PrismPolygons(p: Polygon3D, n: nat): seq<Polygon3D>
    requires n <= |p.indexes|
  {
    var cap := CapIndexes(p.indexes, n, n);
    [Polygon3D(cap, p.colorIndex)] + Walls(p.indexes, cap, n, n, p.colorIndex) +
    [Polygon3D(FlippedIndexes(p.indexes, n, n), p.colorIndex)]
  }

  /** The corner reads P0, P1, P2 from the half-filled vertex array of length 2n. */
  function CornerError(idx: seq<int>, n: int): Option<ExtrudeError>
  {
    if |idx| < 3 || !(0 <= idx[0] < 2 * n) || !(0 <= idx[1] < 2 * n) || !(0 <= idx[2] < 2 * n) then
      Some(VertexOutOfBounds)
    else if idx[0] >= n || idx[1] >= n || idx[2] >= n then Some(MissingVertex)
    else None
  }

  /** extrudePolygonMesh, with its failures in the order the source meets them. */
  function Extruded(id: string, source: Mesh, distance: real, sqrt: real -> real): Result<Mesh, ExtrudeError>
  {
    var n := |source.vertices|;
    if |source.polygons| > 1 then Err(TooManyPolygons)
    else if n >= 0x4000_0000 then Err(ArrayTooLarge)
    else if |source.polygons| == 0 then Err(NoPolygon)
    else
      var p := source.polygons[0];
      var idx := p.indexes;
      if CornerError(idx, n).Some? then Err(CornerError(idx, n).value)
      else if |idx| < n then Err(VertexOutOfBounds)
      else
        var vs := source.vertices;
        var d := Displacement(vs[idx[0]], vs[idx[1]], vs[idx[2]], distance, sqrt);
        var polys := PrismPolygons(p, n);
        var m := Mesh(id, vs + DisplacedVertices(vs, d, n), polys);
        if SanityIndexes(polys, 2 * n).Some? then Err(Insane(SanityIndexes(polys, 2 * n).value))
        else Ok(m)
  }

  // ------------------------------------------------------------ the loops

  /** The new Vector3D[2n] filled with clones of the source vertices in its lower half. */
  method CopyVertices(vs: seq<Vec4>) returns (vertices: array<Option<Vec4>>)
    ensures fresh(vertices) && vertices.Length == 2 * |vs|
    ensures forall j | 0 <= j < 2 * |vs| :: vertices[j] == if j < |vs| then Some(vs[j]) else None
  {
    var n := |vs|;
    vertices := new Option<Vec4>[n * 2](_ => None);
    for i := 0 to n
      invariant forall j | 0 <= j < 2 * n :: vertices[j] == if j < i then Some(vs[j]) else None
    {
      vertices[i] := Some(vs[i]);
    }
  }

  /** The cap loop: shifted indices, and the displaced copies stored in the upper half. */
  method FillCap(vertices: array<Option<Vec4>>, vs: seq<Vec4>, idx: seq<int>, d: Vec4) returns (cap: seq<int>)
    requires vertices.Length == 2 * |vs| && |vs| <= |idx|
    requires forall j | 0 <= j < 2 * |vs| :: vertices[j] == if j < |vs| then Some(vs[j]) else None
    modifies vertices
    ensures cap == CapIndexes(idx, |vs|, |vs|)
    ensures forall j | 0 <= j < 2 * |vs| ::
      vertices[j] == Some(if j < |vs| then vs[j] else DisplacedVertex(vs, d, j - |vs|))
  {
    var n := |vs|;
    cap := [];
    for i := 0 to n
      invariant cap == CapIndexes(idx, n, i)
      invariant forall j | 0 <= j < 2 * n ::
        vertices[j] == if j < n then Some(vs[j]) else if j < n + i then Some(DisplacedVertex(vs, d, j - n)) else None
    {
      cap := cap + [Int32(idx[i] + n)];
      vertices[i + n] := Some(Add3(vs[i], d));
    }
  }

  /** The wall loop. */
  method AddWalls(polygons: seq<Polygon3D>, idx: seq<int>, cap: seq<int>, n: nat, color: Option<int>)
    returns (r: seq<Polygon3D>)
    requires 0 < n <= |idx| && |cap| == n
    ensures r == polygons + Walls(idx, cap, n, n, color)
  {
    r := polygons;
    for i := 0 to n
      invariant r == polygons + Walls(idx, cap, n, i, color)
    {
      var indexes := [idx[i], idx[(i + 1) % n], cap[(i + 1) % n], cap[i]];
      assert Walls(idx, cap, n, i + 1, color) == Walls(idx, cap, n, i, color) + [Polygon3D(indexes, color)];
      r := r + [Polygon3D(indexes, color)];
    }
  }

  /** The flipped-base loop: the first n indices in reverse order. */
  method Flip(idx: seq<int>, n: nat) returns (flipped: seq<int>)
    requires n <= |idx|
    ensures flipped == FlippedIndexes(idx, n, n)
  {
    flipped := [];
    for i := 0 to n
      invariant flipped == FlippedIndexes(idx, n, i)
    {
      flipped := flipped + [idx[n - i - 1]];
    }
  }

  /** The vertex array, fully written, as the sequence createMesh receives. */
  method Values(vertices: array<Option<Vec4>>) returns (vs: seq<Vec4>)
    requires forall j | 0 <= j < vertices.Length :: vertices[j].Some?
    ensures |vs| == vertices.Length && forall j | 0 <= j < vertices.Length :: Some(vs[j]) == vertices[j]
  {
    vs := [];
    for i := 0 to vertices.Length
      invariant |vs| == i && forall j | 0 <= j < i :: Some(vs[j]) == vertices[j]
    {
      vs := vs + [vertices[i].value];
    }
  }

  method ExtrudePolygonMesh(id: string, source: Mesh, distance: real, sqrt: real -> real)
    returns (r: Result<Mesh, ExtrudeError>)
    ensures r == Extruded(id, source, distance, sqrt)
  {
    if |source.polygons| > 1 {
      return Err(TooManyPolygons);
    }
    var n := |source.vertices|;
    if n >= 0x4000_0000 {
      return Err(ArrayTooLarge);
    }
    var vertices := CopyVertices(source.vertices);
    if |source.polygons| == 0 {
      return Err(NoPolygon);
    }
    var polygon := source.polygons[0];
    var idx := polygon.indexes;
    if |idx| < 3 || !(0 <= idx[0] < 2 * n) || !(0 <= idx[1] < 2 * n) || !(0 <= idx[2] < 2 * n) {
      return Err(VertexOutOfBounds);
    }
    var p0, p1, p2 := vertices[idx[0]], vertices[idx[1]], vertices[idx[2]];
    if p0.None? || p1.None? || p2.None? {
      return Err(MissingVertex);
    }
    var d := Scale3(Normalized(Cross(Sub3(p1.value, p0.value), Sub3(p2.value, p1.value)), sqrt), distance);
    if |idx| < n {
      return Err(VertexOutOfBounds);
    }
    var cap := FillCap(vertices, source.vertices, idx, d);
    var polygons := [Polygon3D(cap, polygon.colorIndex)];
    polygons := AddWalls(polygons, idx, cap, n, polygon.colorIndex);
    var flipped := Flip(idx, n);
    polygons := polygons + [Polygon3D(flipped, polygon.colorIndex)];
    var vs := Values(vertices);
    assert vs == source.vertices + DisplacedVertices(source.vertices, d, n);
    var error := SanityCheck(Mesh(id, vs, polygons));
    if error.Some? {
      return Err(Insane(error.value));
    }
    return Ok(Mesh(id, vs, polygons));
  }

  // ------------------------------------------------------------ properties

  /** The int addition of the cap loop does not wrap for indices of the source mesh. */
  lemma Int32Exact(x: int)
    requires -0x8000_0000 <= x < 0x8000_0000
    ensures Int32(x) == x
  {
    assert (x + 0x8000_0000) % 0x1_0000_0000 == x + 0x8000_0000;
  }

  /** The first n indices address the source vertices. */
  predicate BaseInRange(idx: seq<int>, n: int)
  {
    n <= |idx| && forall i | 0 <= i < n :: 0 <= idx[i] < n
  }

  lemma CapInRange(idx: seq<int>, n: nat)
    requires BaseInRange(idx, n) && 3 <= n < 0x4000_0000
    ensures WellIndexed([Polygon3D(CapIndexes(idx, n, n), None)], 2 * n)
    ensures forall i | 0 <= i < n :: CapIndexes(idx, n, n)[i] == idx[i] + n
  {
    var cap := CapIndexes(idx, n, n);
    forall i | 0 <= i < n
      ensures cap[i] == idx[i] + n
    {
      Int32Exact(idx[i] + n);
    }
    assert InRange(cap, 2 * n);
  }

  lemma WallsInRange(idx: seq<int>, cap: seq<int>, n: nat, color: Option<int>)
    requires BaseInRange(idx, n) && n > 0 && |cap| == n
    requires forall i | 0 <= i < n :: cap[i] == idx[i] + n
    ensures WellIndexed(Walls(idx, cap, n, n, color), 2 * n)
  {
    var ws := Walls(idx, cap, n, n, color);
    forall i | 0 <= i < n
      ensures |ws[i].indexes| >= 3 && InRange(ws[i].indexes, 2 * n)
    {
      var j := (i + 1) % n;
      assert ws[i].indexes == [idx[i], idx[j], cap[j], cap[i]];
    }
  }

  lemma FlippedInRange(idx: seq<int>, n: nat, color: Option<int>)
    requires BaseInRange(idx, n) && n >= 3
    ensures WellIndexed([Polygon3D(FlippedIndexes(idx, n, n), color)], 2 * n)
  {
    var f := FlippedIndexes(idx, n, n);
    forall i | 0 <= i < n
      ensures 0 <= f[i] < 2 * n
    {
      assert f[i] == idx[n - i - 1];
    }
    assert InRange(f, 2 * n);
  }

  /** With its base in range, the prism passes sanityCheck's index tests. */
  lemma PrismWellIndexed(p: Polygon3D, n: nat)
    requires BaseInRange(p.indexes, n) && 3 <= n < 0x4000_0000
    ensures WellIndexed(PrismPolygons(p, n), 2 * n)
  {
    var cap := CapIndexes(p.indexes, n, n);
    CapInRange(p.indexes, n);
    WallsInRange(p.indexes, cap, n, p.colorIndex);
    FlippedInRange(p.indexes, n, p.colorIndex);
    assert WellIndexed([Polygon3D(cap, p.colorIndex)], 2 * n) by {
      assert [Polygon3D(cap, p.colorIndex)][0].indexes == [Polygon3D(cap, None)][0].indexes;
    }
    var a := [Polygon3D(cap, p.colorIndex)];
    var b := Walls(p.indexes, cap, n, n, p.colorIndex);
    var c := [Polygon3D(FlippedIndexes(p.indexes, n, n), p.colorIndex)];
    WellIndexedAppend(a, b, 2 * n);
    WellIndexedAppend(a + b, c, 2 * n);
  }

  /** Walls and cap in range force the first n indices into [0, n): the cap adds n without wrapping. */
  lemma BaseFromWalls(idx: seq<int>, n: nat, color: Option<int>)
    requires 0 < n <= |idx| && n < 0x4000_0000
    requires forall i | 0 <= i < n :: -0x8000_0000 <= idx[i] < 0x8000_0000
    requires InRange(CapIndexes(idx, n, n), 2 * n)
    requires WellIndexed(Walls(idx, CapIndexes(idx, n, n), n, n, color), 2 * n)
    ensures BaseInRange(idx, n)
  {
    var cap := CapIndexes(idx, n, n);
    var ws := Walls(idx, cap, n, n, color);
    forall i | 0 <= i < n
      ensures 0 <= idx[i] < n
    {
      assert ws[i].indexes[0] == idx[i];
      assert InRange(ws[i].indexes, 2 * n);
      assert cap[i] == Int32(idx[i] + n);
      CapForcesBase(idx[i], n);
    }
  }

  /** An index in [0, 2n) whose cap index idx + n (as a Java int) is also in [0, 2n) is below n. */
  lemma CapForcesBase(x: int, n: nat)
    requires n < 0x4000_0000 && 0 <= x < 2 * n
    requires 0 <= Int32(x + n) < 2 * n
    ensures x < n
  {
    if x + n < 0x8000_0000 {
      Int32Exact(x + n);
    } else {
      Int32WrapsOnce(x + n);
    }
  }

  lemma Int32WrapsOnce(x: int)
    requires 0x8000_0000 <= x < 0x1_8000_0000
    ensures Int32(x) == x - 0x1_0000_0000
  {
    assert (x + 0x8000_0000) % 0x1_0000_0000 == x + 0x8000_0000 - 0x1_0000_0000;
  }

  /**
   * A prism that passes sanityCheck's index tests has a base of at least 3 indices,
   * and the first n indices of the source polygon address source vertices.
   */
  lemma PrismWellIndexedOnlyIf(p: Polygon3D, n: nat)
    requires n <= |p.indexes| && n < 0x4000_0000
    requires forall i | 0 <= i < n :: -0x8000_0000 <= p.indexes[i] < 0x8000_0000
    requires WellIndexed(PrismPolygons(p, n), 2 * n)
    ensures n >= 3 && BaseInRange(p.indexes, n)
  {
    var idx := p.indexes;
    var ps := PrismPolygons(p, n);
    var cap := CapIndexes(idx, n, n);
    var ws := Walls(idx, cap, n, n, p.colorIndex);
    assert ps[0].indexes == cap;
    assert |cap| >= 3 && InRange(cap, 2 * n);
    assert WellIndexed(ws, 2 * n) by {
      forall i | 0 <= i < n
        ensures |ws[i].indexes| >= 3 && InRange(ws[i].indexes, 2 * n)
      {
        assert ws[i] == ps[1 + i];
      }
    }
    BaseFromWalls(idx, n, p.colorIndex);
  }

  /**
   * extrudePolygonMesh succeeds exactly when the source mesh has one polygon and
   * fewer than 2^30 vertices, at least 3 of them, and the polygon's first n indices
   * all address source vertices (indices being Java ints).
   */
  lemma ExtrudedOkIff(id: string, source: Mesh, distance: real, sqrt: real -> real)
    requires forall i, k | 0 <= i < |source.polygons| && 0 <= k < |source.polygons[i].indexes| ::
      -0x8000_0000 <= source.polygons[i].indexes[k] < 0x8000_0000
    ensures Extruded(id, source, distance, sqrt).Ok? <==>
      |source.polygons| == 1 && 3 <= |source.vertices| < 0x4000_0000 &&
      BaseInRange(source.polygons[0].indexes, |source.vertices|)
  {
    var n := |source.vertices|;
    if |source.polygons| == 1 && n < 0x4000_0000 {
      var p := source.polygons[0];
      if Extruded(id, source, distance, sqrt).Ok? {
        SanityIndexesIff(PrismPolygons(p, n), 2 * n);
        PrismWellIndexedOnlyIf(p, n);
      }
      if 3 <= n && BaseInRange(p.indexes, n) {
        SanityIndexesIff(PrismPolygons(p, n), 2 * n);
        PrismWellIndexed(p, n);
        assert CornerError(p.indexes, n).None?;
      }
    }
  }

  /**
   * The displacement is orthogonal to both edges E01 and E12 of the first three
   * corners and, with a true square root and non-collinear corners, has length
   * |distance|.
   */
  lemma DisplacementNormal(p0: Vec4, p1: Vec4, p2: Vec4, distance: real, sqrt: real -> real)
    ensures var d := Displacement(p0, p1, p2, distance, sqrt);
      Dot(d, Sub3(p1, p0)) == 0.0 && Dot(d, Sub3(p2, p1)) == 0.0
    ensures var c := Cross(Sub3(p1, p0), Sub3(p2, p1));
      IsSqrt(sqrt, SqMag(c)) && SqMag(c) != 0.0 ==>
      SqMag(Displacement(p0, p1, p2, distance, sqrt)) == distance * distance
  {
    var c := Cross(Sub3(p1, p0), Sub3(p2, p1));
    var u := Normalized(c, sqrt);
    NormalizedOrthogonal(c, Sub3(p1, p0), sqrt);
    NormalizedOrthogonal(c, Sub3(p2, p1), sqrt);
    DotScaledZero(u, Sub3(p1, p0), distance);
    DotScaledZero(u, Sub3(p2, p1), distance);
    SqMagScaled(u, distance);
    if IsSqrt(sqrt, SqMag(c)) && SqMag(c) != 0.0 {
      NormalizedIsUnit(c, sqrt);
    }
  }

  /**
   * The vertices of an extruded mesh: the source vertices, then each of them moved
   * by one displacement orthogonal to the first two edges of the polygon.
   */
  lemma ExtrudedVertices(id: string, source: Mesh, distance: real, sqrt: real -> real)
    requires Extruded(id, source, distance, sqrt).Ok?
    ensures var m := Extruded(id, source, distance, sqrt).value;
      var vs := source.vertices;
      var n := |vs|;
      var idx := source.polygons[0].indexes;
      var d := Displacement(vs[idx[0]], vs[idx[1]], vs[idx[2]], distance, sqrt);
      |m.vertices| == 2 * n && m.vertices[..n] == vs &&
      (forall i | 0 <= i < n :: m.vertices[n + i] == Add3(vs[i], d)) &&
      Dot(d, Sub3(vs[idx[1]], vs[idx[0]])) == 0.0 && Dot(d, Sub3(vs[idx[2]], vs[idx[1]])) == 0.0
  {
    var vs := source.vertices;
    var idx := source.polygons[0].indexes;
    DisplacementNormal(vs[idx[0]], vs[idx[1]], vs[idx[2]], distance, sqrt);
  }

  /** The cap: the base indices shifted by n. */
  predicate CapOf(cap: seq<int>, idx: seq<int>, n: nat)
    requires n <= |idx|
  {
    |cap| == n && forall i | 0 <= i < n :: cap[i] == idx[i] + n
  }

  /** Wall i joins the base edge from corner i to corner i + 1 to the matching cap edge. */
  predicate WallsOf(ws: seq<Polygon3D>, idx: seq<int>, n: nat)
    requires 0 < n <= |idx|
  {
    |ws| == n &&
    forall i | 0 <= i < n :: ws[i].indexes == [idx[i], idx[(i + 1) % n], idx[(i + 1) % n] + n, idx[i] + n]
  }

  /** The flipped base: the first n indices reversed. */
  predicate FlippedOf(f: seq<int>, idx: seq<int>, n: nat)
    requires n <= |idx|
  {
    |f| == n && forall i | 0 <= i < n :: f[i] == idx[n - 1 - i]
  }

  /** The layout of the prism: cap, walls and flipped base, all of one colour. */
  predicate PrismLayout(ps: seq<Polygon3D>, idx: seq<int>, n: nat, color: Option<int>)
    requires 0 < n <= |idx|
  {
    |ps| == n + 2 && (forall q | q in ps :: q.colorIndex == color) &&
    CapOf(ps[0].indexes, idx, n) && WallsOf(ps[1..n + 1], idx, n) && FlippedOf(ps[n + 1].indexes, idx, n)
  }

  lemma WallsLayout(idx: seq<int>, n: nat, color: Option<int>)
    requires BaseInRange(idx, n) && 3 <= n < 0x4000_0000
    ensures WallsOf(Walls(idx, CapIndexes(idx, n, n), n, n, color), idx, n)
    ensures forall w | w in Walls(idx, CapIndexes(idx, n, n), n, n, color) :: w.colorIndex == color
  {
    var cap := CapIndexes(idx, n, n);
    var ws := Walls(idx, cap, n, n, color);
    CapInRange(idx, n);
    forall i | 0 <= i < n
      ensures ws[i].indexes == [idx[i], idx[(i + 1) % n], idx[(i + 1) % n] + n, idx[i] + n]
    {
      assert ws[i] == Wall(idx, cap, n, i, color);
    }
  }

  lemma PrismLayoutHolds(p: Polygon3D, n: nat)
    requires BaseInRange(p.indexes, n) && 3 <= n < 0x4000_0000
    ensures PrismLayout(PrismPolygons(p, n), p.indexes, n, p.colorIndex)
  {
    var idx := p.indexes;
    var ps := PrismPolygons(p, n);
    var cap := CapIndexes(idx, n, n);
    var ws := Walls(idx, cap, n, n, p.colorIndex);
    CapInRange(idx, n);
    WallsLayout(idx, n, p.colorIndex);
    assert ps == [Polygon3D(cap, p.colorIndex)] + ws + [Polygon3D(FlippedIndexes(idx, n, n), p.colorIndex)];
    assert ps[1..n + 1] == ws;
    assert FlippedOf(ps[n + 1].indexes, idx, n);
  }

  /**
   * The polygons of an extruded mesh follow PrismLayout: the cap, one wall per base
   * edge and the base reversed, all with the base's colour.
   */
  lemma ExtrudedPolygons(id: string, source: Mesh, distance: real, sqrt: real -> real)
    requires Extruded(id, source, distance, sqrt).Ok?
    requires forall k | 0 <= k < |source.polygons[0].indexes| ::
      -0x8000_0000 <= source.polygons[0].indexes[k] < 0x8000_0000
    ensures 0 < |source.vertices| <= |source.polygons[0].indexes|
    ensures PrismLayout(Extruded(id, source, distance, sqrt).value.polygons,
      source.polygons[0].indexes, |source.vertices|, source.polygons[0].colorIndex)
  {
    var n := |source.vertices|;
    var p := source.polygons[0];
    SanityIndexesIff(PrismPolygons(p, n), 2 * n);
    PrismWellIndexedOnlyIf(p, n);
    PrismLayoutHolds(p, n);
  }
}
