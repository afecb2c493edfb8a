/**
 * The built-in shapes of Mesh: the exact tables of the square, cube and pyramid,
 * and the index tables of the cone, cylinder, sphere and regular polygon, whose
 * vertex coordinates come from cos/sin and are not modelled (only their number is).
 */
module Shapes {
  import opened Wrappers
  import opened Vectors
  import opened Meshes
  import opened Arithmetic

  /** The shape of a mesh without its vertex coordinates. */
  datatype Topology = Topology(vertexCount: nat, polygons: seq<Polygon3D>)

  datatype ShapeError =
    | NTooSmall(n: int)        // cone and cylinder need N > 3, a regular polygon N >= 3
    | N4TooSmall(n4: int)      // the sphere needs N4 > 0
    | ArgumentsRequired        // regularPolygon without shapeArguments
    | NRequired                // shapeArguments without N
    | NotANumber               // N is not a JSON number
    | NotAnInt(x: real)        // N is not an integer that fits in an int

  /** The JSON value given for an argument: a number, or anything else. */
  datatype Argument = Number(value: real) | NonNumber

  datatype Shape = square | cube | pyramid | cone | cylinder | sphere | regularPolygon  // the enum Mesh.Shape

  /** A polygon without a colour index. */
  function Poly(indexes: seq<int>): Polygon3D
  {
    Polygon3D(indexes, None)
  }

  /** The three-argument Vector3D constructor: a point with w = 1. */
  function Point(x: real, y: real, z: real): Vec4
  {
    Vec4(x, y, z, 1.0)
  }

  function TopologyOf(m: Mesh): Topology
  {
    Topology(|m.vertices|, m.polygons)
  }

  /** 0, 1, ..., n - 1. */
  function Range(n: nat): (r: seq<int>)
    ensures |r| == n && forall i | 0 <= i < n :: r[i] == i
  {
    seq(n, i => i)
  }

  lemma RangeStep(i: nat)
    ensures Range(i + 1) == Range(i) + [i]
  {
  }

  // ------------------------------------------------------------ exact tables

  function SquareMesh(): Mesh
  {
    Mesh("native:square",
      [Point(-0.5, 0.0, -0.5), Point(-0.5, 0.0, 0.5), Point(0.5, 0.0, 0.5), Point(0.5, 0.0, -0.5)],
      [Poly([0, 1, 2, 3])])
  }

  function CubeMesh(): Mesh
  {
    Mesh("native:cube",
      [Point(-0.5, 0.0, -0.5), Point(-0.5, 0.0, 0.5), Point(0.5, 0.0, 0.5), Point(0.5, 0.0, -0.5),
       Point(-0.5, 1.0, -0.5), Point(-0.5, 1.0, 0.5), Point(0.5, 1.0, 0.5), Point(0.5, 1.0, -0.5)],
      [Poly([3, 2, 1, 0]), Poly([4, 5, 6, 7]), Poly([0, 1, 5, 4]),
       Poly([1, 2, 6, 5]), Poly([2, 3, 7, 6]), Poly([0, 4, 7, 3])])
  }

  function PyramidMesh(): Mesh
  {
    Mesh("native:pyramid",
      [Point(-0.5, 0.0, -0.5), Point(-0.5, 0.0, 0.5), Point(0.5, 0.0, 0.5), Point(0.5, 0.0, -0.5),
       Point(0.0, 1.0, 0.0)],
      [Poly([0, 3, 2, 1]), Poly([1, 2, 4]), Poly([2, 3, 4]), Poly([3, 0, 4]), Poly([0, 1, 4])])
  }

  /** The 24 directed edges of the cube, polygon by polygon. */
  lemma CubeEdges()
    ensures NonEmptyPolygons(CubeMesh().polygons)
    ensures Edges(CubeMesh().polygons) == [Edge(0, 3), Edge(3, 2), Edge(2, 1), Edge(1, 0), Edge(7, 4), Edge(4, 5), Edge(5, 6), Edge(6, 7), Edge(4, 0), Edge(0, 1), Edge(1, 5), Edge(5, 4), Edge(5, 1), Edge(1, 2), Edge(2, 6), Edge(6, 5), Edge(6, 2), Edge(2, 3), Edge(3, 7), Edge(7, 6), Edge(3, 0), Edge(0, 4), Edge(4, 7), Edge(7, 3)]
  {
    var ps := CubeMesh().polygons;
    LowerCubeEdges(ps);
    PolyEdges4(1, 2, 6, 5);
    PolyEdges4(2, 3, 7, 6);
    PolyEdges4(0, 4, 7, 3);
    assert ps[..6] == ps;
    EdgesStep(ps, 3); EdgesStep(ps, 4); EdgesStep(ps, 5);
  }

  /** The first twelve, from the bottom, the top and the first side. */
  lemma LowerCubeEdges(ps: seq<Polygon3D>)
    requires ps == CubeMesh().polygons
    ensures NonEmptyPolygons(ps)
    ensures Edges(ps[..3]) ==
      [Edge(0, 3), Edge(3, 2), Edge(2, 1), Edge(1, 0),
       Edge(7, 4), Edge(4, 5), Edge(5, 6), Edge(6, 7),
       Edge(4, 0), Edge(0, 1), Edge(1, 5), Edge(5, 4)]
  {
    PolyEdges4(3, 2, 1, 0);
    PolyEdges4(4, 5, 6, 7);
    PolyEdges4(0, 1, 5, 4);
    assert ps[..0] == [];
    EdgesStep(ps, 0); EdgesStep(ps, 1); EdgesStep(ps, 2);
  }

  /** The 16 directed edges of the pyramid. */
  lemma PyramidEdges()
    ensures NonEmptyPolygons(PyramidMesh().polygons)
    ensures Edges(PyramidMesh().polygons) == [Edge(1, 0), Edge(0, 3), Edge(3, 2), Edge(2, 1), Edge(4, 1), Edge(1, 2), Edge(2, 4), Edge(4, 2), Edge(2, 3), Edge(3, 4), Edge(4, 3), Edge(3, 0), Edge(0, 4), Edge(4, 0), Edge(0, 1), Edge(1, 4)]
  {
    var ps := PyramidMesh().polygons;
    LowerPyramidEdges(ps);
    PolyEdges3(2, 3, 4);
    PolyEdges3(3, 0, 4);
    PolyEdges3(0, 1, 4);
    assert ps[..5] == ps;
    EdgesStep(ps, 2); EdgesStep(ps, 3); EdgesStep(ps, 4);
  }

  /** The first seven, from the base and the first side. */
  lemma LowerPyramidEdges(ps: seq<Polygon3D>)
    requires ps == PyramidMesh().polygons
    ensures NonEmptyPolygons(ps)
    ensures Edges(ps[..2]) == [Edge(1, 0), Edge(0, 3), Edge(3, 2), Edge(2, 1), Edge(4, 1), Edge(1, 2), Edge(2, 4)]
  {
    PolyEdges4(0, 3, 2, 1);
    PolyEdges3(1, 2, 4);
    assert ps[..0] == [];
    EdgesStep(ps, 0); EdgesStep(ps, 1);
  }

  lemma PolyEdges3(a: int, b: int, c: int)
    ensures PolyEdges([a, b, c]) == [Edge(c, a), Edge(a, b), Edge(b, c)]
  {
  }

  lemma PolyEdges4(a: int, b: int, c: int, d: int)
    ensures PolyEdges([a, b, c, d]) == [Edge(d, a), Edge(a, b), Edge(b, c), Edge(c, d)]
  {
  }

  /** Every edge joins two different vertices and is matched by its reverse. */
  predicate Closed(es: seq<Edge>)
  {
    forall e | e in es :: e.from != e.to && Reverse(e) in es
  }

  lemma CubeEdgesDistinct(es: seq<Edge>)
    requires es == [Edge(0, 3), Edge(3, 2), Edge(2, 1), Edge(1, 0), Edge(7, 4), Edge(4, 5), Edge(5, 6), Edge(6, 7), Edge(4, 0), Edge(0, 1), Edge(1, 5), Edge(5, 4), Edge(5, 1), Edge(1, 2), Edge(2, 6), Edge(6, 5), Edge(6, 2), Edge(2, 3), Edge(3, 7), Edge(7, 6), Edge(3, 0), Edge(0, 4), Edge(4, 7), Edge(7, 3)]
    ensures DistinctEdges(es)
  {
    var a := CubeLowerHalf();
    var b := CubeUpperHalf();
    DistinctEdgesAppend(a, b);
    assert a + b == es;
  }

  /** The first twelve cube edges: pairwise different. */
  lemma CubeLowerHalf() returns (a: seq<Edge>)
    ensures a == [Edge(0, 3), Edge(3, 2), Edge(2, 1), Edge(1, 0), Edge(7, 4), Edge(4, 5), Edge(5, 6), Edge(6, 7), Edge(4, 0), Edge(0, 1), Edge(1, 5), Edge(5, 4)]
    ensures DistinctEdges(a)
  {
    a := [Edge(0, 3), Edge(3, 2), Edge(2, 1), Edge(1, 0), Edge(7, 4), Edge(4, 5), Edge(5, 6), Edge(6, 7), Edge(4, 0), Edge(0, 1), Edge(1, 5), Edge(5, 4)];
  }

  /** The last twelve cube edges: pairwise different and none among the first twelve. */
  lemma CubeUpperHalf() returns (b: seq<Edge>)
    ensures b == [Edge(5, 1), Edge(1, 2), Edge(2, 6), Edge(6, 5), Edge(6, 2), Edge(2, 3), Edge(3, 7), Edge(7, 6), Edge(3, 0), Edge(0, 4), Edge(4, 7), Edge(7, 3)]
    ensures DistinctEdges(b)
    ensures forall e | e in [Edge(0, 3), Edge(3, 2), Edge(2, 1), Edge(1, 0), Edge(7, 4), Edge(4, 5), Edge(5, 6), Edge(6, 7), Edge(4, 0), Edge(0, 1), Edge(1, 5), Edge(5, 4)] :: e !in b
  {
    b := [Edge(5, 1), Edge(1, 2), Edge(2, 6), Edge(6, 5), Edge(6, 2), Edge(2, 3), Edge(3, 7), Edge(7, 6), Edge(3, 0), Edge(0, 4), Edge(4, 7), Edge(7, 3)];
  }

  lemma DistinctEdgesAppend(a: seq<Edge>, b: seq<Edge>)
    requires DistinctEdges(a) && DistinctEdges(b)
    requires forall e | e in a :: e !in b
    ensures DistinctEdges(a + b)
  {
    var s := a + b;
    forall i, j | 0 <= i < j < |s|
      ensures s[i] != s[j]
    {
      if j < |a| {
        assert s[i] == a[i] && s[j] == a[j];
      } else if i >= |a| {
        assert s[i] == b[i - |a|] && s[j] == b[j - |a|];
      } else {
        assert s[i] in a && s[j] in b;
      }
    }
  }

  lemma CubeEdgesClosed(es: seq<Edge>)
    requires es == [Edge(0, 3), Edge(3, 2), Edge(2, 1), Edge(1, 0), Edge(7, 4), Edge(4, 5), Edge(5, 6), Edge(6, 7), Edge(4, 0), Edge(0, 1), Edge(1, 5), Edge(5, 4), Edge(5, 1), Edge(1, 2), Edge(2, 6), Edge(6, 5), Edge(6, 2), Edge(2, 3), Edge(3, 7), Edge(7, 6), Edge(3, 0), Edge(0, 4), Edge(4, 7), Edge(7, 3)]
    ensures Closed(es)
  {
    CubeClosedPart0(es);
    CubeClosedPart1(es);
    CubeClosedPart2(es);
    CubeClosedPart3(es);
    ClosedBySixes(es);
  }

  /** Every edge of a joins two different vertices and has its reverse in es. */
  predicate ClosedIn(a: seq<Edge>, es: seq<Edge>)
  {
    forall e | e in a :: e.from != e.to && Reverse(e) in es
  }

  lemma ClosedBySixes(es: seq<Edge>)
    requires |es| == 24
    requires ClosedIn(es[0..6], es) && ClosedIn(es[6..12], es)
    requires ClosedIn(es[12..18], es) && ClosedIn(es[18..24], es)
    ensures Closed(es)
  {
    forall e | e in es
      ensures e.from != e.to && Reverse(e) in es
    {
      var k :| 0 <= k < 24 && es[k] == e;
      if k < 6 {
        assert es[0..6][k] == e;
      } else if k < 12 {
        assert es[6..12][k - 6] == e;
      } else if k < 18 {
        assert es[12..18][k - 12] == e;
      } else {
        assert es[18..24][k - 18] == e;
      }
    }
  }

  lemma CubeClosedPart0(es: seq<Edge>)
    requires es == [Edge(0, 3), Edge(3, 2), Edge(2, 1), Edge(1, 0), Edge(7, 4), Edge(4, 5), Edge(5, 6), Edge(6, 7), Edge(4, 0), Edge(0, 1), Edge(1, 5), Edge(5, 4), Edge(5, 1), Edge(1, 2), Edge(2, 6), Edge(6, 5), Edge(6, 2), Edge(2, 3), Edge(3, 7), Edge(7, 6), Edge(3, 0), Edge(0, 4), Edge(4, 7), Edge(7, 3)]
    ensures ClosedIn(es[0..6], es)
  {
    assert es[0..6] == [Edge(0, 3), Edge(3, 2), Edge(2, 1), Edge(1, 0), Edge(7, 4), Edge(4, 5)];
    assert Reverse(es[0]) == es[20];
    assert Reverse(es[1]) == es[17];
    assert Reverse(es[2]) == es[13];
    assert Reverse(es[3]) == es[9];
    assert Reverse(es[4]) == es[22];
    assert Reverse(es[5]) == es[11];
  }

  lemma CubeClosedPart1(es: seq<Edge>)
    requires es == [Edge(0, 3), Edge(3, 2), Edge(2, 1), Edge(1, 0), Edge(7, 4), Edge(4, 5), Edge(5, 6), Edge(6, 7), Edge(4, 0), Edge(0, 1), Edge(1, 5), Edge(5, 4), Edge(5, 1), Edge(1, 2), Edge(2, 6), Edge(6, 5), Edge(6, 2), Edge(2, 3), Edge(3, 7), Edge(7, 6), Edge(3, 0), Edge(0, 4), Edge(4, 7), Edge(7, 3)]
    ensures ClosedIn(es[6..12], es)
  {
    assert es[6..12] == [Edge(5, 6), Edge(6, 7), Edge(4, 0), Edge(0, 1), Edge(1, 5), Edge(5, 4)];
    assert Reverse(es[6]) == es[15];
    assert Reverse(es[7]) == es[19];
    assert Reverse(es[8]) == es[21];
    assert Reverse(es[9]) == es[3];
    assert Reverse(es[10]) == es[12];
    assert Reverse(es[11]) == es[5];
  }

  lemma CubeClosedPart2(es: seq<Edge>)
    requires es == [Edge(0, 3), Edge(3, 2), Edge(2, 1), Edge(1, 0), Edge(7, 4), Edge(4, 5), Edge(5, 6), Edge(6, 7), Edge(4, 0), Edge(0, 1), Edge(1, 5), Edge(5, 4), Edge(5, 1), Edge(1, 2), Edge(2, 6), Edge(6, 5), Edge(6, 2), Edge(2, 3), Edge(3, 7), Edge(7, 6), Edge(3, 0), Edge(0, 4), Edge(4, 7), Edge(7, 3)]
    ensures ClosedIn(es[12..18], es)
  {
    assert es[12..18] == [Edge(5, 1), Edge(1, 2), Edge(2, 6), Edge(6, 5), Edge(6, 2), Edge(2, 3)];
    assert Reverse(es[12]) == es[10];
    assert Reverse(es[13]) == es[2];
    assert Reverse(es[14]) == es[16];
    assert Reverse(es[15]) == es[6];
    assert Reverse(es[16]) == es[14];
    assert Reverse(es[17]) == es[1];
  }

  lemma CubeClosedPart3(es: seq<Edge>)
    requires es == [Edge(0, 3), Edge(3, 2), Edge(2, 1), Edge(1, 0), Edge(7, 4), Edge(4, 5), Edge(5, 6), Edge(6, 7), Edge(4, 0), Edge(0, 1), Edge(1, 5), Edge(5, 4), Edge(5, 1), Edge(1, 2), Edge(2, 6), Edge(6, 5), Edge(6, 2), Edge(2, 3), Edge(3, 7), Edge(7, 6), Edge(3, 0), Edge(0, 4), Edge(4, 7), Edge(7, 3)]
    ensures ClosedIn(es[18..24], es)
  {
    assert es[18..24] == [Edge(3, 7), Edge(7, 6), Edge(3, 0), Edge(0, 4), Edge(4, 7), Edge(7, 3)];
    assert Reverse(es[18]) == es[23];
    assert Reverse(es[19]) == es[7];
    assert Reverse(es[20]) == es[0];
    assert Reverse(es[21]) == es[8];
    assert Reverse(es[22]) == es[4];
    assert Reverse(es[23]) == es[18];
  }

  lemma PyramidEdgesClosed(es: seq<Edge>)
    requires es == [Edge(1, 0), Edge(0, 3), Edge(3, 2), Edge(2, 1), Edge(4, 1), Edge(1, 2), Edge(2, 4), Edge(4, 2), Edge(2, 3), Edge(3, 4), Edge(4, 3), Edge(3, 0), Edge(0, 4), Edge(4, 0), Edge(0, 1), Edge(1, 4)]
    ensures DistinctEdges(es) && Closed(es)
  {
  }

  /**
   * The cube table passes checkCorrectness and checkManifold: no directed edge
   * repeats, and every edge is cancelled by its reverse.
   */
  lemma CubeIsClosed()
    ensures NonEmptyPolygons(CubeMesh().polygons)
    ensures DistinctCodes(Edges(CubeMesh().polygons), 8)
    ensures Toggles({}, Edges(CubeMesh().polygons), 8) == {}
  {
    var ps := CubeMesh().polygons;
    CubeEdges();
    CubeEdgesDistinct(Edges(ps));
    CubeEdgesClosed(Edges(ps));
    assert IndexesInRange(ps, 8);
    EdgesInRange(ps, 8);
    DistinctCodesIff(Edges(ps), 8);
    ManifoldIff(ps, 8);
  }

  /** The pyramid table passes checkCorrectness and checkManifold. */
  lemma PyramidIsClosed()
    ensures NonEmptyPolygons(PyramidMesh().polygons)
    ensures DistinctCodes(Edges(PyramidMesh().polygons), 5)
    ensures Toggles({}, Edges(PyramidMesh().polygons), 5) == {}
  {
    var ps := PyramidMesh().polygons;
    PyramidEdges();
    PyramidEdgesClosed(Edges(ps));
    assert IndexesInRange(ps, 5);
    EdgesInRange(ps, 5);
    DistinctCodesIff(Edges(ps), 5);
    ManifoldIff(ps, 5);
  }

  /** The 4 directed edges of the square. */
  lemma SquareEdges()
    ensures NonEmptyPolygons(SquareMesh().polygons) && IndexesInRange(SquareMesh().polygons, 4)
    ensures Edges(SquareMesh().polygons) == [Edge(3, 0), Edge(0, 1), Edge(1, 2), Edge(2, 3)]
  {
    var ps := SquareMesh().polygons;
    PolyEdges4(0, 1, 2, 3);
    assert ps[..0] == [] && ps[..1] == ps;
    EdgesStep(ps, 0);
    assert InRange(ps[0].indexes, 4);
  }

  lemma SquareEdgesOpen(es: seq<Edge>)
    requires es == [Edge(3, 0), Edge(0, 1), Edge(1, 2), Edge(2, 3)]
    ensures DistinctEdges(es) && Edge(0, 1) in es && Edge(1, 0) !in es
  {
  }

  /** The square table passes checkCorrectness but not checkManifold: its edges are never reversed. */
  lemma SquareIsOpen()
    ensures NonEmptyPolygons(SquareMesh().polygons)
    ensures DistinctCodes(Edges(SquareMesh().polygons), 4)
    ensures Toggles({}, Edges(SquareMesh().polygons), 4) != {}
  {
    var ps := SquareMesh().polygons;
    SquareEdges();
    SquareEdgesOpen(Edges(ps));
    EdgesInRange(ps, 4);
    DistinctCodesIff(Edges(ps), 4);
    ManifoldIff(ps, 4);
    assert Reverse(Edge(0, 1)) !in Edges(ps);
  }

  // ------------------------------------------------------------ generated tables

  /** The side triangles of createCone: (i, apex, i + 1 mod N) for i < k. */
  function ConeSides(n: nat, k: nat): (ps: seq<Polygon3D>)
    requires n > 0
    ensures |ps| == k
  {
    seq(k, i => Poly([i, n, (i + 1) % n]))
  }

  lemma ConeSidesStep(n: nat, i: nat)
    requires n > 0
    ensures ConeSides(n, i + 1) == ConeSides(n, i) + [Poly([i, n, (i + 1) % n])]
  {
  }

  lemma ConeSidesInRange(n: nat)
    requires n > 0
    ensures WellIndexed(ConeSides(n, n), n + 1)
  {
    var ps := ConeSides(n, n);
    forall i | 0 <= i < n
      ensures |ps[i].indexes| >= 3 && InRange(ps[i].indexes, n + 1)
    {
      var j := (i + 1) % n;
      assert ps[i].indexes == [i, n, j];
      assert 0 <= j < n;
    }
  }

  function ConePolygons(n: nat): seq<Polygon3D>
    requires n > 0
  {
    [Poly(Range(n))] + ConeSides(n, n)
  }

  /** createCone: N > 3, N + 1 vertices (the apex last), the bottom polygon and N triangles. */
  function Cone(n: int): Result<Topology, ShapeError>
  {
    if n < 4 then Err(NTooSmall(n)) else Ok(Topology(n + 1, ConePolygons(n)))
  }

  method CreateCone(n: int) returns (r: Result<Topology, ShapeError>)
    ensures r == Cone(n)
  {
    if n < 4 {
      return Err(NTooSmall(n));
    }
    var bottom := [];
    for i := 0 to n
      invariant bottom == Range(i)
    {
      RangeStep(i);
      bottom := bottom + [i];
    }
    var polygons := [Poly(bottom)];
    for i := 0 to n
      invariant polygons == [Poly(Range(n))] + ConeSides(n, i)
    {
      var v0 := i;
      var v2 := (i + 1) % n;
      var v1 := n;
      ConeSidesStep(n, i);
      polygons := polygons + [Poly([v0, v1, v2])];
    }
    return Ok(Topology(n + 1, polygons));
  }

  lemma ConeWellIndexed(n: nat)
    requires n >= 4
    ensures WellIndexed(ConePolygons(n), n + 1)
  {
    assert WellIndexed([Poly(Range(n))], n + 1);
    ConeSidesInRange(n);
    WellIndexedAppend([Poly(Range(n))], ConeSides(n, n), n + 1);
  }

  /**
   * The layout of createCone's polygons: the bottom 0..N-1 first, then N triangles
   * each holding the apex N between two rim vertices.
   */
  predicate ConeLayout(ps: seq<Polygon3D>, n: nat)
  {
    |ps| == n + 1 && ps[0].indexes == Range(n) &&
    forall i | 1 <= i <= n :: |ps[i].indexes| == 3 &&
      ps[i].indexes[1] == n && 0 <= ps[i].indexes[0] < n && 0 <= ps[i].indexes[2] < n
  }

  lemma ConePolygonsLayout(n: nat)
    requires n > 0
    ensures ConeLayout(ConePolygons(n), n)
  {
    var sides := ConeSides(n, n);
    var ps := ConePolygons(n);
    forall i | 1 <= i <= n
      ensures |ps[i].indexes| == 3 && ps[i].indexes[1] == n && 0 <= ps[i].indexes[0] < n && 0 <= ps[i].indexes[2] < n
    {
      var j := (i - 1 + 1) % n;
      assert ps[i] == sides[i - 1];
      assert sides[i - 1].indexes == [i - 1, n, j];
    }
  }

  /**
   * The cone has N + 1 vertices and its polygons follow ConeLayout, with every
   * index in range (so sanityCheck's index tests pass, by WellIndexedPasses).
   */
  lemma ConeShape(n: int)
    requires n >= 4
    ensures Cone(n).Ok? && Cone(n).value.vertexCount == n + 1
    ensures ConeLayout(Cone(n).value.polygons, n)
    ensures WellIndexed(Cone(n).value.polygons, n + 1)
  {
    ConeWellIndexed(n);
    ConePolygonsLayout(n);
  }

  /** The bottom ring of createCylinder, first k entries: the even vertices 0, 2, 4, ... */
  function CylinderBottom(k: nat): (r: seq<int>)
    ensures |r| == k
  {
    seq(k, i => 2 * i)
  }

  /** The top ring of createCylinder, first k entries: 2N - 1, 2N - 3, ... */
  function CylinderTop(n: nat, k: nat): (r: seq<int>)
    ensures |r| == k
  {
    seq(k, i => 2 * (n - i) - 1)
  }

  /** The lateral quads of createCylinder, first k of them. */
  function CylinderSides(n: nat, k: nat): (ps: seq<Polygon3D>)
    requires n > 0
    ensures |ps| == k
  {
    seq(k, i => Poly([2 * i, 2 * i + 1, (2 * i + 3) % (2 * n), (2 * i + 2) % (2 * n)]))
  }

  lemma CylinderStep(n: nat, i: nat)
    requires n > 0
    ensures CylinderBottom(i + 1) == CylinderBottom(i) + [2 * i]
    ensures CylinderTop(n, i + 1) == CylinderTop(n, i) + [2 * (n - i) - 1]
    ensures CylinderSides(n, i + 1) ==
      CylinderSides(n, i) + [Poly([2 * i, 2 * i + 1, (2 * i + 3) % (2 * n), (2 * i + 2) % (2 * n)])]
  {
  }

  function CylinderPolygons(n: nat): seq<Polygon3D>
    requires n > 0
  {
    [Poly(CylinderBottom(n)), Poly(CylinderTop(n, n))] + CylinderSides(n, n)
  }

  /** createCylinder: N > 3, vertex 2i on the bottom and 2i + 1 above it, N + 2 polygons. */
  function Cylinder(n: int): Result<Topology, ShapeError>
  {
    if n < 4 then Err(NTooSmall(n)) else Ok(Topology(2 * n, CylinderPolygons(n)))
  }

  method CreateCylinder(n: int) returns (r: Result<Topology, ShapeError>)
    ensures r == Cylinder(n)
  {
    if n < 4 {
      return Err(NTooSmall(n));
    }
    var bottom := [];
    for i := 0 to n
      invariant bottom == CylinderBottom(i)
    {
      CylinderStep(n, i);
      bottom := bottom + [2 * i];
    }
    var top := [];
    for i := 0 to n
      invariant top == CylinderTop(n, i)
    {
      CylinderStep(n, i);
      top := top + [2 * (n - i) - 1];
    }
    var polygons := [Poly(bottom), Poly(top)];
    var n2 := 2 * n;
    for i := 0 to n
      invariant polygons == [Poly(bottom), Poly(top)] + CylinderSides(n, i)
    {
      var v0 := 2 * i;
      var v1 := v0 + 1;
      var v2 := (2 * i + 3) % n2;
      var v3 := (2 * i + 2) % n2;
      CylinderStep(n, i);
      polygons := polygons + [Poly([v0, v1, v2, v3])];
    }
    return Ok(Topology(2 * n, polygons));
  }

  /** The corners 2i + 3 and 2i + 2 modulo 2N are the top and bottom vertex of the next angle. */
  lemma CylinderNext(n: int, i: int)
    requires 0 <= i < n
    ensures (2 * i + 3) % (2 * n) == 2 * ((i + 1) % n) + 1
    ensures (2 * i + 2) % (2 * n) == 2 * ((i + 1) % n)
  {
    ModNext(i, n);
    if i + 1 == n {
      DivModUnique(2 * i + 3, 2 * n, 1, 1);
      DivModUnique(2 * i + 2, 2 * n, 1, 0);
    } else {
      DivModUnique(2 * i + 3, 2 * n, 0, 2 * i + 3);
      DivModUnique(2 * i + 2, 2 * n, 0, 2 * i + 2);
    }
  }

  /** The rings of createCylinder: the bottom holds vertex 2a at position a, the top 2a + 1 at N - 1 - a. */
  predicate CylinderRings(bottom: seq<int>, top: seq<int>, n: nat)
  {
    |bottom| == n && |top| == n &&
    forall a | 0 <= a < n :: bottom[a] == 2 * a && top[n - 1 - a] == 2 * a + 1
  }

  /** Lateral quad i joins the vertical edge (2i, 2i + 1) to the one of the next angle. */
  predicate CylinderQuads(sides: seq<Polygon3D>, n: nat)
    requires n > 0
  {
    |sides| == n &&
    forall i | 0 <= i < n :: sides[i].indexes == [2 * i, 2 * i + 1, 2 * ((i + 1) % n) + 1, 2 * ((i + 1) % n)]
  }

  /**
   * The layout of createCylinder's polygons: the bottom ring, the top ring above it in
   * the opposite direction, then the lateral quads.
   */
  predicate CylinderLayout(ps: seq<Polygon3D>, n: nat)
    requires n > 0
  {
    |ps| == n + 2 && CylinderRings(ps[0].indexes, ps[1].indexes, n) && CylinderQuads(ps[2..], n)
  }

  lemma CylinderRingsHold(n: nat)
    ensures CylinderRings(CylinderBottom(n), CylinderTop(n, n), n)
  {
    var top := CylinderTop(n, n);
    forall a | 0 <= a < n
      ensures top[n - 1 - a] == 2 * a + 1
    {
    }
  }

  lemma CylinderQuadsHold(n: nat)
    requires n > 0
    ensures CylinderQuads(CylinderSides(n, n), n)
  {
    var sides := CylinderSides(n, n);
    forall i | 0 <= i < n
      ensures sides[i].indexes == [2 * i, 2 * i + 1, 2 * ((i + 1) % n) + 1, 2 * ((i + 1) % n)]
    {
      CylinderNext(n, i);
    }
  }

  lemma CylinderPolygonsLayout(n: nat)
    requires n > 0
    ensures CylinderLayout(CylinderPolygons(n), n)
  {
    var ps := CylinderPolygons(n);
    assert ps[2..] == CylinderSides(n, n);
    CylinderRingsHold(n);
    CylinderQuadsHold(n);
  }

  lemma CylinderRingsInRange(bottom: seq<int>, top: seq<int>, n: nat)
    requires CylinderRings(bottom, top, n) && n >= 3
    ensures WellIndexed([Poly(bottom), Poly(top)], 2 * n)
  {
    forall k | 0 <= k < n
      ensures 0 <= bottom[k] < 2 * n && 0 <= top[k] < 2 * n
    {
      assert top[n - 1 - (n - 1 - k)] == 2 * (n - 1 - k) + 1;
    }
    assert InRange(bottom, 2 * n) && InRange(top, 2 * n);
  }

  lemma CylinderQuadsInRange(sides: seq<Polygon3D>, n: nat)
    requires n > 0 && CylinderQuads(sides, n)
    ensures WellIndexed(sides, 2 * n)
  {
    forall i | 0 <= i < n
      ensures |sides[i].indexes| >= 3 && InRange(sides[i].indexes, 2 * n)
    {
      var j := (i + 1) % n;
      assert sides[i].indexes == [2 * i, 2 * i + 1, 2 * j + 1, 2 * j];
    }
  }

  lemma CylinderWellIndexed(n: nat)
    requires n >= 3
    ensures WellIndexed(CylinderPolygons(n), 2 * n)
  {
    var ps := CylinderPolygons(n);
    CylinderPolygonsLayout(n);
    CylinderRingsInRange(ps[0].indexes, ps[1].indexes, n);
    CylinderQuadsInRange(ps[2..], n);
    assert ps == [Poly(ps[0].indexes), Poly(ps[1].indexes)] + ps[2..];
    WellIndexedAppend([Poly(ps[0].indexes), Poly(ps[1].indexes)], ps[2..], 2 * n);
  }

  /**
   * The cylinder has 2N vertices and its polygons follow CylinderLayout, with every
   * index in range.
   */
  lemma CylinderShape(n: int)
    requires n >= 4
    ensures Cylinder(n).Ok? && Cylinder(n).value.vertexCount == 2 * n
    ensures CylinderLayout(Cylinder(n).value.polygons, n)
    ensures WellIndexed(Cylinder(n).value.polygons, 2 * n)
  {
    CylinderWellIndexed(n);
    CylinderPolygonsLayout(n);
  }

  /** Triangle i of createSphere's upper cap: the pole 0 and two neighbours on the first ring. */
  function CapTriangle(nn: nat, i: int): Polygon3D
    requires nn > 0
  {
    Poly([0, 1 + (i + 1) % nn, 1 + i])
  }

  /** Quad i between the ring starting at b - N and the ring starting at b. */
  function BandQuad(nn: nat, b: int, i: int): Polygon3D
    requires nn > 0
  {
    Poly([b - nn + i, b - nn + (i + 1) % nn, b + (i + 1) % nn, b + i])
  }

  /** Triangle i of the lower cap: the last vertex v - 1 and two neighbours on the last ring. */
  function PoleTriangle(nn: nat, v: int, i: int): Polygon3D
    requires nn > 0
  {
    Poly([v - 1, v - (2 + (i + 1) % nn), v - (2 + i)])
  }

  /** The first k triangles of the upper cap. */
  function SphereCap(nn: nat, k: nat): (ps: seq<Polygon3D>)
    requires nn > 0
    ensures |ps| == k
  {
    seq(k, i => CapTriangle(nn, i))
  }

  /** The first k quads of the band whose lower ring starts at b. */
  function SphereBand(nn: nat, b: int, k: nat): (ps: seq<Polygon3D>)
    requires nn > 0
    ensures |ps| == k
  {
    seq(k, i => BandQuad(nn, b, i))
  }

  /** The first k triangles of the lower cap around the last vertex v - 1. */
  function SpherePole(nn: nat, v: int, k: nat): (ps: seq<Polygon3D>)
    requires nn > 0
    ensures |ps| == k
  {
    seq(k, i => PoleTriangle(nn, v, i))
  }

  lemma SphereStep(nn: nat, b: int, v: int, i: nat)
    requires nn > 0
    ensures SphereCap(nn, i + 1) == SphereCap(nn, i) + [CapTriangle(nn, i)]
    ensures SphereBand(nn, b, i + 1) == SphereBand(nn, b, i) + [BandQuad(nn, b, i)]
    ensures SpherePole(nn, v, i + 1) == SpherePole(nn, v, i) + [PoleTriangle(nn, v, i)]
  {
  }

  /** The polygons of ring r of the loop over latitudes: the cap for the first, a band after. */
  function SphereRow(nn: nat, r: nat): (ps: seq<Polygon3D>)
    requires nn > 0
    ensures |ps| == nn
  {
    if r == 0 then SphereCap(nn, nn) else SphereBand(nn, 1 + r * nn, nn)
  }

  /** The polygons of the first r rings. */
  function SphereRows(nn: nat, r: nat): seq<Polygon3D>
    requires nn > 0
  {
    if r == 0 then [] else SphereRows(nn, r - 1) + SphereRow(nn, r - 1)
  }

  /**
   * The vertex count N * N / 2 - N + 2 with N = 4 * N4, computed exactly: the
   * upper pole, 2 * N4 - 1 rings of N vertices and the lower pole fill it.
   */
  function SphereVertexCount(n4: int): (v: int)
    requires n4 >= 1
    ensures v == 1 + (2 * n4 - 1) * (4 * n4) + 1
    ensures v >= 4 * n4 + 2
  {
    var nn := 4 * n4;
    assert nn * nn == 2 * (2 * n4 * nn);
    DivModUnique(nn * nn, 2, 2 * n4 * nn, 0);
    MulLe(1, 2 * n4 - 1, nn);
    nn * nn / 2 - nn + 2
  }

  function SpherePolygons(n4: nat): seq<Polygon3D>
    requires n4 > 0
  {
    SphereRows(4 * n4, 2 * n4 - 1) + SpherePole(4 * n4, SphereVertexCount(n4), 4 * n4)
  }

  /**
   * createSphere: N4 > 0, N = 4 * N4; the upper pole, 2 * N4 - 1 rings of N vertices
   * and the lower pole.
   */
  function Sphere(n4: int): Result<Topology, ShapeError>
  {
    if n4 < 1 then Err(N4TooSmall(n4))
    else Ok(Topology(SphereVertexCount(n4), SpherePolygons(n4)))
  }

  method AddSphereCap(polygons: seq<Polygon3D>, nn: nat) returns (r: seq<Polygon3D>)
    requires nn > 0
    ensures r == polygons + SphereCap(nn, nn)
  {
    r := polygons;
    for i := 0 to nn
      invariant r == polygons + SphereCap(nn, i)
    {
      SphereStep(nn, 0, 0, i);
      r := r + [Poly([0, 1 + (i + 1) % nn, 1 + i])];
    }
  }

  method AddSphereBand(polygons: seq<Polygon3D>, nn: nat, b: int) returns (r: seq<Polygon3D>)
    requires nn > 0
    ensures r == polygons + SphereBand(nn, b, nn)
  {
    r := polygons;
    for i := 0 to nn
      invariant r == polygons + SphereBand(nn, b, i)
    {
      SphereStep(nn, b, 0, i);
      r := r + [Poly([b - nn + i, b - nn + (i + 1) % nn, b + (i + 1) % nn, b + i])];
    }
  }

  method AddSpherePole(polygons: seq<Polygon3D>, nn: nat, count: int) returns (r: seq<Polygon3D>)
    requires nn > 0
    ensures r == polygons + SpherePole(nn, count, nn)
  {
    r := polygons;
    for i := 0 to nn
      invariant r == polygons + SpherePole(nn, count, i)
    {
      SphereStep(nn, 0, count, i);
      r := r + [Poly([count - 1, count - (2 + (i + 1) % nn), count - (2 + i)])];
    }
  }

  /** Ring r < 2 * N4 - 1 ends before the lower pole. */
  lemma RingFits(n4: int, r: int)
    requires n4 >= 1 && 0 <= r < 2 * n4 - 1
    ensures 1 + (r + 1) * (4 * n4) == 1 + r * (4 * n4) + 4 * n4
    ensures 0 <= r * (4 * n4) && 1 + r * (4 * n4) + 4 * n4 < SphereVertexCount(n4)
  {
    MulLe(0, r, 4 * n4);
    MulLe(r + 1, 2 * n4 - 1, 4 * n4);
  }

  lemma SphereRowsStep(nn: nat, r: nat)
    requires nn > 0
    ensures SphereRows(nn, r + 1) == SphereRows(nn, r) + SphereRow(nn, r)
  {
  }

  /**
   * The latitude loop of createSphere, k from N4 - 1 down to -N4 + 1: a ring of N
   * vertices each (modelled by the indices stored to, which stay below the vertex
   * count), then the cap triangles for the first ring and band quads after.
   */
  method SphereLatitudes(n4: int, count: int) returns (polygons: seq<Polygon3D>, vertexIdx: int)
    requires n4 >= 1 && count == SphereVertexCount(n4)
    ensures polygons == SphereRows(4 * n4, 2 * n4 - 1)
    ensures vertexIdx == 1 + (2 * n4 - 1) * (4 * n4)
  {
    var nn := n4 * 4;
    vertexIdx := 1;  // after the upper pole
    polygons := [];
    var k := n4 - 1;
    while k > -n4
      invariant -n4 <= k <= n4 - 1
      invariant vertexIdx == 1 + (n4 - 1 - k) * nn
      invariant polygons == SphereRows(nn, n4 - 1 - k)
    {
      var row := n4 - 1 - k;
      var baseline := vertexIdx;
      RingFits(n4, row);
      for i := 0 to nn
        invariant vertexIdx == baseline + i
      {
        assert vertexIdx < count;
        vertexIdx := vertexIdx + 1;
      }
      SphereRowsStep(nn, row);
      if k == n4 - 1 {
        polygons := AddSphereCap(polygons, nn);
      } else {
        polygons := AddSphereBand(polygons, nn, baseline);
      }
      k := k - 1;
    }
  }

  /** createSphere: the upper pole, the latitude loop, the lower pole and its triangles. */
  method CreateSphere(n4: int) returns (r: Result<Topology, ShapeError>)
    ensures r == Sphere(n4)
  {
    if n4 < 1 {
      return Err(N4TooSmall(n4));
    }
    var nn := n4 * 4;
    var count := nn * nn / 2 - nn + 2;
    assert count == SphereVertexCount(n4);
    var polygons, vertexIdx := SphereLatitudes(n4, count);
    assert vertexIdx < count;
    vertexIdx := vertexIdx + 1;  // lower pole
    polygons := AddSpherePole(polygons, nn, count);
    return Ok(Topology(count, polygons));
  }

  lemma {:induction false} SphereRowsLength(nn: nat, r: nat)
    requires nn > 0
    ensures |SphereRows(nn, r)| == r * nn
  {
    if r > 0 {
      SphereRowsLength(nn, r - 1);
      assert r * nn == (r - 1) * nn + nn;
    }
  }

  lemma CapInRange(nn: nat, v: int)
    requires nn > 0 && v >= nn + 1
    ensures WellIndexed(SphereCap(nn, nn), v)
  {
    var ps := SphereCap(nn, nn);
    forall i | 0 <= i < nn
      ensures |ps[i].indexes| >= 3 && InRange(ps[i].indexes, v)
    {
      var j := (i + 1) % nn;
      assert ps[i].indexes == [0, 1 + j, 1 + i];
    }
  }

  lemma BandInRange(nn: nat, b: int, v: int)
    requires nn > 0 && b >= nn && b + nn <= v
    ensures WellIndexed(SphereBand(nn, b, nn), v)
  {
    var ps := SphereBand(nn, b, nn);
    forall i | 0 <= i < nn
      ensures |ps[i].indexes| >= 3 && InRange(ps[i].indexes, v)
    {
      var j := (i + 1) % nn;
      assert ps[i].indexes == [b - nn + i, b - nn + j, b + j, b + i];
    }
  }

  lemma PoleInRange(nn: nat, v: int)
    requires nn > 0 && v >= nn + 2
    ensures WellIndexed(SpherePole(nn, v, nn), v)
  {
    var ps := SpherePole(nn, v, nn);
    forall i | 0 <= i < nn
      ensures |ps[i].indexes| >= 3 && InRange(ps[i].indexes, v)
    {
      var j := (i + 1) % nn;
      assert ps[i].indexes == [v - 1, v - (2 + j), v - (2 + i)];
    }
  }

  /** Ring j's polygons only use vertices below 1 + (j + 1) * N. */
  lemma RowInRange(nn: nat, j: nat, v: int)
    requires nn > 0 && 1 + (j + 1) * nn <= v
    ensures WellIndexed(SphereRow(nn, j), v)
  {
    if j == 0 {
      CapInRange(nn, v);
    } else {
      var p := j * nn;
      assert (j + 1) * nn == p + nn;
      MulLe(1, j, nn);
      BandInRange(nn, 1 + p, v);
    }
  }

  /** The first r rings only use vertices below 1 + r * N. */
  lemma {:induction false} RowsInRange(nn: nat, r: nat, v: int)
    requires nn > 0 && 1 + r * nn <= v
    ensures WellIndexed(SphereRows(nn, r), v)
  {
    if r > 0 {
      var p := (r - 1) * nn;
      assert r * nn == p + nn;
      RowsInRange(nn, r - 1, v);
      RowInRange(nn, r - 1, v);
      WellIndexedAppend(SphereRows(nn, r - 1), SphereRow(nn, r - 1), v);
    }
  }

  /**
   * The sphere has N * N / 2 - N + 2 vertices and N * N / 2 polygons (N triangles
   * at each pole, N quads per band between the 2 * N4 - 1 rings), with every index
   * in range.
   */
  lemma SphereShape(n4: int)
    requires n4 >= 1
    ensures Sphere(n4).Ok? && Sphere(n4).value.vertexCount == (4 * n4) * (4 * n4) / 2 - 4 * n4 + 2
    ensures |Sphere(n4).value.polygons| == (4 * n4) * (4 * n4) / 2
    ensures WellIndexed(Sphere(n4).value.polygons, Sphere(n4).value.vertexCount)
  {
    var nn := 4 * n4;
    var v := SphereVertexCount(n4);
    SphereRowsLength(nn, 2 * n4 - 1);
    assert nn * nn == 2 * (2 * n4 * nn);
    DivModUnique(nn * nn, 2, 2 * n4 * nn, 0);
    assert (2 * n4 - 1) * nn + nn == 2 * n4 * nn;
    RowsInRange(nn, 2 * n4 - 1, v);
    PoleInRange(nn, v);
    WellIndexedAppend(SphereRows(nn, 2 * n4 - 1), SpherePole(nn, v, nn), v);
  }

  /**
   * createRegularPolygon's checks on shapeArguments, in order: present, holding N,
   * N a number, an exact int (intValueExact), and at least 3.
   */
  function RegularPolygonSize(args: Option<map<string, Argument>>): (r: Result<int, ShapeError>)
    ensures r.Ok? ==> r.value >= 3
  {
    if args.None? then Err(ArgumentsRequired)
    else if "N" !in args.value then Err(NRequired)
    else match args.value["N"]
      case NonNumber => Err(NotANumber)
      case Number(x) =>
        if x != x.Floor as real || !(-0x8000_0000 <= x.Floor < 0x8000_0000) then Err(NotAnInt(x))
        else if x.Floor < 3 then Err(NTooSmall(x.Floor))
        else Ok(x.Floor)
  }

  /** createRegularPolygon: N vertices on a circle and one polygon through all of them in order. */
  function RegularPolygon(args: Option<map<string, Argument>>): Result<Topology, ShapeError>
  {
    match RegularPolygonSize(args)
    case Err(e) => Err(e)
    case Ok(n) => Ok(Topology(n, [Poly(Range(n))]))
  }

  method CreateRegularPolygon(args: Option<map<string, Argument>>) returns (r: Result<Topology, ShapeError>)
    ensures r == RegularPolygon(args)
  {
    if args.None? {
      return Err(ArgumentsRequired);
    }
    if "N" !in args.value {
      return Err(NRequired);
    }
    var v := args.value["N"];
    if v.NonNumber? {
      return Err(NotANumber);
    }
    var x := v.value;
    if x != x.Floor as real || !(-0x8000_0000 <= x.Floor < 0x8000_0000) {
      return Err(NotAnInt(x));
    }
    var n := x.Floor;
    if n < 3 {
      return Err(NTooSmall(n));
    }
    var vertexIndexes := [];
    for i := 0 to n
      invariant vertexIndexes == Range(i)
    {
      RangeStep(i);
      vertexIndexes := vertexIndexes + [i];
    }
    return Ok(Topology(n, [Poly(vertexIndexes)]));
  }

  /**
   * A regular polygon is built exactly when N is given as an int of at least 3; it
   * then has N vertices and one well-indexed polygon visiting them in order.
   */
  lemma RegularPolygonShape(args: Option<map<string, Argument>>)
    ensures RegularPolygon(args).Ok? <==>
      args.Some? && "N" in args.value && args.value["N"].Number? &&
      var x := args.value["N"].value;
      x == x.Floor as real && 3 <= x.Floor < 0x8000_0000
    ensures RegularPolygon(args).Ok? ==>
      var t := RegularPolygon(args).value;
      t.vertexCount as real == args.value["N"].value && |t.polygons| == 1 &&
      t.polygons[0].indexes == Range(t.vertexCount) && WellIndexed(t.polygons, t.vertexCount)
  {
    if RegularPolygon(args).Ok? {
      var t := RegularPolygon(args).value;
      assert InRange(t.polygons[0].indexes, t.vertexCount);
    }
  }

  /** The names Shape.valueOf accepts: the enum constants' own names. */
  function ShapeName(s: Shape): string
  {
    match s
    case square => "square"
    case cube => "cube"
    case pyramid => "pyramid"
    case cone => "cone"
    case cylinder => "cylinder"
    case sphere => "sphere"
    case regularPolygon => "regularPolygon"
  }

  /** Shape.valueOf: the shape with the given name, if any. */
  function ShapeNamed(name: string): Option<Shape>
  {
    if name == "square" then Some(square)
    else if name == "cube" then Some(cube)
    else if name == "pyramid" then Some(pyramid)
    else if name == "cone" then Some(cone)
    else if name == "cylinder" then Some(cylinder)
    else if name == "sphere" then Some(sphere)
    else if name == "regularPolygon" then Some(regularPolygon)
    else None
  }

  /** valueOf finds exactly the named constants. */
  lemma ShapeNamedIff(name: string, s: Shape)
    ensures ShapeNamed(name) == Some(s) <==> name == ShapeName(s)
  {
  }

  /**
   * getShapeInstance: a regular polygon is built from its arguments every time;
   * the other shapes are fixed instances (sphere with N4 = 4, cylinder and cone
   * with N = 16) whose arguments are ignored.
   */
  const SPHERE_N4 := 4
  const SEGMENTS_N := 16

  function ShapeInstance(shape: Shape, args: Option<map<string, Argument>>): Result<Topology, ShapeError>
  {
    match shape
    case regularPolygon => RegularPolygon(args)
    case square => Ok(TopologyOf(SquareMesh()))
    case cube => Ok(TopologyOf(CubeMesh()))
    case pyramid => Ok(TopologyOf(PyramidMesh()))
    case sphere => Sphere(SPHERE_N4)
    case cylinder => Cylinder(SEGMENTS_N)
    case cone => Cone(SEGMENTS_N)
  }

  method GetShapeInstance(shape: Shape, args: Option<map<string, Argument>>) returns (r: Result<Topology, ShapeError>)
    ensures r == ShapeInstance(shape, args)
  {
    if shape == regularPolygon {
      r := CreateRegularPolygon(args);
      return;
    }
    match shape
    case square => r := Ok(TopologyOf(SquareMesh()));
    case cube => r := Ok(TopologyOf(CubeMesh()));
    case pyramid => r := Ok(TopologyOf(PyramidMesh()));
    case sphere => r := CreateSphere(SPHERE_N4);
    case cylinder => r := CreateCylinder(SEGMENTS_N);
    case cone => r := CreateCone(SEGMENTS_N);
  }

  /** Every fixed shape instance is built, with every index in range. */
  lemma FixedInstancesWellIndexed(shape: Shape, args: Option<map<string, Argument>>)
    requires shape != regularPolygon
    ensures ShapeInstance(shape, args).Ok?
    ensures WellIndexed(ShapeInstance(shape, args).value.polygons, ShapeInstance(shape, args).value.vertexCount)
  {
    match shape
    case square => SquareWellIndexed();
    case cube => CubeWellIndexed();
    case pyramid => PyramidWellIndexed();
    case sphere => SphereInstance(args);
    case cylinder => CylinderInstance(args);
    case cone => ConeInstance(args);
  }

  /** The sphere instance, with N4 = 4. */
  lemma SphereInstance(args: Option<map<string, Argument>>)
    ensures ShapeInstance(sphere, args).Ok?
    ensures WellIndexed(ShapeInstance(sphere, args).value.polygons, ShapeInstance(sphere, args).value.vertexCount)
  {
    SphereShape(SPHERE_N4);
  }

  /** The cylinder instance, with N = 16. */
  lemma CylinderInstance(args: Option<map<string, Argument>>)
    ensures ShapeInstance(cylinder, args).Ok?
    ensures WellIndexed(ShapeInstance(cylinder, args).value.polygons, ShapeInstance(cylinder, args).value.vertexCount)
  {
    CylinderShape(SEGMENTS_N);
  }

  /** The cone instance, with N = 16. */
  lemma ConeInstance(args: Option<map<string, Argument>>)
    ensures ShapeInstance(cone, args).Ok?
    ensures WellIndexed(ShapeInstance(cone, args).value.polygons, ShapeInstance(cone, args).value.vertexCount)
  {
    ConeShape(SEGMENTS_N);
  }

  lemma SquareWellIndexed()
    ensures WellIndexed(SquareMesh().polygons, 4)
  {
    SquareEdges();
  }

  lemma CubeWellIndexed()
    ensures WellIndexed(CubeMesh().polygons, 8)
  {
  }

  lemma PyramidWellIndexed()
    ensures WellIndexed(PyramidMesh().polygons, 5)
  {
  }

  /** Every shape instance that is built passes sanityCheck's index tests. */
  lemma InstancesPass(shape: Shape, args: Option<map<string, Argument>>)
    requires ShapeInstance(shape, args).Ok?
    ensures var t := ShapeInstance(shape, args).value;
      WellIndexed(t.polygons, t.vertexCount) && SanityIndexes(t.polygons, t.vertexCount) == None
  {
    var t := ShapeInstance(shape, args).value;
    if shape == regularPolygon {
      RegularPolygonShape(args);
    } else {
      FixedInstancesWellIndexed(shape, args);
    }
    WellIndexedPasses(t.polygons, t.vertexCount);
  }
}
