/**
 * Mesh: vertices and polygons given by vertex indices, with the topology checks
 * checkCorrectness, checkManifold, getNumberUnconnectedParts and the index part
 * of sanityCheck. Every check walks the same sequence of directed edges: each
 * polygon in order, and within it each index vidx with the index before it
 * (the last index for the first one).
 */
module Meshes {
  import opened Wrappers
  import opened Vectors
  import opened Arithmetic

  /** A polygon of a mesh: its vertex indices and an optional colour index. */
  datatype Polygon3D = Polygon3D(indexes: seq<int>, colorIndex: Option<int>)

  datatype Mesh = Mesh(id: string, vertices: seq<Vec4>, polygons: seq<Polygon3D>)

  datatype Edge = Edge(from: int, to: int)

  function Reverse(e: Edge): Edge
  {
    Edge(e.to, e.from)
  }

  /** Every polygon has a last index to start from. */
  predicate NonEmptyPolygons(ps: seq<Polygon3D>)
  {
    forall i | 0 <= i < |ps| :: |ps[i].indexes| > 0
  }

  /** Every index of every polygon addresses one of n vertices. */
  predicate IndexesInRange(ps: seq<Polygon3D>, n: int)
  {
    forall i | 0 <= i < |ps| :: InRange(ps[i].indexes, n)
  }

  /** Every index of one polygon addresses one of n vertices. */
  predicate InRange(p: seq<int>, n: int)
  {
    forall k | 0 <= k < |p| :: 0 <= p[k] < n
  }

  /** The cyclic edges of one polygon, starting with last -> first. */
  function PolyEdges(p: seq<int>): (es: seq<Edge>)
    requires |p| > 0
    ensures |es| == |p|
    ensures forall k | 0 <= k < |p| :: es[k].to == p[k] && es[k].from == (if k == 0 then p[|p| - 1] else p[k - 1])
  {
    seq(|p|, k requires 0 <= k < |p| => Edge(if k == 0 then p[|p| - 1] else p[k - 1], p[k]))
  }

  /** Every edge of es joins two of n vertices. */
  predicate EdgesWithin(es: seq<Edge>, n: int)
  {
    forall e | e in es :: 0 <= e.from < n && 0 <= e.to < n
  }

  /** All directed edges, polygon after polygon. */
  function Edges(ps: seq<Polygon3D>): seq<Edge>
    requires NonEmptyPolygons(ps)
  {
    if |ps| == 0 then []
    else Edges(ps[..|ps| - 1]) + PolyEdges(ps[|ps| - 1].indexes)
  }

  lemma EdgesStep(ps: seq<Polygon3D>, j: nat)
    requires NonEmptyPolygons(ps) && j < |ps|
    ensures Edges(ps[..j + 1]) == Edges(ps[..j]) + PolyEdges(ps[j].indexes)
  {
    assert ps[..j + 1][..j] == ps[..j];
  }

  lemma {:induction false} EdgesPrefix(ps: seq<Polygon3D>, j: nat)
    requires NonEmptyPolygons(ps) && j <= |ps|
    ensures Edges(ps[..j]) <= Edges(ps)
    decreases |ps|
  {
    if j < |ps| {
      var init := ps[..|ps| - 1];
      assert init[..j] == ps[..j];
      EdgesPrefix(init, j);
    } else {
      assert ps[..j] == ps;
    }
  }

  lemma EdgesSuffix(ps: seq<Polygon3D>, j: nat)
    requires NonEmptyPolygons(ps) && j <= |ps|
    ensures |Edges(ps[..j])| <= |Edges(ps)|
    ensures Edges(ps) == Edges(ps[..j]) + Edges(ps)[|Edges(ps[..j])|..]
  {
    EdgesPrefix(ps, j);
    var a, e := Edges(ps[..j]), Edges(ps);
    assert e == e[..|a|] + e[|a|..];
  }

  /** The edges of in-range polygons join in-range vertices. */
  lemma {:induction false} EdgesInRange(ps: seq<Polygon3D>, n: int)
    requires NonEmptyPolygons(ps) && IndexesInRange(ps, n)
    ensures EdgesWithin(Edges(ps), n)
  {
    if |ps| > 0 {
      EdgesInRange(ps[..|ps| - 1], n);
    }
  }

  // ------------------------------------------------------------ edge codes

  /** Java int arithmetic: the value wrapped into [-2^31, 2^31). */
  function Int32(x: int): int
  {
    (x + 0x8000_0000) % 0x1_0000_0000 - 0x8000_0000
  }

  /**
   * The edge code as the source computes it, prev + vidx * n in 32-bit int
   * arithmetic (wrapping the product and then the sum gives the same value as
   * wrapping the exact sum).
   */
  function CodeAsWritten(e: Edge, n: int): int
  {
    Int32(e.from + e.to * n)
  }

  /** With 65537 vertices the edges 0 -> 65536 and 65536 -> 0 share a 32-bit code. */
  lemma CodeAsWrittenCollides()
    ensures Edge(0, 65536) != Edge(65536, 0)
    ensures 0 <= 65536 < 65537
    ensures CodeAsWritten(Edge(0, 65536), 65537) == CodeAsWritten(Edge(65536, 0), 65537) == 65536
  {
    assert 65536 * 65537 == 0x1_0000_0000 + 65536;
  }

  /** The edge code without wrap-around (as a long would hold it for any Java array). */
  function Code(e: Edge, n: int): int
  {
    e.from + e.to * n
  }

  lemma CodeDecodes(e: Edge, n: int)
    requires 0 <= e.from < n && 0 <= e.to
    ensures Code(e, n) / n == e.to && Code(e, n) % n == e.from
  {
    DivModUnique(Code(e, n), n, e.to, e.from);
  }

  /** The corrected code is injective on edges between vertices in [0, n). */
  lemma CodeInjective(e1: Edge, e2: Edge, n: int)
    requires 0 <= e1.from < n && 0 <= e1.to < n
    requires 0 <= e2.from < n && 0 <= e2.to < n
    ensures Code(e1, n) == Code(e2, n) <==> e1 == e2
  {
    if Code(e1, n) == Code(e2, n) {
      CodeDecodes(e1, n);
      CodeDecodes(e2, n);
    }
  }

  /** The corrected code agrees with the 32-bit one as long as n * n fits an int. */
  lemma CodeAsWrittenForSmallMeshes(e: Edge, n: int)
    requires 0 < n <= 46340
    requires 0 <= e.from < n && 0 <= e.to < n
    ensures CodeAsWritten(e, n) == Code(e, n)
  {
    MulLe(e.to, n - 1, n);
    MulLe(n, 46340, n);
    MulLe(n, 46340, 46340);
    var x := Code(e, n);
    assert 0 <= x < n * n;
    DivModUnique(x + 0x8000_0000, 0x1_0000_0000, 0, x + 0x8000_0000);
  }

  // ------------------------------------------------------------ checkCorrectness

  function CodeSet(es: seq<Edge>, n: int): set<int>
  {
    set e | e in es :: Code(e, n)
  }

  predicate DistinctCodes(es: seq<Edge>, n: int)
  {
    forall i, j | 0 <= i < j < |es| :: Code(es[i], n) != Code(es[j], n)
  }

  predicate DistinctEdges(es: seq<Edge>)
  {
    forall i, j | 0 <= i < j < |es| :: es[i] != es[j]
  }

  /** For edges inside [0, n), distinct codes mean no directed edge occurs twice. */
  lemma DistinctCodesIff(es: seq<Edge>, n: int)
    requires EdgesWithin(es, n)
    ensures DistinctCodes(es, n) <==> DistinctEdges(es)
  {
    if DistinctEdges(es) {
      forall i, j | 0 <= i < j < |es|
        ensures Code(es[i], n) != Code(es[j], n)
      {
        CodeInjective(es[i], es[j], n);
      }
    }
  }

  lemma CodeSetAppend(a: seq<Edge>, b: seq<Edge>, n: int)
    ensures CodeSet(a + b, n) == CodeSet(a, n) + CodeSet(b, n)
  {
    assert forall x | x in a + b :: x in a || x in b;
  }

  lemma DistinctCodesAppend(a: seq<Edge>, b: seq<Edge>, n: int)
    ensures DistinctCodes(a + b, n) <==>
      DistinctCodes(a, n) && DistinctCodes(b, n) && CodeSet(a, n) * CodeSet(b, n) == {}
  {
    var s := a + b;
    if DistinctCodes(s, n) {
      assert DistinctCodes(a, n) by {
        forall i, j | 0 <= i < j < |a|
          ensures Code(a[i], n) != Code(a[j], n)
        {
          assert s[i] == a[i] && s[j] == a[j];
        }
      }
      assert DistinctCodes(b, n) by {
        forall i, j | 0 <= i < j < |b|
          ensures Code(b[i], n) != Code(b[j], n)
        {
          assert s[|a| + i] == b[i] && s[|a| + j] == b[j];
        }
      }
      forall c | c in CodeSet(a, n)
        ensures c !in CodeSet(b, n)
      {
        var x :| x in a && Code(x, n) == c;
        var i :| 0 <= i < |a| && a[i] == x;
        forall y | y in b
          ensures Code(y, n) != c
        {
          var j :| 0 <= j < |b| && b[j] == y;
          assert s[i] == x && s[|a| + j] == y;
        }
      }
    }
    if DistinctCodes(a, n) && DistinctCodes(b, n) && CodeSet(a, n) * CodeSet(b, n) == {} {
      forall i, j | 0 <= i < j < |s|
        ensures Code(s[i], n) != Code(s[j], n)
      {
        if j < |a| {
          assert s[i] == a[i] && s[j] == a[j];
        } else if i >= |a| {
          assert s[i] == b[i - |a|] && s[j] == b[j - |a|];
        } else {
          assert s[i] == a[i] && s[j] == b[j - |a|];
          assert a[i] in a && b[j - |a|] in b;
          assert Code(s[i], n) in CodeSet(a, n) && Code(s[j], n) in CodeSet(b, n);
          assert Code(s[i], n) !in CodeSet(a, n) * CodeSet(b, n);
        }
      }
    }
  }

  /**
   * The segment set of checkCorrectness after the edges es, starting from s, or
   * None once an edge's code is already in the set.
   */
  function Segments(s: set<int>, es: seq<Edge>, n: int): Option<set<int>>
  {
    if |es| == 0 then Some(s)
    else
      match Segments(s, es[..|es| - 1], n)
      case None => None
      case Some(t) =>
        var c := Code(es[|es| - 1], n);
        if c in t then None else Some(t + {c})
  }

  lemma {:induction false} SegmentsAppend(s: set<int>, a: seq<Edge>, b: seq<Edge>, n: int)
    ensures Segments(s, a + b, n) == match Segments(s, a, n) case None => None case Some(t) => Segments(t, b, n)
  {
    if |b| == 0 {
      assert a + b == a;
    } else {
      assert (a + b)[..|a + b| - 1] == a + b[..|b| - 1];
      SegmentsAppend(s, a, b[..|b| - 1], n);
    }
  }

  /** checkCorrectness's set run from empty succeeds exactly when no code repeats. */
  lemma {:induction false} SegmentsDistinct(es: seq<Edge>, n: int)
    ensures Segments({}, es, n).Some? <==> DistinctCodes(es, n)
    ensures Segments({}, es, n).Some? ==> Segments({}, es, n).value == CodeSet(es, n)
  {
    if |es| > 0 {
      var init, e := es[..|es| - 1], es[|es| - 1];
      SegmentsDistinct(init, n);
      assert es == init + [e];
      CodeSetAppend(init, [e], n);
      DistinctCodesAppend(init, [e], n);
      assert CodeSet([e], n) == {Code(e, n)};
    }
  }

  /** The inner loop of checkCorrectness over one polygon. */
  method AddPolygonCodes(p: seq<int>, n: int, segments0: set<int>) returns (ok: bool, segments: set<int>)
    requires |p| > 0
    ensures ok <==> Segments(segments0, PolyEdges(p), n).Some?
    ensures ok ==> Segments(segments0, PolyEdges(p), n) == Some(segments)
  {
    ghost var q := PolyEdges(p);
    segments := segments0;
    var prev := p[|p| - 1];
    var k := 0;
    while k < |p|
      invariant k <= |p|
      invariant Segments(segments0, q[..k], n) == Some(segments)
      invariant prev == if k == 0 then p[|p| - 1] else p[k - 1]
    {
      var vidx := p[k];
      var segment := prev + vidx * n;
      if segment in segments {
        NoneAfterRepeat(segments0, q, k, n, segments);
        return false, segments;
      }
      assert q[..k + 1][..k] == q[..k];
      segments := segments + {segment};
      prev := vidx;
      k := k + 1;
    }
    assert q[..|p|] == q;
    return true, segments;
  }

  /** Once a code repeats, the rest of the edges cannot undo it. */
  lemma NoneAfterRepeat(s0: set<int>, q: seq<Edge>, k: nat, n: int, t: set<int>)
    requires k < |q| && Segments(s0, q[..k], n) == Some(t) && Code(q[k], n) in t
    ensures Segments(s0, q, n) == None
  {
    assert q[..k + 1][..k] == q[..k];
    SegmentsAppend(s0, q[..k + 1], q[k + 1..], n);
    assert q[..k + 1] + q[k + 1..] == q;
  }

  /**
   * checkCorrectness: true iff no edge code repeats, i.e. (for in-range indices)
   * iff all polygons are wound the same way so that no directed edge is shared.
   */
  method CheckCorrectness(m: Mesh) returns (ok: bool)
    requires NonEmptyPolygons(m.polygons)
    ensures ok <==> DistinctCodes(Edges(m.polygons), |m.vertices|)
  {
    var ps, n := m.polygons, |m.vertices|;
    var segments: set<int> := {};
    for pi := 0 to |ps|
      invariant Segments({}, Edges(ps[..pi]), n) == Some(segments)
    {
      CorrectnessStep(ps, pi, n, segments);
      var distinct;
      distinct, segments := AddPolygonCodes(ps[pi].indexes, n, segments);
      if !distinct {
        CorrectnessFails(ps, pi + 1, n);
        return false;
      }
    }
    assert ps[..|ps|] == ps;
    SegmentsDistinct(Edges(ps), n);
    return true;
  }

  /** One polygon further in checkCorrectness's walk. */
  lemma CorrectnessStep(ps: seq<Polygon3D>, pi: nat, n: int, s: set<int>)
    requires NonEmptyPolygons(ps) && pi < |ps|
    requires Segments({}, Edges(ps[..pi]), n) == Some(s)
    ensures Segments({}, Edges(ps[..pi + 1]), n) == Segments(s, PolyEdges(ps[pi].indexes), n)
  {
    EdgesStep(ps, pi);
    SegmentsAppend({}, Edges(ps[..pi]), PolyEdges(ps[pi].indexes), n);
  }

  /** A repeated code among the first j polygons is a repeated code of the mesh. */
  lemma CorrectnessFails(ps: seq<Polygon3D>, j: nat, n: int)
    requires NonEmptyPolygons(ps) && j <= |ps|
    requires Segments({}, Edges(ps[..j]), n) == None
    ensures !DistinctCodes(Edges(ps), n)
  {
    EdgesSuffix(ps, j);
    SegmentsAppend({}, Edges(ps[..j]), Edges(ps)[|Edges(ps[..j])|..], n);
    SegmentsDistinct(Edges(ps), n);
  }

  // ------------------------------------------------------------ checkManifold

  /**
   * The segment set of checkManifold, starting from s: an edge whose reverse code is
   * in the set removes it; any other edge adds its own code.
   */
  function Toggles(s: set<int>, es: seq<Edge>, n: int): set<int>
  {
    if |es| == 0 then s
    else
      Toggle(Toggles(s, es[..|es| - 1], n), es[|es| - 1], n)
  }

  /** One edge of checkManifold: remove the reverse's code if present, else add its own. */
  function Toggle(t: set<int>, e: Edge, n: int): set<int>
  {
    var anti := Code(Reverse(e), n);
    if anti in t then t - {anti} else t + {Code(e, n)}
  }

  lemma TogglesStep(s: set<int>, q: seq<Edge>, k: nat, n: int)
    requires k < |q|
    ensures Toggles(s, q[..k + 1], n) == Toggle(Toggles(s, q[..k], n), q[k], n)
  {
    assert q[..k + 1][..k] == q[..k];
  }

  lemma {:induction false} TogglesAppend(s: set<int>, a: seq<Edge>, b: seq<Edge>, n: int)
    ensures Toggles(s, a + b, n) == Toggles(Toggles(s, a, n), b, n)
  {
    if |b| == 0 {
      assert a + b == a;
    } else {
      assert (a + b)[..|a + b| - 1] == a + b[..|b| - 1];
      TogglesAppend(s, a, b[..|b| - 1], n);
    }
  }

  /** The inner loop of checkManifold over one polygon. */
  method TogglePolygon(p: seq<int>, n: int, segments0: set<int>) returns (segments: set<int>)
    requires |p| > 0
    ensures segments == Toggles(segments0, PolyEdges(p), n)
  {
    segments := segments0;
    var prev := p[|p| - 1];
    var k := 0;
    while k < |p|
      invariant k <= |p|
      invariant segments == Toggles(segments0, PolyEdges(p)[..k], n)
      invariant prev == if k == 0 then p[|p| - 1] else p[k - 1]
    {
      var vidx := p[k];
      PolyToggleStep(segments0, p, k, prev, n);
      segments := ToggleEdge(segments, prev, vidx, n);
      prev := vidx;
      k := k + 1;
    }
    assert PolyEdges(p)[..|p|] == PolyEdges(p);
  }

  /** The body of checkManifold's inner loop for the edge prev -> vidx. */
  method ToggleEdge(segments0: set<int>, prev: int, vidx: int, n: int) returns (segments: set<int>)
    ensures segments == Toggle(segments0, Edge(prev, vidx), n)
  {
    segments := segments0;
    var antiSegment := vidx + prev * n;
    if antiSegment in segments {
      segments := segments - {antiSegment};
    } else {
      var segment := prev + vidx * n;
      segments := segments + {segment};
    }
  }

  /** The k-th edge of a polygon, prev -> p[k], in checkManifold's walk. */
  lemma PolyToggleStep(s: set<int>, p: seq<int>, k: nat, prev: int, n: int)
    requires k < |p| && prev == if k == 0 then p[|p| - 1] else p[k - 1]
    ensures Toggles(s, PolyEdges(p)[..k + 1], n) == Toggle(Toggles(s, PolyEdges(p)[..k], n), Edge(prev, p[k]), n)
  {
    TogglesStep(s, PolyEdges(p), k, n);
  }

  /** checkManifold: true iff the segment set ends empty. */
  method CheckManifold(m: Mesh) returns (ok: bool)
    requires NonEmptyPolygons(m.polygons)
    ensures ok <==> Toggles({}, Edges(m.polygons), |m.vertices|) == {}
  {
    var ps, n := m.polygons, |m.vertices|;
    var segments: set<int> := {};
    for pi := 0 to |ps|
      invariant segments == Toggles({}, Edges(ps[..pi]), n)
    {
      EdgesStep(ps, pi);
      TogglesAppend({}, Edges(ps[..pi]), PolyEdges(ps[pi].indexes), n);
      segments := TogglePolygon(ps[pi].indexes, n, segments);
    }
    assert ps[..|ps|] == ps;
    ok := |segments| == 0;
  }

  /** The edges left unmatched: self-loops and edges whose reverse never occurs. */
  function Unmatched(es: seq<Edge>, n: int): set<int>
  {
    set e | e in es && (e.from == e.to || Reverse(e) !in es) :: Code(e, n)
  }

  /**
   * When no directed edge repeats and all indices are in range, the final segment
   * set holds exactly the codes of the unmatched edges.
   */
  lemma {:induction false} TogglesAreUnmatched(es: seq<Edge>, n: int)
    requires EdgesWithin(es, n)
    requires DistinctEdges(es)
    ensures Toggles({}, es, n) == Unmatched(es, n)
  {
    if |es| > 0 {
      var init, e := es[..|es| - 1], es[|es| - 1];
      assert es == init + [e];
      assert forall x | x in init :: x in es;
      TogglesAreUnmatched(init, n);
      var s := Toggles({}, init, n);
      var anti := Code(Reverse(e), n);
      assert e !in init;
      forall x | x in es
        ensures Code(x, n) == anti <==> x == Reverse(e)
      {
        CodeInjective(x, Reverse(e), n);
      }
      forall x | x in es
        ensures Code(x, n) == Code(e, n) <==> x == e
      {
        CodeInjective(x, e, n);
      }
      if anti in s {
        assert Reverse(e) in init && Reverse(e) != e;
        assert Toggles({}, es, n) == s - {anti};
        assert s - {anti} == Unmatched(es, n);
      } else {
        assert Reverse(e) !in init || Reverse(e) == e;
        assert Toggles({}, es, n) == s + {Code(e, n)};
        assert s + {Code(e, n)} == Unmatched(es, n);
      }
    }
  }

  lemma UnmatchedEmpty(es: seq<Edge>, n: int)
    ensures Unmatched(es, n) == {} <==> forall e | e in es :: e.from != e.to && Reverse(e) in es
  {
    if Unmatched(es, n) == {} {
      forall e | e in es
        ensures e.from != e.to && Reverse(e) in es
      {
        assert Code(e, n) !in Unmatched(es, n);
      }
    }
  }

  /**
   * For a mesh that passes checkCorrectness, checkManifold holds exactly when
   * every directed edge joins two different vertices and is matched by its
   * reverse in some polygon: a closed surface without holes.
   */
  lemma ManifoldIff(ps: seq<Polygon3D>, n: int)
    requires NonEmptyPolygons(ps) && IndexesInRange(ps, n)
    requires DistinctCodes(Edges(ps), n)
    ensures Toggles({}, Edges(ps), n) == {} <==>
      forall e | e in Edges(ps) :: e.from != e.to && Reverse(e) in Edges(ps)
  {
    var es := Edges(ps);
    EdgesInRange(ps, n);
    DistinctCodesIff(es, n);
    TogglesAreUnmatched(es, n);
    UnmatchedEmpty(es, n);
  }

  // ------------------------------------------------------------ unconnected parts

  /** The initial labelling: every vertex is its own group. */
  function Singletons(n: nat): (g: seq<int>)
    ensures |g| == n && forall i | 0 <= i < n :: g[i] == i
  {
    seq(n, i => i)
  }

  /** groups.replaceAll(value == from ? to : value). */
  function ReplaceAll(g: seq<int>, from: int, to: int): (r: seq<int>)
    ensures |r| == |g|
    ensures forall i | 0 <= i < |g| :: r[i] == if g[i] == from then to else g[i]
  {
    seq(|g|, i requires 0 <= i < |g| => if g[i] == from then to else g[i])
  }

  /** One edge of the relabelling: the larger of the two groups is moved to the smaller. */
  function Merge(g: seq<int>, e: Edge): (r: seq<int>)
    requires 0 <= e.from < |g| && 0 <= e.to < |g|
    ensures |r| == |g|
  {
    var (prev, vidx) := (e.from, e.to);
    var groupPrev, groupVidx := g[prev], g[vidx];
    if groupPrev < groupVidx then
      if vidx == groupVidx then g[vidx := groupPrev] else ReplaceAll(g, groupVidx, groupPrev)
    else
      if prev == groupPrev then g[prev := groupVidx] else ReplaceAll(g, groupPrev, groupVidx)
  }

  function Relabel(g: seq<int>, es: seq<Edge>): (r: seq<int>)
    requires EdgesWithin(es, |g|)
    ensures |r| == |g|
  {
    if |es| == 0 then g
    else
      assert forall e | e in es[..|es| - 1] :: e in es;
      Merge(Relabel(g, es[..|es| - 1]), es[|es| - 1])
  }

  /** Every vertex's label lies between 0 and its own index. */
  predicate LabelsBounded(g: seq<int>)
  {
    forall i | 0 <= i < |g| :: 0 <= g[i] <= i
  }

  predicate NoLarger(g: seq<int>, h: seq<int>)
  {
    |g| == |h| && forall i | 0 <= i < |g| :: g[i] <= h[i]
  }

  /** A merge keeps labels in [0, own index] and never increases one. */
  lemma MergeBounded(g: seq<int>, e: Edge)
    requires 0 <= e.from < |g| && 0 <= e.to < |g|
    requires LabelsBounded(g)
    ensures LabelsBounded(Merge(g, e)) && NoLarger(Merge(g, e), g)
  {
  }

  lemma {:induction false} RelabelBounded(g: seq<int>, es: seq<Edge>)
    requires EdgesWithin(es, |g|)
    requires LabelsBounded(g)
    ensures LabelsBounded(Relabel(g, es)) && NoLarger(Relabel(g, es), g)
  {
    if |es| > 0 {
      assert forall e | e in es[..|es| - 1] :: e in es;
      var h := Relabel(g, es[..|es| - 1]);
      RelabelBounded(g, es[..|es| - 1]);
      MergeBounded(h, es[|es| - 1]);
    }
  }

  /** The number of label changes between consecutive vertex indices below k. */
  function Changes(g: seq<int>, k: nat): (c: nat)
    requires 1 <= k <= |g|
    ensures c <= k - 1
  {
    if k == 1 then 0
    else Changes(g, k - 1) + (if g[k - 1] != g[k - 2] then 1 else 0)
  }

  /** The group labels after all edges. */
  function Groups(ps: seq<Polygon3D>, n: nat): (g: seq<int>)
    requires NonEmptyPolygons(ps) && IndexesInRange(ps, n)
    ensures |g| == n
  {
    EdgesInRange(ps, n);
    Relabel(Singletons(n), Edges(ps))
  }

  /** The result of getNumberUnconnectedParts. */
  function UnconnectedParts(ps: seq<Polygon3D>, n: nat): int
    requires NonEmptyPolygons(ps) && IndexesInRange(ps, n)
  {
    if n < 2 then 0 else Changes(Groups(ps, n), n)
  }

  /**
   * getNumberUnconnectedParts: 0 below two vertices; otherwise the number of label
   * changes along the vertex indices, which is at most n - 1 and is n - 1 with no
   * polygons. Vertex 0 always keeps label 0.
   */
  lemma UnconnectedPartsBounds(ps: seq<Polygon3D>, n: nat)
    requires NonEmptyPolygons(ps) && IndexesInRange(ps, n)
    ensures n < 2 ==> UnconnectedParts(ps, n) == 0
    ensures 0 <= UnconnectedParts(ps, n) <= if n < 2 then 0 else n - 1
    ensures |ps| == 0 ==> UnconnectedParts(ps, n) == if n < 2 then 0 else n - 1
  {
    if |ps| == 0 && n >= 2 {
      AllChange(Singletons(n), n);
    }
  }

  lemma {:induction false} AllChange(g: seq<int>, k: nat)
    requires 1 <= k <= |g|
    requires forall i | 0 <= i < |g| :: g[i] == i
    ensures Changes(g, k) == k - 1
  {
    if k > 1 {
      AllChange(g, k - 1);
    }
  }

  /** During and after relabelling, labels stay in [0, own index], so vertex 0 is in group 0. */
  lemma UnconnectedLabels(ps: seq<Polygon3D>, n: nat)
    requires NonEmptyPolygons(ps) && IndexesInRange(ps, n) && n > 0
    ensures LabelsBounded(Groups(ps, n)) && NoLarger(Groups(ps, n), Singletons(n)) && Groups(ps, n)[0] == 0
  {
    EdgesInRange(ps, n);
    RelabelBounded(Singletons(n), Edges(ps));
  }

  lemma {:induction false} RelabelAppend(g: seq<int>, a: seq<Edge>, b: seq<Edge>)
    requires EdgesWithin(a + b, |g|)
    ensures forall e | e in a :: e in a + b
    ensures forall e | e in b :: e in a + b
    ensures Relabel(g, a + b) == Relabel(Relabel(g, a), b)
  {
    assert forall e | e in a :: e in a + b;
    assert forall e | e in b :: e in a + b;
    if |b| == 0 {
      assert a + b == a;
    } else {
      assert (a + b)[..|a + b| - 1] == a + b[..|b| - 1];
      assert forall e | e in a + b[..|b| - 1] :: e in a + b;
      RelabelAppend(g, a, b[..|b| - 1]);
    }
  }

  /**
   * The inner loop of getNumberUnconnectedParts over one polygon: each edge
   * merges the two groups it joins.
   */
  method RelabelPolygon(p: seq<int>, groups0: seq<int>) returns (groups: seq<int>)
    requires |p| > 0 && InRange(p, |groups0|)
    ensures EdgesWithin(PolyEdges(p), |groups0|)
    ensures groups == Relabel(groups0, PolyEdges(p))
  {
    groups := groups0;
    var prev := p[|p| - 1];
    var k := 0;
    while k < |p|
      invariant k <= |p|
      invariant groups == RelabelPrefix(groups0, p, k)
      invariant prev == if k == 0 then p[|p| - 1] else p[k - 1]
    {
      var vidx := p[k];
      PolyRelabelStep(groups0, p, k, prev);
      groups := MergeEdge(groups, prev, vidx);
      prev := vidx;
      k := k + 1;
    }
    PolyRelabelWhole(groups0, p);
  }

  /** The labels after the first k edges of one polygon. */
  function RelabelPrefix(g: seq<int>, p: seq<int>, k: nat): (r: seq<int>)
    requires |p| > 0 && InRange(p, |g|) && k <= |p|
    ensures |r| == |g|
  {
    PolyEdgesWithin(p, |g|, k);
    Relabel(g, PolyEdges(p)[..k])
  }

  lemma PolyEdgesWithin(p: seq<int>, n: int, k: nat)
    requires |p| > 0 && InRange(p, n) && k <= |p|
    ensures EdgesWithin(PolyEdges(p), n)
    ensures EdgesWithin(PolyEdges(p)[..k], n)
  {
    var q := PolyEdges(p);
    forall e | e in q
      ensures 0 <= e.from < n && 0 <= e.to < n
    {
      var j :| 0 <= j < |q| && q[j] == e;
    }
    assert forall e | e in q[..k] :: e in q;
  }

  /** The k-th edge of a polygon, prev -> p[k], in the relabelling walk. */
  lemma PolyRelabelStep(g: seq<int>, p: seq<int>, k: nat, prev: int)
    requires k < |p| && InRange(p, |g|) && prev == (if k == 0 then p[|p| - 1] else p[k - 1])
    ensures 0 <= prev < |g| && 0 <= p[k] < |g|
    ensures RelabelPrefix(g, p, k + 1) == Merge(RelabelPrefix(g, p, k), Edge(prev, p[k]))
  {
    var q := PolyEdges(p);
    PolyEdgesWithin(p, |g|, k);
    RelabelStep(g, q, k);
  }

  lemma PolyRelabelWhole(g: seq<int>, p: seq<int>)
    requires |p| > 0 && InRange(p, |g|)
    ensures EdgesWithin(PolyEdges(p), |g|)
    ensures RelabelPrefix(g, p, |p|) == Relabel(g, PolyEdges(p))
  {
    PolyEdgesWithin(p, |g|, |p|);
    RelabelWhole(g, PolyEdges(p));
  }

  /**
   * One step of the relabelling for the edge prev -> vidx: the smaller group
   * wins; a vertex that is its own group is relabelled alone, otherwise every
   * vertex of the larger group is.
   */
  method MergeEdge(groups0: seq<int>, prev: int, vidx: int) returns (groups: seq<int>)
    requires 0 <= prev < |groups0| && 0 <= vidx < |groups0|
    ensures groups == Merge(groups0, Edge(prev, vidx))
  {
    groups := groups0;
    var groupPrev, groupVidx := groups[prev], groups[vidx];
    if groupPrev < groupVidx {
      if vidx == groupVidx {
        groups := groups[vidx := groupPrev];
      } else {
        groups := ReplaceAll(groups, groupVidx, groupPrev);
      }
    } else {
      if prev == groupPrev {
        groups := groups[prev := groupVidx];
      } else {
        groups := ReplaceAll(groups, groupPrev, groupVidx);
      }
    }
  }

  /** The prefix of q of full length. */
  lemma RelabelWhole(g: seq<int>, q: seq<Edge>)
    requires EdgesWithin(q, |g|)
    ensures EdgesWithin(q[..|q|], |g|)
    ensures Relabel(g, q[..|q|]) == Relabel(g, q)
  {
    assert q[..|q|] == q;
  }

  /** Relabelling one more edge of q is one more merge. */
  lemma RelabelStep(g: seq<int>, q: seq<Edge>, k: nat)
    requires k < |q| && EdgesWithin(q, |g|)
    ensures EdgesWithin(q[..k], |g|)
    ensures EdgesWithin(q[..k + 1], |g|)
    ensures Relabel(g, q[..k + 1]) == Merge(Relabel(g, q[..k]), q[k])
  {
    assert forall e | e in q[..k + 1] :: e in q;
    assert q[..k + 1][..k] == q[..k];
  }

  /** Relabelling up to one more polygon. */
  lemma GroupsStep(ps: seq<Polygon3D>, n: nat, pi: nat)
    requires NonEmptyPolygons(ps) && IndexesInRange(ps, n) && pi < |ps|
    ensures NonEmptyPolygons(ps[..pi]) && IndexesInRange(ps[..pi], n)
    ensures NonEmptyPolygons(ps[..pi + 1]) && IndexesInRange(ps[..pi + 1], n)
    ensures |ps[pi].indexes| > 0 && forall k | 0 <= k < |ps[pi].indexes| :: 0 <= ps[pi].indexes[k] < n
    ensures EdgesWithin(PolyEdges(ps[pi].indexes), n)
    ensures Groups(ps[..pi + 1], n) == Relabel(Groups(ps[..pi], n), PolyEdges(ps[pi].indexes))
  {
    assert forall i | 0 <= i < pi + 1 :: ps[..pi + 1][i] == ps[i];
    EdgesStep(ps, pi);
    EdgesInRange(ps[..pi + 1], n);
    RelabelAppend(Singletons(n), Edges(ps[..pi]), PolyEdges(ps[pi].indexes));
  }

  /** The label-change count over the whole labelling. */
  method CountChanges(groups: seq<int>) returns (nGroups: int)
    requires |groups| > 0
    ensures nGroups == Changes(groups, |groups|)
  {
    nGroups := 0;
    var prev := groups[0];
    for i := 1 to |groups|
      invariant nGroups == Changes(groups, i)
      invariant prev == groups[i - 1]
    {
      var group := groups[i];
      if group != prev {
        nGroups := nGroups + 1;
      }
      prev := group;
    }
  }

  method GetNumberUnconnectedParts(m: Mesh) returns (count: int)
    requires NonEmptyPolygons(m.polygons)
    requires IndexesInRange(m.polygons, |m.vertices|)
    ensures count == UnconnectedParts(m.polygons, |m.vertices|)
  {
    var ps, n := m.polygons, |m.vertices|;
    if n < 2 {
      return 0;
    }
    var groups := Singletons(n);
    assert ps[..0] == [];
    var pi := 0;
    while pi < |ps|
      invariant pi <= |ps|
      invariant NonEmptyPolygons(ps[..pi]) && IndexesInRange(ps[..pi], n)
      invariant groups == Groups(ps[..pi], n)
    {
      GroupsStep(ps, n, pi);
      groups := RelabelPolygon(ps[pi].indexes, groups);
      pi := pi + 1;
    }
    assert ps[..|ps|] == ps;
    count := CountChanges(groups);
  }

  // ------------------------------------------------------------ sanityCheck (indices)

  datatype MeshError =
    | TooFewVertices(count: int)   // a polygon with fewer than 3 indices
    | IndexTooHigh(index: int)     // an index >= the number of vertices
    | IndexOutOfBounds             // the array access that a negative index reaches

  /**
   * The index walk of one polygon from position k, prev being the index before
   * it: an index >= n is rejected first; then vertices[prev] and vertices[vidx]
   * are read, which fails on a negative index.
   */
  function ScanIndexes(p: seq<int>, n: int, k: nat, prev: int): (r: Option<MeshError>)
    ensures r.Some? ==> !r.value.TooFewVertices?
    decreases |p| - k
  {
    if k >= |p| then None
    else if p[k] >= n then Some(IndexTooHigh(p[k]))
    else if !(0 <= prev < n) || p[k] < 0 then Some(IndexOutOfBounds)
    else ScanIndexes(p, n, k + 1, p[k])
  }

  function CheckPolygon(p: seq<int>, n: int): Option<MeshError>
  {
    if |p| < 3 then Some(TooFewVertices(|p|)) else ScanIndexes(p, n, 0, p[|p| - 1])
  }

  /** The first failure of sanityCheck's arity and index tests, polygon by polygon. */
  function SanityIndexes(ps: seq<Polygon3D>, n: int): Option<MeshError>
  {
    if |ps| == 0 then None
    else if CheckPolygon(ps[0].indexes, n).Some? then CheckPolygon(ps[0].indexes, n)
    else SanityIndexes(ps[1..], n)
  }

  predicate WellIndexed(ps: seq<Polygon3D>, n: int)
  {
    (forall i | 0 <= i < |ps| :: |ps[i].indexes| >= 3) && IndexesInRange(ps, n)
  }

  lemma {:induction false} ScanIndexesIff(p: seq<int>, n: int, k: nat, prev: int)
    requires k <= |p| && (k == 0 || prev == p[k - 1])
    requires k == 0 ==> |p| > 0 && prev == p[|p| - 1]
    requires k > 0 ==> 0 <= prev < n
    ensures ScanIndexes(p, n, k, prev) == None <==> forall j | k <= j < |p| :: 0 <= p[j] < n
    ensures ScanIndexes(p, n, k, prev) == None ==> 0 <= prev < n || k == |p|
    ensures ScanIndexes(p, n, k, prev).Some? && ScanIndexes(p, n, k, prev).value.IndexTooHigh? ==>
      var v := ScanIndexes(p, n, k, prev).value.index; v >= n && v in p
    decreases |p| - k
  {
    if k < |p| && p[k] < n && 0 <= prev < n && p[k] >= 0 {
      ScanIndexesIff(p, n, k + 1, p[k]);
    }
  }

  lemma CheckPolygonIff(p: seq<int>, n: int)
    ensures CheckPolygon(p, n) == None <==> |p| >= 3 && forall j | 0 <= j < |p| :: 0 <= p[j] < n
    ensures CheckPolygon(p, n).Some? && CheckPolygon(p, n).value.IndexTooHigh? ==>
      var v := CheckPolygon(p, n).value.index; v >= n && v in p
    ensures CheckPolygon(p, n).Some? && CheckPolygon(p, n).value.TooFewVertices? ==>
      var c := CheckPolygon(p, n).value.count; c == |p| < 3
  {
    if |p| >= 3 {
      ScanIndexesIff(p, n, 0, p[|p| - 1]);
    }
  }

  /**
   * sanityCheck's index part passes exactly when every polygon has at least three
   * indices and all of them address an existing vertex; an IndexTooHigh error
   * names an index of some polygon that is >= n.
   */
  lemma {:induction false} SanityIndexesIff(ps: seq<Polygon3D>, n: int)
    ensures SanityIndexes(ps, n) == None <==> WellIndexed(ps, n)
    ensures SanityIndexes(ps, n).Some? && SanityIndexes(ps, n).value.IndexTooHigh? ==>
      var v := SanityIndexes(ps, n).value.index; v >= n && exists i | 0 <= i < |ps| :: v in ps[i].indexes
    ensures SanityIndexes(ps, n).Some? && SanityIndexes(ps, n).value.TooFewVertices? ==>
      var c := SanityIndexes(ps, n).value.count; exists i | 0 <= i < |ps| :: c == |ps[i].indexes| < 3
  {
    if |ps| > 0 {
      CheckPolygonIff(ps[0].indexes, n);
      SanityIndexesIff(ps[1..], n);
      var r := SanityIndexes(ps, n);
      if r.Some? && r.value.IndexTooHigh? && CheckPolygon(ps[0].indexes, n).None? {
        var v := r.value.index;
        {
          var i :| 0 <= i < |ps[1..]| && v in ps[1..][i].indexes;
          assert ps[i + 1] == ps[1..][i];
        }
      }
      if r.Some? && r.value.TooFewVertices? && CheckPolygon(ps[0].indexes, n).None? {
        var c := r.value.count;
        {
          var i :| 0 <= i < |ps[1..]| && c == |ps[1..][i].indexes| < 3;
          assert ps[i + 1] == ps[1..][i];
        }
      }
      if WellIndexed(ps, n) {
        assert WellIndexed(ps[1..], n) by {
          forall i | 0 <= i < |ps[1..]|
            ensures |ps[1..][i].indexes| >= 3
          {
            assert ps[1..][i] == ps[i + 1];
          }
          forall i, k | 0 <= i < |ps[1..]| && 0 <= k < |ps[1..][i].indexes|
            ensures 0 <= ps[1..][i].indexes[k] < n
          {
            assert ps[1..][i] == ps[i + 1];
          }
        }
      }
      if SanityIndexes(ps, n) == None {
        forall i | 0 <= i < |ps|
          ensures |ps[i].indexes| >= 3 && forall k | 0 <= k < |ps[i].indexes| :: 0 <= ps[i].indexes[k] < n
        {
          if i > 0 {
            assert ps[i] == ps[1..][i - 1];
          }
        }
      }
    }
  }

  /** Every polygon has at least 3 indices, all in [0, n): what sanityCheck's index part needs. */
  lemma WellIndexedPasses(ps: seq<Polygon3D>, n: int)
    requires WellIndexed(ps, n)
    ensures SanityIndexes(ps, n) == None && NonEmptyPolygons(ps) && IndexesInRange(ps, n)
  {
    SanityIndexesIff(ps, n);
  }

  lemma WellIndexedAppend(a: seq<Polygon3D>, b: seq<Polygon3D>, n: int)
    requires WellIndexed(a, n) && WellIndexed(b, n)
    ensures WellIndexed(a + b, n)
  {
    assert forall i | 0 <= i < |a + b| :: (a + b)[i] == if i < |a| then a[i] else b[i - |a|];
  }

  /** The arity and index-range part of sanityCheck. */
  method SanityCheck(m: Mesh) returns (error: Option<MeshError>)
    ensures error == SanityIndexes(m.polygons, |m.vertices|)
  {
    var ps, n := m.polygons, |m.vertices|;
    for pi := 0 to |ps|
      invariant SanityIndexes(ps, n) == SanityIndexes(ps[pi..], n)
    {
      assert ps[pi..][1..] == ps[pi + 1..];
      var p := ps[pi].indexes;
      if |p| < 3 {
        return Some(TooFewVertices(|p|));
      }
      var prev := p[|p| - 1];
      for k := 0 to |p|
        invariant CheckPolygon(p, n) == ScanIndexes(p, n, k, prev)
      {
        var vidx := p[k];
        if vidx >= n {
          return Some(IndexTooHigh(vidx));
        }
        if prev < 0 || prev >= n || vidx < 0 {
          return Some(IndexOutOfBounds);
        }
        prev := vidx;
      }
    }
    return None;
  }
}
