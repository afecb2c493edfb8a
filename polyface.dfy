/**
 * Polyface3D: a coloured planar polygon with its plane normal, classified and
 * split against the plane of another polyface (a splitter) with tolerance EPSILON.
 * The vertices of a polyface never change once it is built, and its normal is
 * computed once by the constructor, so a polyface is a value here. A Face is a
 * polyface with at least three vertices, which the constructor needs to read
 * vertices[0..2] for the normal.
 */
module Polyfaces {
  import opened Wrappers
  import opened Vectors
  import opened Colors

  const EPSILON: real := 1.0 / 100000.0

  /** The four classification results and their int codes. */
  datatype Side = Coplanar | Front | Back | Spanning

  function Code(s: Side): (c: int)
    ensures 0 <= c <= 3
  {
    match s
    case Coplanar => 0
    case Front => 1
    case Back => 2
    case Spanning => 3
  }

  lemma CodesDistinct(a: Side, b: Side)
    ensures Code(a) == Code(b) <==> a == b
  {
  }

  datatype Polyface = Polyface(vertices: seq<Vec4>, color: Color, normal: Vec4)

  type Face = p: Polyface | |p.vertices| >= 3
    witness Polyface([Vec4(0.0, 0.0, 0.0, 1.0), Vec4(0.0, 0.0, 0.0, 1.0), Vec4(0.0, 0.0, 0.0, 1.0)],
                     Color(0, 0, 0), Vec4(0.0, 0.0, 0.0, 1.0))

  /** calculateNormal before normalisation: (v1 - v0) x (v2 - v0), with w = 1. */
  function RawNormal(vs: seq<Vec4>): (n: Vec4)
    requires |vs| >= 3
    ensures n.w == 1.0
    ensures Dot(n, Sub3(vs[1], vs[0])) == 0.0 && Dot(n, Sub3(vs[2], vs[0])) == 0.0
  {
    Cross(Sub3(vs[1], vs[0]), Sub3(vs[2], vs[0]))
  }

  /** The constructor: keeps the vertices and colour, computes the normal. */
  function NewPolyface(color: Color, vs: seq<Vec4>, sqrt: real -> real): (p: Face)
    requires |vs| >= 3
    ensures p.vertices == vs && p.color == color
    ensures p.normal.w == 1.0
  {
    Polyface(vs, color, Normalized(RawNormal(vs), sqrt))
  }

  /** The normal, normalised or not, stays orthogonal to the first two edges. */
  lemma NormalOrthogonalToEdges(color: Color, vs: seq<Vec4>, sqrt: real -> real)
    requires |vs| >= 3
    ensures Dot(NewPolyface(color, vs, sqrt).normal, Sub3(vs[1], vs[0])) == 0.0
    ensures Dot(NewPolyface(color, vs, sqrt).normal, Sub3(vs[2], vs[0])) == 0.0
  {
    var raw := RawNormal(vs);
    var len := sqrt(SqMag(raw));
    if len != 0.0 {
      DotSymmetric(raw, Sub3(vs[1], vs[0]), 0.0, 0.0);
      DotSymmetric(raw, Sub3(vs[2], vs[0]), 0.0, 0.0);
      DotScaledZero(raw, Sub3(vs[1], vs[0]), 1.0 / len);
      DotScaledZero(raw, Sub3(vs[2], vs[0]), 1.0 / len);
      assert NewPolyface(color, vs, sqrt).normal == Scale3(raw, 1.0 / len);
      DotSymmetric(Scale3(raw, 1.0 / len), Sub3(vs[1], vs[0]), 0.0, 0.0);
      DotSymmetric(Scale3(raw, 1.0 / len), Sub3(vs[2], vs[0]), 0.0, 0.0);
    }
  }

  /** (v - splitter.vertices[0]) . splitter.normal */
  function SignedDist(v: Vec4, s: Face): real
  {
    Dot(Sub3(v, s.vertices[0]), s.normal)
  }

  function Distances(p: Face, s: Face): (ds: seq<real>)
    ensures |ds| == |p.vertices|
    ensures forall i | 0 <= i < |ds| :: ds[i] == SignedDist(p.vertices[i], s)
  {
    seq(|p.vertices|, i requires 0 <= i < |p.vertices| => SignedDist(p.vertices[i], s))
  }

  /** numFront and numBack of classify: distances above EPSILON and below -EPSILON. */
  function CountFront(ds: seq<real>): (n: nat)
    ensures n <= |ds|
  {
    if |ds| == 0 then 0 else CountFront(ds[..|ds| - 1]) + (if ds[|ds| - 1] > EPSILON then 1 else 0)
  }

  function CountBack(ds: seq<real>): (n: nat)
    ensures n <= |ds|
  {
    if |ds| == 0 then 0 else CountBack(ds[..|ds| - 1]) + (if ds[|ds| - 1] < -EPSILON then 1 else 0)
  }

  /** The decision classify makes from its two counters. */
  function ClassOf(ds: seq<real>): Side
  {
    var f, b := CountFront(ds), CountBack(ds);
    if f > 0 && b == 0 then Front
    else if f == 0 && b > 0 then Back
    else if f == 0 && b == 0 then Coplanar
    else Spanning
  }

  function Classification(p: Face, s: Face): Side
  {
    ClassOf(Distances(p, s))
  }

  lemma {:induction false} CountFrontPositive(ds: seq<real>)
    ensures CountFront(ds) > 0 <==> exists i | 0 <= i < |ds| :: ds[i] > EPSILON
  {
    if |ds| > 0 {
      var init := ds[..|ds| - 1];
      CountFrontPositive(init);
      if exists i | 0 <= i < |init| :: init[i] > EPSILON {
        var i :| 0 <= i < |init| && init[i] > EPSILON;
        assert ds[i] == init[i];
      }
      if exists i | 0 <= i < |ds| :: ds[i] > EPSILON {
        var i :| 0 <= i < |ds| && ds[i] > EPSILON;
        if i < |init| {
          assert init[i] == ds[i];
        }
      }
    }
  }

  lemma {:induction false} CountBackPositive(ds: seq<real>)
    ensures CountBack(ds) > 0 <==> exists i | 0 <= i < |ds| :: ds[i] < -EPSILON
  {
    if |ds| > 0 {
      var init := ds[..|ds| - 1];
      CountBackPositive(init);
      if exists i | 0 <= i < |init| :: init[i] < -EPSILON {
        var i :| 0 <= i < |init| && init[i] < -EPSILON;
        assert ds[i] == init[i];
      }
      if exists i | 0 <= i < |ds| :: ds[i] < -EPSILON {
        var i :| 0 <= i < |ds| && ds[i] < -EPSILON;
        if i < |init| {
          assert init[i] == ds[i];
        }
      }
    }
  }

  predicate SomeAbove(ds: seq<real>)
  {
    exists i | 0 <= i < |ds| :: ds[i] > EPSILON
  }

  predicate SomeBelow(ds: seq<real>)
  {
    exists i | 0 <= i < |ds| :: ds[i] < -EPSILON
  }

  /** The four outcomes of classify, each as an if-and-only-if on the distances. */
  lemma ClassOfCases(ds: seq<real>)
    ensures ClassOf(ds) == Front <==> SomeAbove(ds) && !SomeBelow(ds)
    ensures ClassOf(ds) == Back <==> !SomeAbove(ds) && SomeBelow(ds)
    ensures ClassOf(ds) == Coplanar <==> forall i | 0 <= i < |ds| :: -EPSILON <= ds[i] <= EPSILON
    ensures ClassOf(ds) == Spanning <==> SomeAbove(ds) && SomeBelow(ds)
  {
    CountFrontPositive(ds);
    CountBackPositive(ds);
  }

  /** classify does not depend on the order of the vertices. */
  lemma ClassOfOrderFree(ds: seq<real>, es: seq<real>)
    requires multiset(ds) == multiset(es)
    ensures ClassOf(ds) == ClassOf(es)
  {
    ClassOfCases(ds);
    ClassOfCases(es);
    forall i | 0 <= i < |ds|
      ensures exists j | 0 <= j < |es| :: es[j] == ds[i]
    {
      assert ds[i] in multiset(es);
      assert ds[i] in es;
    }
    forall j | 0 <= j < |es|
      ensures exists i | 0 <= i < |ds| :: ds[i] == es[j]
    {
      assert es[j] in multiset(ds);
      assert es[j] in ds;
    }
  }

  /** classify: the counting loop over the vertices. */
  method Classify(p: Face, splitter: Face) returns (side: Side)
    ensures side == Classification(p, splitter)
    ensures 0 <= Code(side) <= 3
  {
    ghost var ds := Distances(p, splitter);
    var splitterPoint := splitter.vertices[0];
    var numFront, numBack := 0, 0;
    for i := 0 to |p.vertices|
      invariant numFront == CountFront(ds[..i]) && numBack == CountBack(ds[..i])
    {
      var distance := Dot(Sub3(p.vertices[i], splitterPoint), splitter.normal);
      assert ds[..i + 1][..i] == ds[..i];
      if distance > EPSILON {
        numFront := numFront + 1;
      } else if distance < -EPSILON {
        numBack := numBack + 1;
      }
    }
    assert ds[..|p.vertices|] == ds;
    if numFront > 0 && numBack == 0 {
      return Front;
    }
    if numFront == 0 && numBack > 0 {
      return Back;
    }
    if numFront == 0 && numBack == 0 {
      return Coplanar;
    }
    return Spanning;
  }

  /** A triangle lies in its own plane: classified against itself it is COPLANAR. */
  lemma TriangleCoplanarWithItself(color: Color, vs: seq<Vec4>, sqrt: real -> real)
    requires |vs| == 3
    ensures Classification(NewPolyface(color, vs, sqrt), NewPolyface(color, vs, sqrt)) == Coplanar
  {
    var p := NewPolyface(color, vs, sqrt);
    var ds := Distances(p, p);
    NormalOrthogonalToEdges(color, vs, sqrt);
    DotSymmetric(p.normal, Sub3(vs[1], vs[0]), 0.0, 0.0);
    DotSymmetric(p.normal, Sub3(vs[2], vs[0]), 0.0, 0.0);
    assert ds[0] == 0.0 && ds[1] == 0.0 && ds[2] == 0.0;
    ClassOfCases(ds);
  }

  /** Linear interpolation of all four components. */
  function Lerp(v1: Vec4, v2: Vec4, t: real): Vec4
  {
    Vec4(v1.x + t * (v2.x - v1.x), v1.y + t * (v2.y - v1.y), v1.z + t * (v2.z - v1.z), v1.w + t * (v2.w - v1.w))
  }

  /** The signed distance is affine along a segment. */
  lemma SignedDistLerp(v1: Vec4, v2: Vec4, t: real, s: Face)
    ensures SignedDist(Lerp(v1, v2, t), s) == SignedDist(v1, s) + t * (SignedDist(v2, s) - SignedDist(v1, s))
  {
    var p, n := s.vertices[0], s.normal;
    calc {
      SignedDist(Lerp(v1, v2, t), s);
      (v1.x + t * (v2.x - v1.x) - p.x) * n.x + (v1.y + t * (v2.y - v1.y) - p.y) * n.y
        + (v1.z + t * (v2.z - v1.z) - p.z) * n.z;
      ((v1.x - p.x) * n.x + (v1.y - p.y) * n.y + (v1.z - p.z) * n.z)
        + t * (((v2.x - p.x) * n.x + (v2.y - p.y) * n.y + (v2.z - p.z) * n.z)
             - ((v1.x - p.x) * n.x + (v1.y - p.y) * n.y + (v1.z - p.z) * n.z));
    }
  }

  /** The interpolation parameter intersectPlane uses, when the segment is not parallel. */
  function Param(v1: Vec4, v2: Vec4, s: Face): real
    requires SignedDist(v2, s) - SignedDist(v1, s) != 0.0
  {
    -SignedDist(v1, s) / (SignedDist(v2, s) - SignedDist(v1, s))
  }

  function Abs(x: real): real
  {
    if x < 0.0 then -x else x
  }

  /**
   * intersectPlane: None when the segment is (nearly) parallel to the plane or the
   * crossing is at (or beyond) an end; otherwise the point on the plane.
   */
  function IntersectPlane(v1: Vec4, v2: Vec4, s: Face): (r: Option<Vec4>)
    ensures r.None? <==>
      Abs(SignedDist(v2, s) - SignedDist(v1, s)) <= EPSILON
      || Param(v1, v2, s) <= EPSILON || Param(v1, v2, s) >= 1.0 - EPSILON
    ensures r.Some? ==> EPSILON < Param(v1, v2, s) < 1.0 - EPSILON && r.value == Lerp(v1, v2, Param(v1, v2, s))
  {
    var delta := SignedDist(v2, s) - SignedDist(v1, s);
    if Abs(delta) > EPSILON then
      var t := -SignedDist(v1, s) / delta;
      if t <= EPSILON || t >= 1.0 - EPSILON then None else Some(Lerp(v1, v2, t))
    else None
  }

  /** A point intersectPlane returns lies exactly on the plane. */
  lemma IntersectionOnPlane(v1: Vec4, v2: Vec4, s: Face)
    requires IntersectPlane(v1, v2, s).Some?
    ensures SignedDist(IntersectPlane(v1, v2, s).value, s) == 0.0
  {
    var d1, d2 := SignedDist(v1, s), SignedDist(v2, s);
    var t := Param(v1, v2, s);
    SignedDistLerp(v1, v2, t, s);
    assert t * (d2 - d1) == -d1;
  }

  predicate Crossing(d1: real, d2: real)
  {
    (d1 > EPSILON && d2 < -EPSILON) || (d1 < -EPSILON && d2 > EPSILON)
  }

  /** What one edge (v1, v2) adds to the front list: v1 if not behind, then the crossing. */
  function FrontStep(v1: Vec4, v2: Vec4, s: Face): seq<Vec4>
  {
    var d1, d2 := SignedDist(v1, s), SignedDist(v2, s);
    (if d1 >= -EPSILON then [v1] else [])
    + (if Crossing(d1, d2) && IntersectPlane(v1, v2, s).Some? then [IntersectPlane(v1, v2, s).value] else [])
  }

  function BackStep(v1: Vec4, v2: Vec4, s: Face): seq<Vec4>
  {
    var d1, d2 := SignedDist(v1, s), SignedDist(v2, s);
    (if d1 <= EPSILON then [v1] else [])
    + (if Crossing(d1, d2) && IntersectPlane(v1, v2, s).Some? then [IntersectPlane(v1, v2, s).value] else [])
  }

  /** The front vertex list after the first k edges of the walk. */
  function FrontUpTo(vs: seq<Vec4>, s: Face, k: nat): seq<Vec4>
    requires k <= |vs|
  {
    if k == 0 then [] else FrontUpTo(vs, s, k - 1) + FrontStep(vs[k - 1], vs[k % |vs|], s)
  }

  function BackUpTo(vs: seq<Vec4>, s: Face, k: nat): seq<Vec4>
    requires k <= |vs|
  {
    if k == 0 then [] else BackUpTo(vs, s, k - 1) + BackStep(vs[k - 1], vs[k % |vs|], s)
  }

  function FrontVertices(x: Face, s: Face): seq<Vec4>
  {
    FrontUpTo(x.vertices, s, |x.vertices|)
  }

  function BackVertices(x: Face, s: Face): seq<Vec4>
  {
    BackUpTo(x.vertices, s, |x.vertices|)
  }

  /** The pieces split makes: one per side with at least 3 vertices, in x's colour. */
  function SplitFace(x: Face, s: Face, sqrt: real -> real): (r: (Option<Face>, Option<Face>))
    ensures r.0.Some? <==> |FrontVertices(x, s)| >= 3
    ensures r.1.Some? <==> |BackVertices(x, s)| >= 3
    ensures r.0.Some? ==> r.0.value.vertices == FrontVertices(x, s) && r.0.value.color == x.color
    ensures r.1.Some? ==> r.1.value.vertices == BackVertices(x, s) && r.1.value.color == x.color
  {
    var fv, bv := FrontVertices(x, s), BackVertices(x, s);
    (if |fv| >= 3 then Some(NewPolyface(x.color, fv, sqrt)) else None,
     if |bv| >= 3 then Some(NewPolyface(x.color, bv, sqrt)) else None)
  }

  function Appended(list: seq<Face>, piece: Option<Face>): seq<Face>
  {
    match piece
    case Some(p) => list + [p]
    case None => list
  }

  /**
   * split(splitter, frontList, backList): the two-output Sutherland-Hodgman walk,
   * appending at most one piece to each list.
   */
  method Split(x: Face, splitter: Face, sqrt: real -> real, frontList: seq<Face>, backList: seq<Face>)
    returns (newFront: seq<Face>, newBack: seq<Face>)
    ensures newFront == Appended(frontList, SplitFace(x, splitter, sqrt).0)
    ensures newBack == Appended(backList, SplitFace(x, splitter, sqrt).1)
    ensures |frontList| <= |newFront| <= |frontList| + 1 && |backList| <= |newBack| <= |backList| + 1
  {
    var vs := x.vertices;
    var frontVertices: seq<Vec4> := [];
    var backVertices: seq<Vec4> := [];
    for i := 0 to |vs|
      invariant frontVertices == FrontUpTo(vs, splitter, i)
      invariant backVertices == BackUpTo(vs, splitter, i)
    {
      var frontAdded, backAdded := SplitEdge(vs[i], vs[(i + 1) % |vs|], splitter);
      frontVertices := frontVertices + frontAdded;
      backVertices := backVertices + backAdded;
    }
    newFront, newBack := frontList, backList;
    if |frontVertices| >= 3 {
      newFront := newFront + [NewPolyface(x.color, frontVertices, sqrt)];
    }
    if |backVertices| >= 3 {
      newBack := newBack + [NewPolyface(x.color, backVertices, sqrt)];
    }
  }

  /** What one edge of the walk appends to the front and the back vertex lists. */
  method SplitEdge(v1: Vec4, v2: Vec4, splitter: Face) returns (frontAdded: seq<Vec4>, backAdded: seq<Vec4>)
    ensures frontAdded == FrontStep(v1, v2, splitter) && backAdded == BackStep(v1, v2, splitter)
  {
    var dist1 := Dot(Sub3(v1, splitter.vertices[0]), splitter.normal);
    var dist2 := Dot(Sub3(v2, splitter.vertices[0]), splitter.normal);
    frontAdded, backAdded := [], [];
    if dist1 >= -EPSILON {
      frontAdded := frontAdded + [v1];
    }
    if dist1 <= EPSILON {
      backAdded := backAdded + [v1];
    }
    if (dist1 > EPSILON && dist2 < -EPSILON) || (dist1 < -EPSILON && dist2 > EPSILON) {
      var intersection := IntersectPlane(v1, v2, splitter);
      if intersection.Some? {
        frontAdded := frontAdded + [intersection.value];
        backAdded := backAdded + [intersection.value];
      }
    }
  }

  /** Every vertex of p is at distance >= -EPSILON from r's plane (FRONT or COPLANAR-like). */
  predicate NotBehind(p: Face, r: Face)
  {
    forall i | 0 <= i < |p.vertices| :: SignedDist(p.vertices[i], r) >= -EPSILON
  }

  predicate NotAhead(p: Face, r: Face)
  {
    forall i | 0 <= i < |p.vertices| :: SignedDist(p.vertices[i], r) <= EPSILON
  }

  /** classify's verdicts in terms of the two side predicates. */
  lemma ClassificationSides(p: Face, s: Face)
    ensures Classification(p, s) == Front ==> NotBehind(p, s)
    ensures Classification(p, s) == Back ==> NotAhead(p, s)
    ensures Classification(p, s) == Coplanar ==> NotBehind(p, s) && NotAhead(p, s)
  {
    ClassOfCases(Distances(p, s));
  }

  predicate AllAtLeast(vs: seq<Vec4>, r: Face, lo: real)
  {
    forall i | 0 <= i < |vs| :: SignedDist(vs[i], r) >= lo
  }

  predicate AllAtMost(vs: seq<Vec4>, r: Face, hi: real)
  {
    forall i | 0 <= i < |vs| :: SignedDist(vs[i], r) <= hi
  }

  /** A value strictly between two reals that are >= lo (<= hi) is >= lo (<= hi). */
  lemma Between(d1: real, d2: real, t: real, lo: real, hi: real)
    requires 0.0 < t < 1.0
    ensures d1 >= lo && d2 >= lo ==> d1 + t * (d2 - d1) >= lo
    ensures d1 <= hi && d2 <= hi ==> d1 + t * (d2 - d1) <= hi
  {
    var a := 1.0 - t;
    if d1 >= lo && d2 >= lo {
      MulNonneg(a, d1 - lo);
      MulNonneg(t, d2 - lo);
      assert d1 + t * (d2 - d1) - lo == a * (d1 - lo) + t * (d2 - lo);
    }
    if d1 <= hi && d2 <= hi {
      MulNonneg(a, hi - d1);
      MulNonneg(t, hi - d2);
      assert hi - (d1 + t * (d2 - d1)) == a * (hi - d1) + t * (hi - d2);
    }
  }

  lemma MulNonneg(a: real, b: real)
    requires a >= 0.0 && b >= 0.0
    ensures a * b >= 0.0
  {
  }

  /** A point strictly inside a segment is no further behind (ahead of) r than both ends. */
  lemma LerpBounds(v1: Vec4, v2: Vec4, t: real, r: Face, lo: real, hi: real)
    requires 0.0 < t < 1.0
    ensures SignedDist(v1, r) >= lo && SignedDist(v2, r) >= lo ==> SignedDist(Lerp(v1, v2, t), r) >= lo
    ensures SignedDist(v1, r) <= hi && SignedDist(v2, r) <= hi ==> SignedDist(Lerp(v1, v2, t), r) <= hi
  {
    SignedDistLerp(v1, v2, t, r);
    Between(SignedDist(v1, r), SignedDist(v2, r), t, lo, hi);
  }

  /** One edge adds at most two vertices to the front list, none of them behind the splitter. */
  lemma FrontStepOwnSide(v1: Vec4, v2: Vec4, s: Face)
    ensures AllAtLeast(FrontStep(v1, v2, s), s, -EPSILON) && |FrontStep(v1, v2, s)| <= 2
  {
    if IntersectPlane(v1, v2, s).Some? {
      IntersectionOnPlane(v1, v2, s);
    }
  }

  lemma BackStepOwnSide(v1: Vec4, v2: Vec4, s: Face)
    ensures AllAtMost(BackStep(v1, v2, s), s, EPSILON) && |BackStep(v1, v2, s)| <= 2
  {
    if IntersectPlane(v1, v2, s).Some? {
      IntersectionOnPlane(v1, v2, s);
    }
  }

  /** What one edge adds lies within any bound both of its ends satisfy for another plane r. */
  lemma StepInheritsAtLeast(v1: Vec4, v2: Vec4, s: Face, r: Face, lo: real)
    requires SignedDist(v1, r) >= lo && SignedDist(v2, r) >= lo
    ensures AllAtLeast(FrontStep(v1, v2, s), r, lo) && AllAtLeast(BackStep(v1, v2, s), r, lo)
  {
    if IntersectPlane(v1, v2, s).Some? {
      LerpBounds(v1, v2, Param(v1, v2, s), r, lo, lo);
    }
  }

  lemma StepInheritsAtMost(v1: Vec4, v2: Vec4, s: Face, r: Face, hi: real)
    requires SignedDist(v1, r) <= hi && SignedDist(v2, r) <= hi
    ensures AllAtMost(FrontStep(v1, v2, s), r, hi) && AllAtMost(BackStep(v1, v2, s), r, hi)
  {
    if IntersectPlane(v1, v2, s).Some? {
      LerpBounds(v1, v2, Param(v1, v2, s), r, hi, hi);
    }
  }

  /** The front walk's vertices are not behind the splitter; each edge adds at most two. */
  lemma {:induction false} FrontWalkOwnSide(vs: seq<Vec4>, s: Face, k: nat)
    requires 0 < |vs| && k <= |vs|
    ensures AllAtLeast(FrontUpTo(vs, s, k), s, -EPSILON) && |FrontUpTo(vs, s, k)| <= 2 * k
  {
    if k > 0 {
      FrontWalkOwnSide(vs, s, k - 1);
      FrontStepOwnSide(vs[k - 1], vs[k % |vs|], s);
      StepBounds(FrontUpTo(vs, s, k - 1), FrontStep(vs[k - 1], vs[k % |vs|], s), s, -EPSILON, EPSILON);
    }
  }

  /** The back walk's vertices are not ahead of the splitter; each edge adds at most two. */
  lemma {:induction false} BackWalkOwnSide(vs: seq<Vec4>, s: Face, k: nat)
    requires 0 < |vs| && k <= |vs|
    ensures AllAtMost(BackUpTo(vs, s, k), s, EPSILON) && |BackUpTo(vs, s, k)| <= 2 * k
  {
    if k > 0 {
      BackWalkOwnSide(vs, s, k - 1);
      BackStepOwnSide(vs[k - 1], vs[k % |vs|], s);
      StepBounds(BackUpTo(vs, s, k - 1), BackStep(vs[k - 1], vs[k % |vs|], s), s, -EPSILON, EPSILON);
    }
  }

  /**
   * The walk's vertices are input vertices or points strictly inside an edge, so a
   * lower bound the input satisfies for another plane r holds for both vertex lists.
   */
  lemma {:induction false} WalkInheritsAtLeast(vs: seq<Vec4>, s: Face, k: nat, r: Face, lo: real)
    requires 0 < |vs| && k <= |vs|
    requires AllAtLeast(vs, r, lo)
    ensures AllAtLeast(FrontUpTo(vs, s, k), r, lo) && AllAtLeast(BackUpTo(vs, s, k), r, lo)
  {
    if k > 0 {
      WalkInheritsAtLeast(vs, s, k - 1, r, lo);
      var v1, v2 := vs[k - 1], vs[k % |vs|];
      StepInheritsAtLeast(v1, v2, s, r, lo);
      StepBounds(FrontUpTo(vs, s, k - 1), FrontStep(v1, v2, s), r, lo, lo);
      StepBounds(BackUpTo(vs, s, k - 1), BackStep(v1, v2, s), r, lo, lo);
    }
  }

  /** The same for an upper bound. */
  lemma {:induction false} WalkInheritsAtMost(vs: seq<Vec4>, s: Face, k: nat, r: Face, hi: real)
    requires 0 < |vs| && k <= |vs|
    requires AllAtMost(vs, r, hi)
    ensures AllAtMost(FrontUpTo(vs, s, k), r, hi) && AllAtMost(BackUpTo(vs, s, k), r, hi)
  {
    if k > 0 {
      WalkInheritsAtMost(vs, s, k - 1, r, hi);
      var v1, v2 := vs[k - 1], vs[k % |vs|];
      StepInheritsAtMost(v1, v2, s, r, hi);
      StepBounds(FrontUpTo(vs, s, k - 1), FrontStep(v1, v2, s), r, hi, hi);
      StepBounds(BackUpTo(vs, s, k - 1), BackStep(v1, v2, s), r, hi, hi);
    }
  }

  lemma StepBounds(prefix: seq<Vec4>, step: seq<Vec4>, r: Face, lo: real, hi: real)
    ensures AllAtLeast(prefix, r, lo) && AllAtLeast(step, r, lo) ==> AllAtLeast(prefix + step, r, lo)
    ensures AllAtMost(prefix, r, hi) && AllAtMost(step, r, hi) ==> AllAtMost(prefix + step, r, hi)
  {
    forall i | 0 <= i < |prefix + step|
      ensures (prefix + step)[i] == if i < |prefix| then prefix[i] else step[i - |prefix|]
    {
    }
  }

  /** split's pieces lie on their own sides of the splitter. */
  lemma SplitSound(x: Face, s: Face, sqrt: real -> real)
    ensures SplitFace(x, s, sqrt).0.Some? ==> NotBehind(SplitFace(x, s, sqrt).0.value, s)
    ensures SplitFace(x, s, sqrt).1.Some? ==> NotAhead(SplitFace(x, s, sqrt).1.value, s)
  {
    if |x.vertices| > 0 {
      FrontWalkOwnSide(x.vertices, s, |x.vertices|);
      BackWalkOwnSide(x.vertices, s, |x.vertices|);
    }
  }

  /** A piece inherits the side x is on with respect to any other plane r. */
  lemma SplitHereditary(x: Face, s: Face, r: Face, sqrt: real -> real)
    ensures NotBehind(x, r) && SplitFace(x, s, sqrt).0.Some? ==> NotBehind(SplitFace(x, s, sqrt).0.value, r)
    ensures NotBehind(x, r) && SplitFace(x, s, sqrt).1.Some? ==> NotBehind(SplitFace(x, s, sqrt).1.value, r)
    ensures NotAhead(x, r) && SplitFace(x, s, sqrt).0.Some? ==> NotAhead(SplitFace(x, s, sqrt).0.value, r)
    ensures NotAhead(x, r) && SplitFace(x, s, sqrt).1.Some? ==> NotAhead(SplitFace(x, s, sqrt).1.value, r)
  {
    if |x.vertices| > 0 && NotBehind(x, r) {
      WalkInheritsAtLeast(x.vertices, s, |x.vertices|, r, -EPSILON);
    }
    if |x.vertices| > 0 && NotAhead(x, r) {
      WalkInheritsAtMost(x.vertices, s, |x.vertices|, r, EPSILON);
    }
  }

  /** Each edge contributes at most two vertices to each side. */
  lemma SplitSizes(x: Face, s: Face)
    ensures |FrontVertices(x, s)| <= 2 * |x.vertices| && |BackVertices(x, s)| <= 2 * |x.vertices|
  {
    if |x.vertices| > 0 {
      FrontWalkOwnSide(x.vertices, s, |x.vertices|);
      BackWalkOwnSide(x.vertices, s, |x.vertices|);
    }
  }

  /** With no vertex behind the plane, the front walk keeps every vertex, in order. */
  lemma {:induction false} FrontWalkKeepsAll(vs: seq<Vec4>, s: Face, k: nat)
    requires 0 < |vs| && k <= |vs|
    requires AllAtLeast(vs, s, -EPSILON)
    ensures FrontUpTo(vs, s, k) == vs[..k]
  {
    if k > 0 {
      FrontWalkKeepsAll(vs, s, k - 1);
      assert vs[..k] == vs[..k - 1] + [vs[k - 1]];
    }
  }

  lemma {:induction false} BackWalkKeepsAll(vs: seq<Vec4>, s: Face, k: nat)
    requires 0 < |vs| && k <= |vs|
    requires AllAtMost(vs, s, EPSILON)
    ensures BackUpTo(vs, s, k) == vs[..k]
  {
    if k > 0 {
      BackWalkKeepsAll(vs, s, k - 1);
      assert vs[..k] == vs[..k - 1] + [vs[k - 1]];
    }
  }

  /** A polyface wholly on one side comes back from split unchanged on that side. */
  lemma SplitOneSided(x: Face, s: Face, sqrt: real -> real)
    ensures NotBehind(x, s) ==> SplitFace(x, s, sqrt).0.Some? && SplitFace(x, s, sqrt).0.value.vertices == x.vertices
    ensures NotAhead(x, s) ==> SplitFace(x, s, sqrt).1.Some? && SplitFace(x, s, sqrt).1.value.vertices == x.vertices
  {
    if NotBehind(x, s) {
      FrontWalkKeepsAll(x.vertices, s, |x.vertices|);
      assert x.vertices[..|x.vertices|] == x.vertices;
    }
    if NotAhead(x, s) {
      BackWalkKeepsAll(x.vertices, s, |x.vertices|);
      assert x.vertices[..|x.vertices|] == x.vertices;
    }
  }
}
