/**
 * Engine3D: single-plane Sutherland-Hodgman clipping against the near plane in
 * homogeneous clip space and the screen mapping after it, the mesh table, camera
 * movement, the collection of world-space faces (with their colours) that setupScene
 * hands to the BSP builder, and the print-once message log of getInfo.
 */
module Engine {
  import opened Wrappers
  import opened Vectors
  import Colors
  import opened Matrices
  import opened Meshes
  import opened Shapes
  import Polyfaces
  import Bsp
  import opened Arithmetic

  /** The near plane is w = Z_NEAR in clip space. */
  const Z_NEAR: real := 1.0 / 10.0
  const EPSILON: real := 1.0 / 100000.0

  // ------------------------------------------------------------ near-plane clipping

  /** A vertex is inside when it is in front of the near plane. */
  predicate Inside(v: Vec4)
  {
    v.w >= Z_NEAR
  }

  /** max(0, min(1, t)). */
  function Clamp01(t: real): (c: real)
    ensures 0.0 <= c <= 1.0
    ensures 0.0 <= t <= 1.0 ==> c == t
  {
    if t > 1.0 then 1.0 else if t < 0.0 then 0.0 else t
  }

  /** The parameter at which the segment v1 -> v2 meets the near plane, before clamping. */
  function NearParam(v1: Vec4, v2: Vec4): real
    requires v2.w - v1.w != 0.0
  {
    (Z_NEAR - v1.w) / (v2.w - v1.w)
  }

  /** x, y and z interpolated at t, w placed on the near plane. */
  function OnNearPlane(v1: Vec4, v2: Vec4, t: real): Vec4
  {
    Vec4(v1.x + t * (v2.x - v1.x), v1.y + t * (v2.y - v1.y), v1.z + t * (v2.z - v1.z), Z_NEAR)
  }

  /**
   * intersectNearPlane: None when the two w differ by at most EPSILON; otherwise the
   * point at the clamped parameter, which lies on the near plane.
   */
  function IntersectNearPlane(v1: Vec4, v2: Vec4): (r: Option<Vec4>)
    ensures r.None? <==> Polyfaces.Abs(v2.w - v1.w) <= EPSILON
    ensures r.Some? ==> r.value.w == Z_NEAR && Inside(r.value)
  {
    var dw := v2.w - v1.w;
    if Polyfaces.Abs(dw) > EPSILON then
      var t := Clamp01((Z_NEAR - v1.w) / dw);
      Some(OnNearPlane(v1, v2, t))
    else None
  }

  /**
   * On an edge with one end inside and one outside the clamp never acts: the result is
   * the point of the segment (all four components interpolated) where w = Z_NEAR.
   */
  lemma CrossingIsExact(v1: Vec4, v2: Vec4)
    requires Inside(v1) != Inside(v2) && Polyfaces.Abs(v2.w - v1.w) > EPSILON
    ensures 0.0 <= NearParam(v1, v2) <= 1.0
    ensures Polyfaces.Lerp(v1, v2, NearParam(v1, v2)).w == Z_NEAR
    ensures IntersectNearPlane(v1, v2) == Some(Polyfaces.Lerp(v1, v2, NearParam(v1, v2)))
  {
    var dw := v2.w - v1.w;
    var num := Z_NEAR - v1.w;
    var t := NearParam(v1, v2);
    assert t * dw == num;
    if Inside(v1) {
      assert dw < 0.0 && num <= 0.0 && num >= dw;
    } else {
      assert dw > 0.0 && num > 0.0 && num <= dw;
    }
    assert 0.0 <= t <= 1.0;
    assert Clamp01(t) == t;
    assert Polyfaces.Lerp(v1, v2, t) == OnNearPlane(v1, v2, t);
  }

  /** Intersection of v1 -> v2 with the near plane as a list of zero or one vertices. */
  function Cut(v1: Vec4, v2: Vec4): (out: seq<Vec4>)
    ensures |out| <= 1
  {
    match IntersectNearPlane(v1, v2)
    case Some(p) => [p]
    case None => []
  }

  /** What one edge v1 -> v2 adds to the output: the four cases of the clipping loop. */
  function ClipEdge(v1: Vec4, v2: Vec4): seq<Vec4>
  {
    if Inside(v1) && Inside(v2) then [v2]
    else if Inside(v1) && !Inside(v2) then Cut(v1, v2)
    else if !Inside(v1) && Inside(v2) then Cut(v1, v2) + [v2]
    else []
  }

  /** The output after the first k edges (edge i joins vs[i] to vs[(i + 1) % |vs|]). */
  function ClipUpTo(vs: seq<Vec4>, k: nat): seq<Vec4>
    requires k <= |vs|
  {
    if k == 0 then [] else ClipUpTo(vs, k - 1) + ClipEdge(vs[k - 1], vs[k % |vs|])
  }

  /** clipPolygonAgainstPlane: None (null) when fewer than three vertices survive. */
  function Clipped(vs: seq<Vec4>): (r: Option<seq<Vec4>>)
    ensures r.Some? ==> |r.value| >= 3
  {
    var out := ClipUpTo(vs, |vs|);
    if |out| < 3 then None else Some(out)
  }

  method ClipPolygonAgainstPlane(inputVertices: seq<Vec4>) returns (r: Option<seq<Vec4>>)
    ensures r == Clipped(inputVertices)
  {
    var outputVertices: seq<Vec4> := [];
    var i := 0;
    while i < |inputVertices|
      invariant 0 <= i <= |inputVertices|
      invariant outputVertices == ClipUpTo(inputVertices, i)
    {
      var v1 := inputVertices[i];
      var v2 := inputVertices[(i + 1) % |inputVertices|];
      var added := ClipEdgeVertices(v1, v2);
      outputVertices := outputVertices + added;
      i := i + 1;
    }
    if |outputVertices| < 3 {
      return None;
    }
    return Some(outputVertices);
  }

  /** The body of the clipping loop for the edge v1 -> v2: the vertices it adds. */
  method ClipEdgeVertices(v1: Vec4, v2: Vec4) returns (added: seq<Vec4>)
    ensures added == ClipEdge(v1, v2)
  {
    added := [];
    var v1Inside := v1.w >= Z_NEAR;
    var v2Inside := v2.w >= Z_NEAR;
    if v1Inside && v2Inside {
      added := added + [v2];
    } else if v1Inside && !v2Inside {
      var intersection := IntersectNearPlane(v1, v2);
      if intersection.Some? {
        added := added + [intersection.value];
      }
    } else if !v1Inside && v2Inside {
      var intersection := IntersectNearPlane(v1, v2);
      if intersection.Some? {
        added := added + [intersection.value];
      }
      added := added + [v2];
    }
  }

  /** Each edge adds at most two vertices. */
  lemma {:induction false} ClipUpToBound(vs: seq<Vec4>, k: nat)
    requires k <= |vs|
    ensures |ClipUpTo(vs, k)| <= 2 * k
  {
    if k > 0 {
      ClipUpToBound(vs, k - 1);
    }
  }

  /** A clipped polygon has at most twice as many vertices as the input. */
  lemma ClipBound(vs: seq<Vec4>)
    ensures Clipped(vs).Some? ==> 3 <= |Clipped(vs).value| <= 2 * |vs|
  {
    ClipUpToBound(vs, |vs|);
  }

  /**
   * Every output vertex is either an input vertex that is inside, or a new vertex on
   * the near plane.
   */
  predicate Admissible(out: seq<Vec4>, vs: seq<Vec4>)
  {
    forall j | 0 <= j < |out| :: (out[j] in vs && Inside(out[j])) || out[j].w == Z_NEAR
  }

  lemma {:induction false} ClipUpToAdmissible(vs: seq<Vec4>, k: nat)
    requires k <= |vs|
    ensures Admissible(ClipUpTo(vs, k), vs)
  {
    if k > 0 {
      ClipUpToAdmissible(vs, k - 1);
      var v2 := vs[k % |vs|];
      ClipEdgeAdmissible(vs[k - 1], v2, vs);
      AdmissibleAppend(ClipUpTo(vs, k - 1), ClipEdge(vs[k - 1], v2), vs);
    }
  }

  /** One edge adds its end vertex only when in front, and otherwise points on the plane. */
  lemma ClipEdgeAdmissible(v1: Vec4, v2: Vec4, vs: seq<Vec4>)
    requires v2 in vs
    ensures Admissible(ClipEdge(v1, v2), vs)
  {
  }

  lemma AdmissibleAppend(a: seq<Vec4>, b: seq<Vec4>, vs: seq<Vec4>)
    requires Admissible(a, vs) && Admissible(b, vs)
    ensures Admissible(a + b, vs)
  {
    forall j | 0 <= j < |a + b|
      ensures ((a + b)[j] in vs && Inside((a + b)[j])) || (a + b)[j].w == Z_NEAR
    {
      if j < |a| {
        assert (a + b)[j] == a[j];
      } else {
        assert (a + b)[j] == b[j - |a|];
      }
    }
  }

  /** Every vertex of a clipped polygon is in front of the near plane. */
  lemma ClipResultInside(vs: seq<Vec4>)
    requires Clipped(vs).Some?
    ensures Admissible(Clipped(vs).value, vs)
    ensures forall j | 0 <= j < |Clipped(vs).value| :: Inside(Clipped(vs).value[j])
  {
    ClipUpToAdmissible(vs, |vs|);
  }

  lemma {:induction false} ClipUpToOutside(vs: seq<Vec4>, k: nat)
    requires k <= |vs|
    requires forall i | 0 <= i < |vs| :: !Inside(vs[i])
    ensures ClipUpTo(vs, k) == []
  {
    if k > 0 {
      ClipUpToOutside(vs, k - 1);
      assert !Inside(vs[k - 1]) && !Inside(vs[k % |vs|]);
    }
  }

  /** A polygon wholly behind the near plane is clipped away. */
  lemma ClipAllOutside(vs: seq<Vec4>)
    requires forall i | 0 <= i < |vs| :: !Inside(vs[i])
    ensures Clipped(vs) == None
  {
    ClipUpToOutside(vs, |vs|);
  }

  lemma {:induction false} ClipUpToInside(vs: seq<Vec4>, k: nat)
    requires 0 < k <= |vs|
    requires forall i | 0 <= i < |vs| :: Inside(vs[i])
    ensures ClipUpTo(vs, k) == vs[1..k] + [vs[k % |vs|]]
  {
    var n := |vs|;
    var v1, v2 := vs[k - 1], vs[k % n];
    assert Inside(v1) && Inside(v2);
    assert ClipEdge(v1, v2) == [v2];
    assert ClipUpTo(vs, k) == ClipUpTo(vs, k - 1) + [v2];
    if k > 1 {
      ClipUpToInside(vs, k - 1);
      DivModUnique(k - 1, n, 0, k - 1);
      assert ClipUpTo(vs, k - 1) == vs[1..k - 1] + [vs[k - 1]];
      assert vs[1..k - 1] + [vs[k - 1]] == vs[1..k];
    }
  }

  /**
   * A polygon wholly in front of the near plane comes back rotated left by one,
   * v1, ..., v(n-1), v0, as long as it has at least three vertices.
   */
  lemma ClipAllInside(vs: seq<Vec4>)
    requires forall i | 0 <= i < |vs| :: Inside(vs[i])
    ensures Clipped(vs) == if |vs| >= 3 then Some(vs[1..] + [vs[0]]) else None
  {
    var n := |vs|;
    if n > 0 {
      ClipUpToInside(vs, n);
      DivModUnique(n, n, 1, 0);
      assert vs[1..n] == vs[1..];
      assert |ClipUpTo(vs, n)| == n;
    }
  }

  // --------------------------------------------------- projection to the screen

  /** All vertices have w > 0, the check before the perspective divide. */
  predicate InFront(vs: seq<Vec4>)
  {
    forall i | 0 <= i < |vs| :: vs[i].w > 0.0
  }

  /** Perspective divide, then x from [-1, 1] to [0, width] and y flipped to [0, height]. */
  function ScreenPoint(v: Vec4, width: int, height: int): Vec4
    requires v.w != 0.0
  {
    var x, y, z := v.x / v.w, v.y / v.w, v.z / v.w;
    Vec4((x + 1.0) * 0.5 * width as real, (1.0 - y) * 0.5 * height as real, z, v.w)
  }

  /** Normalised device coordinates in [-1, 1] land inside the screen, y turned upside down. */
  lemma ScreenPointBounds(v: Vec4, width: nat, height: nat)
    requires v.w != 0.0
    requires -1.0 <= v.x / v.w <= 1.0 && -1.0 <= v.y / v.w <= 1.0
    ensures 0.0 <= ScreenPoint(v, width, height).x <= (width as real)
    ensures 0.0 <= ScreenPoint(v, width, height).y <= (height as real)
    ensures v.y / v.w == 1.0 ==> ScreenPoint(v, width, height).y == 0.0
    ensures v.y / v.w == -1.0 ==> ScreenPoint(v, width, height).y == (height as real)
  {
    var x, y := v.x / v.w, v.y / v.w;
    var p := ScreenPoint(v, width, height);
    var ax, ay := (x + 1.0) * 0.5, (1.0 - y) * 0.5;
    var w, h := width as real, height as real;
    assert p.x == ax * w && p.y == ay * h;
    MulRealLe(ax, w);
    MulRealLe(ay, h);
  }

  lemma MulRealLe(a: real, b: real)
    requires 0.0 <= a <= 1.0 && b >= 0.0
    ensures 0.0 <= a * b <= b
  {
    assert b - a * b == (1.0 - a) * b;
  }

  function ScreenPoints(vs: seq<Vec4>, width: int, height: int): (ps: seq<Vec4>)
    requires InFront(vs)
    ensures |ps| == |vs|
  {
    seq(|vs|, i requires 0 <= i < |vs| => ScreenPoint(vs[i], width, height))
  }

  /** The clip-space vertices v . m. */
  function Transformed(vs: seq<Vec4>, m: Mat): (ts: seq<Vec4>)
    requires IsMat(m)
    ensures |ts| == |vs|
  {
    seq(|vs|, i requires 0 <= i < |vs| => VecMul(vs[i], m))
  }

  /** transformAndScreenMap: transform, clip, and map to the screen unless some w <= 0. */
  function Projected(vs: seq<Vec4>, m: Mat, width: int, height: int): Option<seq<Vec4>>
    requires IsMat(m)
  {
    match Clipped(Transformed(vs, m))
    case None => None
    case Some(cs) => if InFront(cs) then Some(ScreenPoints(cs, width, height)) else None
  }

  /**
   * The validity check after clipping never fails: a polygon projects exactly when it
   * survives clipping, and then it keeps the clipped vertex count.
   */
  lemma ValidityCheckRedundant(vs: seq<Vec4>, m: Mat, width: int, height: int)
    requires IsMat(m)
    ensures Projected(vs, m, width, height).Some? <==> Clipped(Transformed(vs, m)).Some?
    ensures Projected(vs, m, width, height).Some? ==>
      |Projected(vs, m, width, height).value| == |Clipped(Transformed(vs, m)).value|
  {
    var c := Clipped(Transformed(vs, m));
    if c.Some? {
      ClipResultInside(Transformed(vs, m));
      assert InFront(c.value);
    }
  }

  /** The perspective-divide loop: maps the vertices in place, or reports some w <= 0. */
  method ScreenMap(a: array<Vec4>, width: int, height: int) returns (valid: bool)
    modifies a
    ensures valid <==> InFront(old(a[..]))
    ensures valid ==> a[..] == ScreenPoints(old(a[..]), width, height)
  {
    var i := 0;
    while i < a.Length
      invariant 0 <= i <= a.Length
      invariant forall k | 0 <= k < i :: old(a[k]).w > 0.0 && a[k] == ScreenPoint(old(a[k]), width, height)
      invariant forall k | i <= k < a.Length :: a[k] == old(a[k])
    {
      var v := a[i];
      if v.w <= 0.0 {
        return false;
      }
      a[i] := ScreenPoint(v, width, height);
      i := i + 1;
    }
    return true;
  }

  method TransformAndScreenMap(worldPoly: Polyfaces.Face, matViewProj: Mat, width: int, height: int)
    returns (r: Option<seq<Vec4>>)
    requires IsMat(matViewProj)
    ensures r == Projected(worldPoly.vertices, matViewProj, width, height)
  {
    var n := |worldPoly.vertices|;
    var vertices := new Vec4[n](i requires 0 <= i < n => worldPoly.vertices[i]);
    var i := 0;
    while i < n
      invariant 0 <= i <= n
      invariant forall k | 0 <= k < i :: vertices[k] == VecMul(worldPoly.vertices[k], matViewProj)
      invariant forall k | i <= k < n :: vertices[k] == worldPoly.vertices[k]
    {
      vertices[i] := VecMul(vertices[i], matViewProj);
      i := i + 1;
    }
    assert vertices[..] == Transformed(worldPoly.vertices, matViewProj);
    var clippedVertices := ClipPolygonAgainstPlane(vertices[..]);
    if clippedVertices.None? {
      return None;
    }
    var cs := clippedVertices.value;
    var out := new Vec4[|cs|](k requires 0 <= k < |cs| => cs[k]);
    assert out[..] == cs;
    var valid := ScreenMap(out, width, height);
    if valid {
      return Some(out[..]);
    }
    return None;
  }

  // ------------------------------------------------------------------- the camera

  datatype Direction = UP | DOWN | LEFT | RIGHT

  /**
   * updateCamera's effect: the new position, or None when the key does not move the
   * camera. forward and right are the yaw-rotated unit axes (computed with trigonometry).
   */
  function Moved(pos: Vec4, direction: Direction, shift: bool, forward: Vec4, right: Vec4,
                 moveSpeed: real): Option<Vec4>
  {
    match direction
    case UP => Some(if shift then pos.(y := pos.y + moveSpeed) else Add3(pos, Scale3(forward, moveSpeed)))
    case DOWN => Some(if shift then pos.(y := pos.y - moveSpeed) else Sub3(pos, Scale3(forward, moveSpeed)))
    case LEFT => if shift then None else Some(Sub3(pos, Scale3(right, moveSpeed)))
    case RIGHT => if shift then None else Some(Add3(pos, Scale3(right, moveSpeed)))
  }

  /** Which keys move the camera, and that w never changes. */
  lemma MovedWhen(pos: Vec4, direction: Direction, shift: bool, forward: Vec4, right: Vec4, moveSpeed: real)
    ensures Moved(pos, direction, shift, forward, right, moveSpeed).Some? <==>
      direction == UP || direction == DOWN || !shift
    ensures Moved(pos, direction, shift, forward, right, moveSpeed).Some? ==>
      Moved(pos, direction, shift, forward, right, moveSpeed).value.w == pos.w
  {
  }

  /** With shift, UP and DOWN change only y, by plus or minus the speed. */
  lemma ShiftMovesVertically(pos: Vec4, direction: Direction, forward: Vec4, right: Vec4, moveSpeed: real)
    requires direction == UP || direction == DOWN
    ensures var q := Moved(pos, direction, true, forward, right, moveSpeed).value;
      q.x == pos.x && q.z == pos.z && q.w == pos.w &&
      q.y == if direction == UP then pos.y + moveSpeed else pos.y - moveSpeed
  {
  }

  function Opposite(d: Direction): Direction
  {
    match d
    case UP => DOWN
    case DOWN => UP
    case LEFT => RIGHT
    case RIGHT => LEFT
  }

  /** A move followed by the opposite move, at the same yaw and speed, returns to the start. */
  lemma OppositeUndoes(pos: Vec4, direction: Direction, shift: bool, forward: Vec4, right: Vec4, moveSpeed: real)
    requires Moved(pos, direction, shift, forward, right, moveSpeed).Some?
    ensures var q := Moved(pos, direction, shift, forward, right, moveSpeed).value;
      Moved(q, Opposite(direction), shift, forward, right, moveSpeed) == Some(pos)
  {
  }

  // ---------------------------------------------------------- faces of the scene

  /** A Node's mesh: a user mesh by id, or a shape instance when the id is null. */
  datatype MeshRef = ById(meshID: string) | ByShape(shape: Shape, arguments: Option<map<string, Argument>>)

  type Mat4 = m: Mat | IsMat(m) witness Identity()

  /** The scene node: its mesh, colour, optional colour list and world matrix. */
  datatype Node = Node(id: string, mesh: MeshRef, color: Colors.Color, colorList: Option<seq<Colors.Color>>, worldMatrix: Mat4)

  /** getShapeInstance with vertex coordinates, which are computed with trigonometry. */
  type Instances = (Shape, Option<map<string, Argument>>) -> Result<Mesh, ShapeError>

  /** The exceptions setupScene can throw while collecting faces. */
  datatype SetupError =
    | UnknownMesh(meshID: string)     // meshes.get returns null
    | ShapeFailed(error: ShapeError)  // getShapeInstance throws
    | VertexOutOfRange                // a vertex index outside the mesh's vertex array
    | NegativeColorIndex(index: int)  // colorList[colorIndex] with colorIndex < 0
    | FewVertices(count: nat)      // the Polyface3D normal reads vertices 0, 1 and 2

  function ResolveMesh(node: Node, meshes: map<string, Mesh>, instances: Instances): (r: Result<Mesh, SetupError>)
    ensures node.mesh.ById? ==> (r.Ok? <==> node.mesh.meshID in meshes)
    ensures r.Ok? && node.mesh.ById? ==> r.value == meshes[node.mesh.meshID]
  {
    match node.mesh
    case ById(id) => if id in meshes then Ok(meshes[id]) else Err(UnknownMesh(id))
    case ByShape(s, a) =>
      match instances(s, a)
      case Ok(m) => Ok(m)
      case Err(e) => Err(ShapeFailed(e))
  }

  /**
   * The colour block of setupScene: no index gives the node colour, an index below the
   * length of a present list gives that entry, and anything else gives Colors.GRAY; a negative
   * index with a present list throws.
   */
  function FaceColor(node: Node, poly: Polygon3D): (r: Result<Colors.Color, SetupError>)
    ensures r.Err? <==> poly.colorIndex.Some? && node.colorList.Some? && poly.colorIndex.value < 0
    ensures poly.colorIndex.None? ==> r == Ok(node.color)
    ensures poly.colorIndex.Some? && node.colorList.Some? && 0 <= poly.colorIndex.value < |node.colorList.value| ==>
      r == Ok(node.colorList.value[poly.colorIndex.value])
    ensures poly.colorIndex.Some? && (node.colorList.None? || poly.colorIndex.value >= |node.colorList.value|) ==>
      r == Ok(Colors.GRAY)
    ensures r.Ok? ==>
      r.value == node.color || r.value == Colors.GRAY || (node.colorList.Some? && r.value in node.colorList.value)
  {
    match poly.colorIndex
    case None => Ok(node.color)
    case Some(i) =>
      if node.colorList.Some? && i < |node.colorList.value| then
        if i < 0 then Err(NegativeColorIndex(i)) else Ok(node.colorList.value[i])
      else Ok(Colors.GRAY)
  }

  function Gathered(vertices: seq<Vec4>, idx: seq<int>): (vs: seq<Vec4>)
    requires InRange(idx, |vertices|)
    ensures |vs| == |idx|
  {
    seq(|idx|, i requires 0 <= i < |idx| => vertices[idx[i]])
  }

  /** The world-space face of one polygon of a node's mesh, or the exception it throws. */
  function PolygonFace(node: Node, mesh: Mesh, poly: Polygon3D, sqrt: real -> real): (r: Result<Polyfaces.Face, SetupError>)
    ensures r.Ok? <==> InRange(poly.indexes, |mesh.vertices|) && FaceColor(node, poly).Ok? && |poly.indexes| >= 3
    ensures r.Ok? ==> r.value.color == FaceColor(node, poly).value
    ensures r.Ok? ==> r.value.vertices == Transformed(Gathered(mesh.vertices, poly.indexes), node.worldMatrix)
  {
    if !InRange(poly.indexes, |mesh.vertices|) then Err(VertexOutOfRange)
    else
      var vs := Transformed(Gathered(mesh.vertices, poly.indexes), node.worldMatrix);
      match FaceColor(node, poly)
      case Err(e) => Err(e)
      case Ok(c) => if |vs| < 3 then Err(FewVertices(|vs|)) else Ok(Polyfaces.NewPolyface(c, vs, sqrt))
  }

  /** The face's vertices are the polygon's mesh vertices moved to world space, corner by corner. */
  lemma PolygonFaceVertices(node: Node, mesh: Mesh, poly: Polygon3D, sqrt: real -> real)
    requires PolygonFace(node, mesh, poly, sqrt).Ok?
    ensures var f := PolygonFace(node, mesh, poly, sqrt).value;
      |f.vertices| == |poly.indexes| &&
      forall i | 0 <= i < |poly.indexes| :: f.vertices[i] == VecMul(mesh.vertices[poly.indexes[i]], node.worldMatrix)
  {
  }

  /** The faces of the first k polygons of a node's mesh; the first exception wins. */
  function NodeFacesUpTo(node: Node, mesh: Mesh, sqrt: real -> real, k: nat): Result<seq<Polyfaces.Face>, SetupError>
    requires k <= |mesh.polygons|
  {
    if k == 0 then Ok([])
    else
      match NodeFacesUpTo(node, mesh, sqrt, k - 1)
      case Err(e) => Err(e)
      case Ok(fs) =>
        match PolygonFace(node, mesh, mesh.polygons[k - 1], sqrt)
        case Err(e) => Err(e)
        case Ok(f) => Ok(fs + [f])
  }

  function NodeFaces(node: Node, mesh: Mesh, sqrt: real -> real): Result<seq<Polyfaces.Face>, SetupError>
  {
    NodeFacesUpTo(node, mesh, sqrt, |mesh.polygons|)
  }

  /** The faces of the first k nodes of the scene. */
  function SceneFacesUpTo(nodes: seq<Node>, meshes: map<string, Mesh>, instances: Instances,
                          sqrt: real -> real, k: nat): Result<seq<Polyfaces.Face>, SetupError>
    requires k <= |nodes|
  {
    if k == 0 then Ok([])
    else
      match SceneFacesUpTo(nodes, meshes, instances, sqrt, k - 1)
      case Err(e) => Err(e)
      case Ok(fs) =>
        match NodeResult(nodes[k - 1], meshes, instances, sqrt)
        case Err(e) => Err(e)
        case Ok(nfs) => Ok(fs + nfs)
  }

  /** The world-space faces of one node, or the exception its mesh or a polygon throws. */
  function NodeResult(node: Node, meshes: map<string, Mesh>, instances: Instances,
                      sqrt: real -> real): Result<seq<Polyfaces.Face>, SetupError>
  {
    match ResolveMesh(node, meshes, instances)
    case Err(e) => Err(e)
    case Ok(m) => NodeFaces(node, m, sqrt)
  }

  /** allPolygons of setupScene, or the exception that stops it. */
  function SceneFaces(nodes: seq<Node>, meshes: map<string, Mesh>, instances: Instances,
                      sqrt: real -> real): Result<seq<Polyfaces.Face>, SetupError>
  {
    SceneFacesUpTo(nodes, meshes, instances, sqrt, |nodes|)
  }

  /** The number of polygons in the meshes of the first k nodes. */
  function PolygonsUpTo(nodes: seq<Node>, meshes: map<string, Mesh>, instances: Instances, k: nat): nat
    requires k <= |nodes|
  {
    if k == 0 then 0
    else
      PolygonsUpTo(nodes, meshes, instances, k - 1) +
      match ResolveMesh(nodes[k - 1], meshes, instances)
      case Ok(m) => |m.polygons|
      case Err(_) => 0
  }

  /** Each of the first k polygons of the mesh yields a face. */
  predicate YieldFaces(node: Node, mesh: Mesh, sqrt: real -> real, k: nat)
    requires k <= |mesh.polygons|
  {
    forall i | 0 <= i < k :: PolygonFace(node, mesh, mesh.polygons[i], sqrt).Ok?
  }

  /** fs holds, in order, the faces of the first |fs| polygons. */
  predicate FacesOf(node: Node, mesh: Mesh, sqrt: real -> real, fs: seq<Polyfaces.Face>)
    requires |fs| <= |mesh.polygons|
  {
    forall i | 0 <= i < |fs| :: PolygonFace(node, mesh, mesh.polygons[i], sqrt) == Ok(fs[i])
  }

  /**
   * A node's faces are its polygons' faces, one per polygon and in order, and they
   * exist exactly when every polygon yields one.
   */
  lemma {:induction false} NodeFacesUpToShape(node: Node, mesh: Mesh, sqrt: real -> real, k: nat)
    requires k <= |mesh.polygons|
    ensures NodeFacesUpTo(node, mesh, sqrt, k).Ok? <==> YieldFaces(node, mesh, sqrt, k)
    ensures NodeFacesUpTo(node, mesh, sqrt, k).Ok? ==>
      |NodeFacesUpTo(node, mesh, sqrt, k).value| == k && FacesOf(node, mesh, sqrt, NodeFacesUpTo(node, mesh, sqrt, k).value)
  {
    if k > 0 {
      NodeFacesUpToShape(node, mesh, sqrt, k - 1);
      YieldFacesStep(node, mesh, sqrt, k);
      var prev := NodeFacesUpTo(node, mesh, sqrt, k - 1);
      var pf := PolygonFace(node, mesh, mesh.polygons[k - 1], sqrt);
      if prev.Ok? && pf.Ok? {
        FacesOfAppend(node, mesh, sqrt, prev.value, pf.value);
      }
    }
  }

  lemma YieldFacesStep(node: Node, mesh: Mesh, sqrt: real -> real, k: nat)
    requires 0 < k <= |mesh.polygons|
    ensures YieldFaces(node, mesh, sqrt, k) <==>
      YieldFaces(node, mesh, sqrt, k - 1) && PolygonFace(node, mesh, mesh.polygons[k - 1], sqrt).Ok?
  {
  }

  lemma FacesOfAppend(node: Node, mesh: Mesh, sqrt: real -> real, fs: seq<Polyfaces.Face>, f: Polyfaces.Face)
    requires |fs| < |mesh.polygons|
    requires FacesOf(node, mesh, sqrt, fs)
    requires PolygonFace(node, mesh, mesh.polygons[|fs|], sqrt) == Ok(f)
    ensures FacesOf(node, mesh, sqrt, fs + [f])
  {
    var gs := fs + [f];
    forall i | 0 <= i < |gs|
      ensures PolygonFace(node, mesh, mesh.polygons[i], sqrt) == Ok(gs[i])
    {
      if i < |fs| {
        assert gs[i] == fs[i];
      }
    }
  }

  lemma NodeFacesShape(node: Node, mesh: Mesh, sqrt: real -> real)
    ensures NodeFaces(node, mesh, sqrt).Ok? <==> YieldFaces(node, mesh, sqrt, |mesh.polygons|)
    ensures NodeFaces(node, mesh, sqrt).Ok? ==>
      |NodeFaces(node, mesh, sqrt).value| == |mesh.polygons| && FacesOf(node, mesh, sqrt, NodeFaces(node, mesh, sqrt).value)
  {
    NodeFacesUpToShape(node, mesh, sqrt, |mesh.polygons|);
  }

  /** Exactly one face per (node, polygon) pair. */
  lemma {:induction false} SceneFacesUpToCount(nodes: seq<Node>, meshes: map<string, Mesh>, instances: Instances,
                                              sqrt: real -> real, k: nat)
    requires k <= |nodes|
    ensures SceneFacesUpTo(nodes, meshes, instances, sqrt, k).Ok? ==>
      |SceneFacesUpTo(nodes, meshes, instances, sqrt, k).value| == PolygonsUpTo(nodes, meshes, instances, k)
  {
    if k > 0 {
      SceneFacesUpToCount(nodes, meshes, instances, sqrt, k - 1);
      var r := ResolveMesh(nodes[k - 1], meshes, instances);
      if r.Ok? {
        NodeFacesShape(nodes[k - 1], r.value, sqrt);
      }
    }
  }

  lemma SceneFacesCount(nodes: seq<Node>, meshes: map<string, Mesh>, instances: Instances, sqrt: real -> real)
    ensures SceneFaces(nodes, meshes, instances, sqrt).Ok? ==>
      |SceneFaces(nodes, meshes, instances, sqrt).value| == PolygonsUpTo(nodes, meshes, instances, |nodes|)
  {
    SceneFacesUpToCount(nodes, meshes, instances, sqrt, |nodes|);
  }

  /**
   * A node whose mesh resolves, passes the index part of sanityCheck, and has no
   * negative colour index into a present colour list.
   */
  predicate Ready(node: Node, meshes: map<string, Mesh>, instances: Instances)
  {
    var r := ResolveMesh(node, meshes, instances);
    r.Ok? && WellIndexed(r.value.polygons, |r.value.vertices|) &&
    forall i | 0 <= i < |r.value.polygons| :: FaceColor(node, r.value.polygons[i]).Ok?
  }

  lemma {:induction false} SceneFacesUpToSucceed(nodes: seq<Node>, meshes: map<string, Mesh>, instances: Instances,
                                                sqrt: real -> real, k: nat)
    requires k <= |nodes|
    requires forall j | 0 <= j < |nodes| :: Ready(nodes[j], meshes, instances)
    ensures SceneFacesUpTo(nodes, meshes, instances, sqrt, k).Ok?
  {
    if k > 0 {
      SceneFacesUpToSucceed(nodes, meshes, instances, sqrt, k - 1);
      NodeSucceeds(nodes[k - 1], meshes, instances, sqrt);
    }
  }

  /** A ready node yields its faces without an exception. */
  lemma NodeSucceeds(node: Node, meshes: map<string, Mesh>, instances: Instances, sqrt: real -> real)
    requires Ready(node, meshes, instances)
    ensures NodeResult(node, meshes, instances, sqrt).Ok?
  {
    var m := ResolveMesh(node, meshes, instances).value;
    forall i | 0 <= i < |m.polygons|
      ensures PolygonFace(node, m, m.polygons[i], sqrt).Ok?
    {
      assert InRange(m.polygons[i].indexes, |m.vertices|);
    }
    assert YieldFaces(node, m, sqrt, |m.polygons|);
    NodeFacesShape(node, m, sqrt);
  }

  /** setupScene collects its faces without an exception when every node is ready. */
  lemma SceneFacesSucceed(nodes: seq<Node>, meshes: map<string, Mesh>, instances: Instances, sqrt: real -> real)
    requires forall j | 0 <= j < |nodes| :: Ready(nodes[j], meshes, instances)
    ensures SceneFaces(nodes, meshes, instances, sqrt).Ok?
  {
    SceneFacesUpToSucceed(nodes, meshes, instances, sqrt, |nodes|);
  }

  /** The coordinate-carrying instances have the topology of Mesh.getShapeInstance. */
  ghost predicate InstancesAgree(instances: Instances)
  {
    forall s, a :: (instances(s, a).Ok? <==> ShapeInstance(s, a).Ok?) &&
      (instances(s, a).Ok? ==> TopologyOf(instances(s, a).value) == ShapeInstance(s, a).value)
  }

  /** A shape node whose arguments are accepted always has a well-indexed mesh. */
  lemma ShapeNodeWellIndexed(node: Node, meshes: map<string, Mesh>, instances: Instances)
    requires InstancesAgree(instances)
    requires node.mesh.ByShape? && ShapeInstance(node.mesh.shape, node.mesh.arguments).Ok?
    ensures ResolveMesh(node, meshes, instances).Ok?
    ensures var m := ResolveMesh(node, meshes, instances).value; WellIndexed(m.polygons, |m.vertices|)
  {
    var s, a := node.mesh.shape, node.mesh.arguments;
    assert instances(s, a).Ok? <==> ShapeInstance(s, a).Ok?;
    InstancesPass(s, a);
  }

  /** The comparison BSPNode.build uses to file a coplanar face: normals pointing the same way. */
  function SameDirection(p: Polyfaces.Face, s: Polyfaces.Face): bool
  {
    Dot(p.normal, s.normal) > 0.0
  }

  function SplitWith(sqrt: real -> real): (Polyfaces.Face, Polyfaces.Face) -> (Option<Polyfaces.Face>, Option<Polyfaces.Face>)
  {
    (x: Polyfaces.Face, s: Polyfaces.Face) => Polyfaces.SplitFace(x, s, sqrt)
  }

  /** Polyfaces.classify and Polyfaces.split agree with the side predicates the BSP invariant uses. */
  lemma PolyfaceSidesSound(sqrt: real -> real)
    ensures Bsp.SoundSides(Polyfaces.Classification, SplitWith(sqrt), Polyfaces.NotBehind, Polyfaces.NotAhead)
    ensures Bsp.Hereditary(SplitWith(sqrt), Polyfaces.NotBehind, Polyfaces.NotAhead)
  {
    forall p: Polyfaces.Face, s: Polyfaces.Face
      ensures Polyfaces.Classification(p, s) == Polyfaces.Front ==> Polyfaces.NotBehind(p, s)
      ensures Polyfaces.Classification(p, s) == Polyfaces.Back ==> Polyfaces.NotAhead(p, s)
      ensures Polyfaces.Classification(p, s) == Polyfaces.Coplanar ==> Polyfaces.NotBehind(p, s) && Polyfaces.NotAhead(p, s)
      ensures SplitWith(sqrt)(p, s).0.Some? ==> Polyfaces.NotBehind(SplitWith(sqrt)(p, s).0.value, s)
      ensures SplitWith(sqrt)(p, s).1.Some? ==> Polyfaces.NotAhead(SplitWith(sqrt)(p, s).1.value, s)
    {
      Polyfaces.ClassificationSides(p, s);
      Polyfaces.SplitSound(p, s, sqrt);
    }
    forall p: Polyfaces.Face, s: Polyfaces.Face, r: Polyfaces.Face
      ensures Polyfaces.NotBehind(p, r) && SplitWith(sqrt)(p, s).0.Some? ==> Polyfaces.NotBehind(SplitWith(sqrt)(p, s).0.value, r)
      ensures Polyfaces.NotBehind(p, r) && SplitWith(sqrt)(p, s).1.Some? ==> Polyfaces.NotBehind(SplitWith(sqrt)(p, s).1.value, r)
      ensures Polyfaces.NotAhead(p, r) && SplitWith(sqrt)(p, s).0.Some? ==> Polyfaces.NotAhead(SplitWith(sqrt)(p, s).0.value, r)
      ensures Polyfaces.NotAhead(p, r) && SplitWith(sqrt)(p, s).1.Some? ==> Polyfaces.NotAhead(SplitWith(sqrt)(p, s).1.value, r)
    {
      Polyfaces.SplitHereditary(p, s, r, sqrt);
    }
  }

  /**
   * The scene tree setupScene builds is a true BSP tree: every face in a node's front
   * subtree is not behind the node's plane and every face in its back subtree is not
   * ahead of it (both within EPSILON).
   */
  lemma SceneTreePartitioned(faces: seq<Polyfaces.Face>, sqrt: real -> real)
    ensures Bsp.Partitioned(Bsp.BuildTree(faces, Polyfaces.Classification, SameDirection, SplitWith(sqrt)),
                            Polyfaces.NotBehind, Polyfaces.NotAhead)
  {
    PolyfaceSidesSound(sqrt);
    Bsp.BuildPartitioned(faces, Polyfaces.Classification, SameDirection, SplitWith(sqrt), Polyfaces.NotBehind, Polyfaces.NotAhead);
  }

  /** traverse's camera test: the camera lies strictly in front of the splitter's plane. */
  function CameraSide(camera: Vec4): Polyfaces.Face -> bool
  {
    (s: Polyfaces.Face) => Polyfaces.SignedDist(camera, s) > 0.0
  }

  /**
   * Traversing the scene tree from a camera draws every face once, and at the root
   * the faces drawn before the splitter are on its far side from the camera and
   * those drawn after it on the camera's side.
   */
  lemma SceneDrawOrder(faces: seq<Polyfaces.Face>, sqrt: real -> real, camera: Vec4)
    ensures var t := Bsp.BuildTree(faces, Polyfaces.Classification, SameDirection, SplitWith(sqrt));
      var o := Bsp.Order(t, CameraSide(camera));
      && multiset(o) == Bsp.Members(t)
      && (t.Node? ==>
            var s := t.splitter;
            var inFront := Polyfaces.SignedDist(camera, s) > 0.0;
            var k := if inFront then |Bsp.Order(t.back, CameraSide(camera))| else |Bsp.Order(t.front, CameraSide(camera))|;
            && k < |o| && o[k] == s
            && (forall i | 0 <= i < k :: if inFront then Polyfaces.NotAhead(o[i], s) else Polyfaces.NotBehind(o[i], s))
            && (forall i | k < i < |o| :: if inFront then Polyfaces.NotBehind(o[i], s) else Polyfaces.NotAhead(o[i], s)))
  {
    var t := Bsp.BuildTree(faces, Polyfaces.Classification, SameDirection, SplitWith(sqrt));
    Bsp.OrderIsPermutation(t, CameraSide(camera));
    if t.Node? {
      SceneTreePartitioned(faces, sqrt);
      Bsp.PainterOrder(t, CameraSide(camera), Polyfaces.NotBehind, Polyfaces.NotAhead);
    }
  }

  /** addMesh's invariant on the mesh table: each mesh is filed under its own id. */
  predicate FiledById(meshes: map<string, Mesh>)
  {
    forall id | id in meshes :: meshes[id].id == id
  }

  /** In a table kept by addMesh, a node's mesh id resolves to a mesh carrying that id. */
  lemma ResolvedMeshHasId(node: Node, meshes: map<string, Mesh>, instances: Instances)
    requires FiledById(meshes) && node.mesh.ById?
    ensures ResolveMesh(node, meshes, instances).Ok? <==> node.mesh.meshID in meshes
    ensures ResolveMesh(node, meshes, instances).Ok? ==> ResolveMesh(node, meshes, instances).value.id == node.mesh.meshID
  {
  }

  // -------------------------------------------------------------- the engine object

  class Engine3D {
    var meshes: map<string, Mesh>
    var sceneNodes: seq<Node>
    var cameraPos: Vector3D?
    var sceneBspTree: Option<Bsp.Tree<Polyfaces.Face>>

    /** Each user mesh is filed under its own id. */
    ghost predicate Valid()
      reads this
    {
      FiledById(meshes)
    }

    constructor ()
      ensures Valid()
      ensures meshes == map[] && sceneNodes == [] && cameraPos == null && sceneBspTree == None
    {
      meshes, sceneNodes, cameraPos, sceneBspTree := map[], [], null, None;
    }

    method SetCameraPos(pos: Vector3D)
      modifies this
      ensures cameraPos == pos
      ensures meshes == old(meshes) && sceneNodes == old(sceneNodes) && sceneBspTree == old(sceneBspTree)
    {
      cameraPos := pos;
    }

    /** getSceneNodes().add(node): the list is the engine's own. */
    method AddSceneNode(node: Node)
      modifies this
      ensures sceneNodes == old(sceneNodes) + [node]
      ensures meshes == old(meshes) && cameraPos == old(cameraPos) && sceneBspTree == old(sceneBspTree)
    {
      sceneNodes := sceneNodes + [node];
    }

    /** addMesh: files the mesh and answers true when its id is new; otherwise changes nothing. */
    method AddMesh(mesh: Mesh) returns (added: bool)
      requires Valid()
      modifies this
      ensures Valid()
      ensures added <==> mesh.id !in old(meshes)
      ensures meshes == if added then old(meshes)[mesh.id := mesh] else old(meshes)
      ensures forall id | id in old(meshes) :: id in meshes && meshes[id] == old(meshes)[id]
      ensures sceneNodes == old(sceneNodes) && cameraPos == old(cameraPos) && sceneBspTree == old(sceneBspTree)
    {
      var id := mesh.id;
      if id !in meshes {
        meshes := meshes[id := mesh];
        return true;
      }
      return false;
    }

    /**
     * updateCamera: moves the camera position in place and answers whether it moved;
     * forward and right stand for the yaw-rotated, normalised axes.
     */
    method UpdateCamera(direction: Direction, shift: bool, forward: Vec4, right: Vec4, moveSpeed: real)
      returns (changed: bool)
      requires cameraPos != null
      modifies cameraPos
      ensures changed <==> Moved(old(cameraPos.Value()), direction, shift, forward, right, moveSpeed).Some?
      ensures changed ==> cameraPos.Value() == Moved(old(cameraPos.Value()), direction, shift, forward, right, moveSpeed).value
      ensures !changed ==> cameraPos.Value() == old(cameraPos.Value())
    {
      var forwardv := new Vector3D.Homogeneous(forward.x, forward.y, forward.z, forward.w);
      var rightv := new Vector3D.Homogeneous(right.x, right.y, right.z, right.w);
      if direction == UP {
        if shift {
          cameraPos.y := cameraPos.y + moveSpeed;
        } else {
          forwardv.Multiply(moveSpeed);
          cameraPos.Add(forwardv);
        }
        return true;
      } else if direction == DOWN {
        if shift {
          cameraPos.y := cameraPos.y - moveSpeed;
        } else {
          forwardv.Multiply(moveSpeed);
          cameraPos.Subtract(forwardv);
        }
        return true;
      } else if direction == LEFT && !shift {
        rightv.Multiply(moveSpeed);
        cameraPos.Subtract(rightv);
        return true;
      } else if direction == RIGHT && !shift {
        rightv.Multiply(moveSpeed);
        cameraPos.Add(rightv);
        return true;
      }
      return false;
    }

    /**
     * The face-collecting part of setupScene and the BSP build that follows it; on an
     * exception the old tree stays.
     */
    method SetupScene(instances: Instances, sqrt: real -> real) returns (allPolygons: Result<seq<Polyfaces.Face>, SetupError>)
      modifies this
      ensures allPolygons == SceneFaces(sceneNodes, meshes, instances, sqrt)
      ensures allPolygons.Ok? ==>
        sceneBspTree == Some(Bsp.BuildTree(allPolygons.value, Polyfaces.Classification, SameDirection, SplitWith(sqrt)))
      ensures allPolygons.Err? ==> sceneBspTree == old(sceneBspTree)
      ensures meshes == old(meshes) && sceneNodes == old(sceneNodes) && cameraPos == old(cameraPos)
    {
      var all := CollectSceneFaces(sceneNodes, meshes, instances, sqrt);
      if all.Err? {
        return all;
      }
      var tree := Bsp.Build(all.value, Polyfaces.Classification, SameDirection, SplitWith(sqrt));
      sceneBspTree := Some(tree);
      return all;
    }
  }

  /** The outer loop of setupScene, over the scene nodes. */
  method CollectSceneFaces(nodes: seq<Node>, meshes: map<string, Mesh>, instances: Instances, sqrt: real -> real)
    returns (r: Result<seq<Polyfaces.Face>, SetupError>)
    ensures r == SceneFaces(nodes, meshes, instances, sqrt)
  {
    var all: seq<Polyfaces.Face> := [];
    for k := 0 to |nodes|
      invariant SceneFacesUpTo(nodes, meshes, instances, sqrt, k) == Ok(all)
    {
      var next := AddNodeFaces(nodes, meshes, instances, sqrt, k, all);
      if next.Err? {
        return next;
      }
      all := next.value;
    }
    return Ok(all);
  }

  /**
   * One pass of setupScene's loop: the faces of node k appended to those before
   * it, or the exception that then ends the whole loop.
   */
  method AddNodeFaces(nodes: seq<Node>, meshes: map<string, Mesh>, instances: Instances, sqrt: real -> real,
                      k: nat, all: seq<Polyfaces.Face>)
    returns (r: Result<seq<Polyfaces.Face>, SetupError>)
    requires k < |nodes| && SceneFacesUpTo(nodes, meshes, instances, sqrt, k) == Ok(all)
    ensures r == SceneFacesUpTo(nodes, meshes, instances, sqrt, k + 1)
    ensures r.Err? ==> r == SceneFaces(nodes, meshes, instances, sqrt)
  {
    SceneFacesStep(nodes, meshes, instances, sqrt, k, all);
    var faces := CollectNode(nodes[k], meshes, instances, sqrt);
    if faces.Err? {
      SceneErrorStays(nodes, meshes, instances, sqrt, k + 1, |nodes|);
      return Err(faces.error);
    }
    return Ok(all + faces.value);
  }

  /** Once an exception is thrown, later nodes do not matter. */
  lemma {:induction false} SceneErrorStays(nodes: seq<Node>, meshes: map<string, Mesh>, instances: Instances,
                                          sqrt: real -> real, k: nat, n: nat)
    requires k <= n <= |nodes|
    requires SceneFacesUpTo(nodes, meshes, instances, sqrt, k).Err?
    ensures SceneFacesUpTo(nodes, meshes, instances, sqrt, n) == SceneFacesUpTo(nodes, meshes, instances, sqrt, k)
    decreases n - k
  {
    if k < n {
      SceneErrorStays(nodes, meshes, instances, sqrt, k, n - 1);
    }
  }

  lemma {:induction false} NodeErrorStays(node: Node, mesh: Mesh, sqrt: real -> real, k: nat, n: nat)
    requires k <= n <= |mesh.polygons|
    requires NodeFacesUpTo(node, mesh, sqrt, k).Err?
    ensures NodeFacesUpTo(node, mesh, sqrt, n) == NodeFacesUpTo(node, mesh, sqrt, k)
    decreases n - k
  {
    if k < n {
      NodeErrorStays(node, mesh, sqrt, k, n - 1);
    }
  }

  lemma SceneFacesStep(nodes: seq<Node>, meshes: map<string, Mesh>, instances: Instances,
                       sqrt: real -> real, k: nat, fs: seq<Polyfaces.Face>)
    requires k < |nodes| && SceneFacesUpTo(nodes, meshes, instances, sqrt, k) == Ok(fs)
    ensures SceneFacesUpTo(nodes, meshes, instances, sqrt, k + 1) ==
      match NodeResult(nodes[k], meshes, instances, sqrt)
      case Err(e) => Err(e)
      case Ok(nfs) => Ok(fs + nfs)
  {
  }

  /** The body of setupScene's loop for one node: resolve its mesh, then collect its faces. */
  method CollectNode(node: Node, meshes: map<string, Mesh>, instances: Instances, sqrt: real -> real)
    returns (r: Result<seq<Polyfaces.Face>, SetupError>)
    ensures r == NodeResult(node, meshes, instances, sqrt)
  {
    var mesh := ResolveMesh(node, meshes, instances);
    if mesh.Err? {
      return Err(mesh.error);
    }
    r := CollectNodeFaces(node, mesh.value, sqrt);
  }

  lemma NodeFacesStep(node: Node, mesh: Mesh, sqrt: real -> real, k: nat, fs: seq<Polyfaces.Face>)
    requires k < |mesh.polygons| && NodeFacesUpTo(node, mesh, sqrt, k) == Ok(fs)
    ensures NodeFacesUpTo(node, mesh, sqrt, k + 1) ==
      match PolygonFace(node, mesh, mesh.polygons[k], sqrt)
      case Err(e) => Err(e)
      case Ok(f) => Ok(fs + [f])
  {
  }

  /** The inner loop of setupScene over one node's polygons. */
  method CollectNodeFaces(node: Node, mesh: Mesh, sqrt: real -> real) returns (r: Result<seq<Polyfaces.Face>, SetupError>)
    ensures r == NodeFaces(node, mesh, sqrt)
  {
    var fs: seq<Polyfaces.Face> := [];
    var k := 0;
    while k < |mesh.polygons|
      invariant 0 <= k <= |mesh.polygons|
      invariant NodeFacesUpTo(node, mesh, sqrt, k) == Ok(fs)
    {
      var f := WorldFace(node, mesh, mesh.polygons[k], sqrt);
      NodeFacesStep(node, mesh, sqrt, k, fs);
      if f.Err? {
        NodeErrorStays(node, mesh, sqrt, k + 1, |mesh.polygons|);
        return Err(f.error);
      }
      fs := fs + [f.value];
      k := k + 1;
    }
    return Ok(fs);
  }

  /** One polygon: copy its vertices, move them to world space, pick the colour, build the face. */
  method WorldFace(node: Node, mesh: Mesh, poly: Polygon3D, sqrt: real -> real) returns (r: Result<Polyfaces.Face, SetupError>)
    ensures r == PolygonFace(node, mesh, poly, sqrt)
  {
    var n := |poly.indexes|;
    var vertices: seq<Vec4> := [];
    var i := 0;
    while i < n
      invariant 0 <= i <= n && |vertices| == i
      invariant InRange(poly.indexes[..i], |mesh.vertices|)
      invariant forall k | 0 <= k < i :: vertices[k] == mesh.vertices[poly.indexes[k]]
    {
      var idx := poly.indexes[i];
      if !(0 <= idx < |mesh.vertices|) {
        return Err(VertexOutOfRange);
      }
      vertices := vertices + [mesh.vertices[idx]];
      i := i + 1;
    }
    assert poly.indexes[..n] == poly.indexes;
    assert vertices == Gathered(mesh.vertices, poly.indexes);
    var world := Transformed(vertices, node.worldMatrix);
    var color := FaceColor(node, poly);
    if color.Err? {
      return Err(color.error);
    }
    if n < 3 {
      return Err(FewVertices(n));
    }
    return Ok(Polyfaces.NewPolyface(color.value, world, sqrt));
  }

  // ------------------------------------------------------------ the message log

  /** Concatenation of the messages, each followed by a newline. */
  function Lines(ms: seq<string>): string
  {
    if |ms| == 0 then "" else Lines(ms[..|ms| - 1]) + ms[|ms| - 1] + "\n"
  }

  /** getInfo's (messages, sb) pair, as far as printOnce uses it. */
  class MessageLog {
    var messages: set<string>
    var text: string
    /** The messages in the order they were printed. */
    ghost var printed: seq<string>

    /** Each message is printed once, and exactly the remembered messages are printed. */
    ghost predicate Valid()
      reads this
    {
      (forall i, j | 0 <= i < j < |printed| :: printed[i] != printed[j]) &&
      (forall m :: m in messages <==> m in printed) &&
      text == Lines(printed)
    }

    constructor ()
      ensures Valid() && messages == {} && text == "" && printed == []
    {
      messages, text, printed := {}, "", [];
    }

    /** printOnce: appends the message and a newline unless it is already in the set. */
    method PrintOnce(message: string)
      requires Valid()
      modifies this
      ensures Valid()
      ensures message in old(messages) ==> messages == old(messages) && text == old(text) && printed == old(printed)
      ensures message !in old(messages) ==>
        messages == old(messages) + {message} && text == old(text) + message + "\n" &&
        printed == old(printed) + [message]
    {
      if message !in messages {
        text := text + message + "\n";
        messages := messages + {message};
        printed := printed + [message];
        assert printed[..|printed| - 1] == old(printed);
      }
    }
  }
}
