/**
 * Matrix4x4: a 4x4 matrix of exact reals, row-major, used with row vectors
 * (a point v is transformed to v . M). The class keeps the source's `double[4][4]`
 * as an array2 that its methods update in place; Entries() is its value as a
 * sequence of four rows of four entries.
 */
module Matrices {
  import opened Vectors

  type Mat = seq<seq<real>>

  predicate IsMat(a: Mat)
  {
    |a| == 4 && forall r | 0 <= r < 4 :: |a[r]| == 4
  }

  /** Two 4x4 matrices with the same sixteen entries are equal. */
  lemma MatEq(a: Mat, b: Mat)
    requires IsMat(a) && IsMat(b)
    requires forall r, c | 0 <= r < 4 && 0 <= c < 4 :: a[r][c] == b[r][c]
    ensures a == b
  {
    forall r | 0 <= r < 4
      ensures a[r] == b[r]
    {
      assert forall c | 0 <= c < 4 :: a[r][c] == b[r][c];
    }
  }

  function Identity(): (e: Mat)
    ensures IsMat(e)
  {
    [[1.0, 0.0, 0.0, 0.0], [0.0, 1.0, 0.0, 0.0], [0.0, 0.0, 1.0, 0.0], [0.0, 0.0, 0.0, 1.0]]
  }

  /** The zero matrix, what `new double[4][4]` holds. */
  function Zero(): (e: Mat)
    ensures IsMat(e)
  {
    [[0.0, 0.0, 0.0, 0.0], [0.0, 0.0, 0.0, 0.0], [0.0, 0.0, 0.0, 0.0], [0.0, 0.0, 0.0, 0.0]]
  }

  predicate IsIdentityMatrix(a: Mat)
    requires IsMat(a)
  {
    forall r, c | 0 <= r < 4 && 0 <= c < 4 :: a[r][c] == if r == c then 1.0 else 0.0
  }

  lemma IdentityIsIdentity()
    ensures IsIdentityMatrix(Identity())
    ensures forall a :: IsMat(a) && IsIdentityMatrix(a) ==> a == Identity()
  {
    forall a | IsMat(a) && IsIdentityMatrix(a)
      ensures a == Identity()
    {
      MatEq(a, Identity());
    }
  }

  /** Entry (r, c) of a . b. */
  function MulEntry(a: Mat, b: Mat, r: int, c: int): real
    requires IsMat(a) && IsMat(b) && 0 <= r < 4 && 0 <= c < 4
  {
    a[r][0] * b[0][c] + a[r][1] * b[1][c] + a[r][2] * b[2][c] + a[r][3] * b[3][c]
  }

  function Mul(a: Mat, b: Mat): (p: Mat)
    requires IsMat(a) && IsMat(b)
    ensures IsMat(p)
    ensures forall r, c | 0 <= r < 4 && 0 <= c < 4 :: p[r][c] == MulEntry(a, b, r, c)
  {
    seq(4, r requires 0 <= r < 4 => seq(4, c requires 0 <= c < 4 => MulEntry(a, b, r, c)))
  }

  /** Row vector times matrix: v . a, all four components. */
  function VecMul(v: Vec4, a: Mat): Vec4
    requires IsMat(a)
  {
    Vec4(v.x * a[0][0] + v.y * a[1][0] + v.z * a[2][0] + v.w * a[3][0],
         v.x * a[0][1] + v.y * a[1][1] + v.z * a[2][1] + v.w * a[3][1],
         v.x * a[0][2] + v.y * a[1][2] + v.z * a[2][2] + v.w * a[3][2],
         v.x * a[0][3] + v.y * a[1][3] + v.z * a[2][3] + v.w * a[3][3])
  }

  /** The identity with the translation (x, y, z) in row 3. */
  function Translation(x: real, y: real, z: real): (t: Mat)
    ensures IsMat(t)
  {
    [[1.0, 0.0, 0.0, 0.0], [0.0, 1.0, 0.0, 0.0], [0.0, 0.0, 1.0, 0.0], [x, y, z, 1.0]]
  }

  /** The identity with (sx, sy, sz) on the first three diagonal entries. */
  function Scaling(sx: real, sy: real, sz: real): (t: Mat)
    ensures IsMat(t)
  {
    [[sx, 0.0, 0.0, 0.0], [0.0, sy, 0.0, 0.0], [0.0, 0.0, sz, 0.0], [0.0, 0.0, 0.0, 1.0]]
  }

  lemma MulIdentity(a: Mat)
    requires IsMat(a)
    ensures Mul(Identity(), a) == a
    ensures Mul(a, Identity()) == a
  {
    MatEq(Mul(Identity(), a), a);
    MatEq(Mul(a, Identity()), a);
  }

  /**
   * applyTranslation on an identity receiver yields the translation matrix; a point
   * (w = 1) is moved by (x, y, z) and keeps w, and a direction (w = 0) does not move.
   */
  lemma TranslationMoves(v: Vec4, x: real, y: real, z: real)
    ensures Mul(Identity(), Translation(x, y, z)) == Translation(x, y, z)
    ensures VecMul(v, Translation(x, y, z)) == Vec4(v.x + v.w * x, v.y + v.w * y, v.z + v.w * z, v.w)
  {
    MulIdentity(Translation(x, y, z));
    var t := Translation(x, y, z);
    assert t[3] == [x, y, z, 1.0] && t[0] == [1.0, 0.0, 0.0, 0.0] && t[1] == [0.0, 1.0, 0.0, 0.0] && t[2] == [0.0, 0.0, 1.0, 0.0];
    var p := VecMul(v, t);
    assert p.x == v.x + v.w * x;
    assert p.y == v.y + v.w * y;
    assert p.z == v.z + v.w * z;
    assert p.w == v.w;
  }

  /** applyScale on an identity receiver: the scale factors on the diagonal, w kept. */
  lemma ScalingScales(v: Vec4, sx: real, sy: real, sz: real)
    ensures Mul(Identity(), Scaling(sx, sy, sz)) == Scaling(sx, sy, sz)
    ensures VecMul(v, Scaling(sx, sy, sz)) == Vec4(v.x * sx, v.y * sy, v.z * sz, v.w)
  {
    MulIdentity(Scaling(sx, sy, sz));
  }

  /**
   * quickInverse: the transpose of the top-left 3x3 block, column 3 = (0, 0, 0, 1),
   * and row 3 = -(t . R^T) for the translation row t.
   */
  function QuickInv(a: Mat): (q: Mat)
    requires IsMat(a)
    ensures IsMat(q)
    ensures forall r, c | 0 <= r < 3 && 0 <= c < 3 :: q[r][c] == a[c][r]
    ensures q[0][3] == 0.0 && q[1][3] == 0.0 && q[2][3] == 0.0 && q[3][3] == 1.0
    ensures forall c | 0 <= c < 3 :: q[3][c] == -(a[3][0] * a[c][0] + a[3][1] * a[c][1] + a[3][2] * a[c][2])
  {
    var t0 := -(a[3][0] * a[0][0] + a[3][1] * a[0][1] + a[3][2] * a[0][2]);
    var t1 := -(a[3][0] * a[1][0] + a[3][1] * a[1][1] + a[3][2] * a[1][2]);
    var t2 := -(a[3][0] * a[2][0] + a[3][1] * a[2][1] + a[3][2] * a[2][2]);
    [[a[0][0], a[1][0], a[2][0], 0.0],
     [a[0][1], a[1][1], a[2][1], 0.0],
     [a[0][2], a[1][2], a[2][2], 0.0],
     [t0, t1, t2, 1.0]]
  }

  /** Dot product of rows i and j over the first three columns. */
  function RowDot(a: Mat, i: int, j: int): real
    requires IsMat(a) && 0 <= i < 4 && 0 <= j < 4
  {
    a[i][0] * a[j][0] + a[i][1] * a[j][1] + a[i][2] * a[j][2]
  }

  /** A rotation + translation: orthonormal rows 0..2 and column 3 = (0, 0, 0, 1). */
  predicate Rigid(a: Mat)
    requires IsMat(a)
  {
    && a[0][3] == 0.0 && a[1][3] == 0.0 && a[2][3] == 0.0 && a[3][3] == 1.0
    && forall i, j | 0 <= i < 3 && 0 <= j < 3 :: RowDot(a, i, j) == if i == j then 1.0 else 0.0
  }

  /** For a rigid matrix, quickInverse really is an inverse: a . QuickInv(a) = I. */
  lemma QuickInverseIsInverse(a: Mat)
    requires IsMat(a) && Rigid(a)
    ensures Mul(a, QuickInv(a)) == Identity()
  {
    var q := QuickInv(a);
    var p := Mul(a, q);
    forall r, c | 0 <= r < 4 && 0 <= c < 4
      ensures p[r][c] == Identity()[r][c]
    {
      if c == 3 {
        QuickInvLastColumn(a, r);
      } else if r < 3 {
        QuickInvRotation(a, r, c);
      } else {
        QuickInvTranslation(a, c);
      }
    }
    MatEq(p, Identity());
  }

  /** Rows 0..2 against columns 0..2: the row products of a rigid matrix. */
  lemma QuickInvRotation(a: Mat, r: int, c: int)
    requires IsMat(a) && Rigid(a) && 0 <= r < 3 && 0 <= c < 3
    ensures MulEntry(a, QuickInv(a), r, c) == if r == c then 1.0 else 0.0
  {
    var q := QuickInv(a);
    assert q[0][c] == a[c][0] && q[1][c] == a[c][1] && q[2][c] == a[c][2];
    assert a[r][3] == 0.0;
    assert MulEntry(a, q, r, c) == RowDot(a, r, c);
  }

  /** Row 3 against columns 0..2: the translation cancels. */
  lemma QuickInvTranslation(a: Mat, c: int)
    requires IsMat(a) && Rigid(a) && 0 <= c < 3
    ensures MulEntry(a, QuickInv(a), 3, c) == 0.0
  {
    var q := QuickInv(a);
    var t := a[3][0] * a[c][0] + a[3][1] * a[c][1] + a[3][2] * a[c][2];
    assert q[0][c] == a[c][0] && q[1][c] == a[c][1] && q[2][c] == a[c][2];
    assert q[3][c] == -t && a[3][3] == 1.0;
    assert MulEntry(a, q, 3, c) == t + a[3][3] * q[3][c];
  }

  /** Column 3 picks out the last column of a, which is (0, 0, 0, 1). */
  lemma QuickInvLastColumn(a: Mat, r: int)
    requires IsMat(a) && Rigid(a) && 0 <= r < 4
    ensures MulEntry(a, QuickInv(a), r, 3) == if r == 3 then 1.0 else 0.0
  {
    var q := QuickInv(a);
    assert q[0][3] == 0.0 && q[1][3] == 0.0 && q[2][3] == 0.0 && q[3][3] == 1.0;
    assert MulEntry(a, q, r, 3) == a[r][3];
  }

  /** The projection matrix, given fovRad = 1 / tan(fov / 2). */
  function Projection(fovRad: real, aspectRatio: real): (p: Mat)
    ensures IsMat(p)
  {
    [[aspectRatio * fovRad, 0.0, 0.0, 0.0],
     [0.0, fovRad, 0.0, 0.0],
     [0.0, 0.0, 1.0, 1.0],
     [0.0, 0.0, -1.0, 0.0]]
  }

  /**
   * A point (w = 1) projected keeps its z as the new w, which the near-plane
   * clipper then compares with Z_NEAR.
   */
  lemma ProjectionCarriesDepth(v: Vec4, fovRad: real, aspectRatio: real)
    requires v.w == 1.0
    ensures VecMul(v, Projection(fovRad, aspectRatio)).w == v.z
    ensures VecMul(v, Projection(fovRad, aspectRatio)).z == v.z - 1.0
  {
  }

  /** The axes pointAt computes: forward, the re-orthogonalised up, and right. */
  function Forward(pos: Vec4, target: Vec4, sqrt: real -> real): Vec4
  {
    Normalized(Sub3(target, pos), sqrt)
  }

  function NewUp(pos: Vec4, target: Vec4, up: Vec4, sqrt: real -> real): Vec4
  {
    var f := Forward(pos, target, sqrt);
    var a := Scale3(f, Dot(up, f));
    Normalized(Sub3(Vec4(up.x, up.y, up.z, 1.0), a), sqrt)
  }

  /** The camera frame: rows right, up, forward (directions, w = 0) and the position. */
  function Frame(r: Vec4, u: Vec4, f: Vec4, pos: Vec4): (p: Mat)
    ensures IsMat(p)
  {
    [[r.x, r.y, r.z, 0.0],
     [u.x, u.y, u.z, 0.0],
     [f.x, f.y, f.z, 0.0],
     [pos.x, pos.y, pos.z, 1.0]]
  }

  function PointAtMatrix(pos: Vec4, target: Vec4, up: Vec4, sqrt: real -> real): (p: Mat)
    ensures IsMat(p)
  {
    var f := Forward(pos, target, sqrt);
    var u := NewUp(pos, target, up, sqrt);
    Frame(Cross(u, f), u, f, pos)
  }

  /** Gram-Schmidt step: v minus its component along a unit f is orthogonal to f. */
  lemma RejectionOrthogonal(v: Vec4, f: Vec4)
    requires SqMag(f) == 1.0
    ensures Dot(Sub3(v, Scale3(f, Dot(v, f))), f) == 0.0
  {
    var d := Dot(v, f);
    calc {
      Dot(Sub3(v, Scale3(f, d)), f);
      (v.x - f.x * d) * f.x + (v.y - f.y * d) * f.y + (v.z - f.z * d) * f.z;
      d - d * (f.x * f.x + f.y * f.y + f.z * f.z);
      d - d * SqMag(f);
    }
  }

  lemma LagrangeIdentity(u: Vec4, f: Vec4)
    ensures SqMag(Cross(u, f)) == SqMag(u) * SqMag(f) - Dot(u, f) * Dot(u, f)
  {
  }

  /** The vector pointAt normalises into the new up direction; zero when up is parallel to forward. */
  function UpRejection(pos: Vec4, target: Vec4, up: Vec4, sqrt: real -> real): Vec4
  {
    var f := Forward(pos, target, sqrt);
    Sub3(Vec4(up.x, up.y, up.z, 1.0), Scale3(f, Dot(up, f)))
  }

  /** forward and the new up are unit vectors at right angles. */
  lemma AxesOrthonormal(pos: Vec4, target: Vec4, up: Vec4, sqrt: real -> real)
    requires IsSqrt(sqrt, SqMag(Sub3(target, pos))) && SqMag(Sub3(target, pos)) != 0.0
    requires IsSqrt(sqrt, SqMag(UpRejection(pos, target, up, sqrt)))
    requires SqMag(UpRejection(pos, target, up, sqrt)) != 0.0
    ensures SqMag(Forward(pos, target, sqrt)) == 1.0
    ensures SqMag(NewUp(pos, target, up, sqrt)) == 1.0
    ensures Dot(NewUp(pos, target, up, sqrt), Forward(pos, target, sqrt)) == 0.0
  {
    var f := Forward(pos, target, sqrt);
    NormalizedIsUnit(Sub3(target, pos), sqrt);
    var v := Vec4(up.x, up.y, up.z, 1.0);
    assert Dot(v, f) == Dot(up, f);
    GramSchmidtStep(v, f, sqrt);
  }

  /** Removing from v its part along the unit vector f and normalising gives a unit vector normal to f. */
  lemma GramSchmidtStep(v: Vec4, f: Vec4, sqrt: real -> real)
    requires SqMag(f) == 1.0
    requires IsSqrt(sqrt, SqMag(Sub3(v, Scale3(f, Dot(v, f)))))
    requires SqMag(Sub3(v, Scale3(f, Dot(v, f)))) != 0.0
    ensures SqMag(Normalized(Sub3(v, Scale3(f, Dot(v, f))), sqrt)) == 1.0
    ensures Dot(Normalized(Sub3(v, Scale3(f, Dot(v, f))), sqrt), f) == 0.0
  {
    var u0 := Sub3(v, Scale3(f, Dot(v, f)));
    RejectionOrthogonal(v, f);
    NormalizedIsUnit(u0, sqrt);
    NormalizedOrthogonal(u0, f, sqrt);
  }

  /**
   * With a square root exact where pointAt uses it, a camera not at its target and
   * an up vector not parallel to the view direction, pointAt builds a rigid matrix:
   * so, by QuickInverseIsInverse, quickInverse gives the true view matrix.
   */
  lemma PointAtIsRigid(pos: Vec4, target: Vec4, up: Vec4, sqrt: real -> real)
    requires IsSqrt(sqrt, SqMag(Sub3(target, pos))) && SqMag(Sub3(target, pos)) != 0.0
    requires IsSqrt(sqrt, SqMag(UpRejection(pos, target, up, sqrt)))
    requires SqMag(UpRejection(pos, target, up, sqrt)) != 0.0
    ensures Rigid(PointAtMatrix(pos, target, up, sqrt))
  {
    AxesOrthonormal(pos, target, up, sqrt);
    FrameRigid(NewUp(pos, target, up, sqrt), Forward(pos, target, sqrt), pos);
  }

  /** Unit u and f at right angles, with r = u x f, make a rigid frame. */
  lemma FrameRigid(u: Vec4, f: Vec4, pos: Vec4)
    requires SqMag(u) == 1.0 && SqMag(f) == 1.0 && Dot(u, f) == 0.0
    ensures Rigid(Frame(Cross(u, f), u, f, pos))
  {
    var r := Cross(u, f);
    LagrangeIdentity(u, f);
    FrameOfOrthonormal(r, u, f, pos);
  }

  /** Three orthonormal rows over any position make a rigid frame. */
  lemma FrameOfOrthonormal(r: Vec4, u: Vec4, f: Vec4, pos: Vec4)
    requires SqMag(r) == 1.0 && SqMag(u) == 1.0 && SqMag(f) == 1.0
    requires Dot(r, u) == 0.0 && Dot(r, f) == 0.0 && Dot(u, f) == 0.0
    ensures Rigid(Frame(r, u, f, pos))
  {
    var p := Frame(r, u, f, pos);
    FrameRowDots(r, u, f, pos);
    forall i, j | 0 <= i < 3 && 0 <= j < 3
      ensures RowDot(p, i, j) == if i == j then 1.0 else 0.0
    {
      if i == 0 {
        if j == 0 {} else if j == 1 {} else {}
      } else if i == 1 {
        if j == 0 {} else if j == 1 {} else {}
      } else {
        if j == 0 {} else if j == 1 {} else {}
      }
    }
  }

  /** The row products of a frame are the dot products of its three axes. */
  lemma FrameRowDots(r: Vec4, u: Vec4, f: Vec4, pos: Vec4)
    ensures RowDot(Frame(r, u, f, pos), 0, 0) == Dot(r, r)
    ensures RowDot(Frame(r, u, f, pos), 1, 1) == Dot(u, u)
    ensures RowDot(Frame(r, u, f, pos), 2, 2) == Dot(f, f)
    ensures RowDot(Frame(r, u, f, pos), 0, 1) == Dot(r, u) && RowDot(Frame(r, u, f, pos), 1, 0) == Dot(r, u)
    ensures RowDot(Frame(r, u, f, pos), 0, 2) == Dot(r, f) && RowDot(Frame(r, u, f, pos), 2, 0) == Dot(r, f)
    ensures RowDot(Frame(r, u, f, pos), 1, 2) == Dot(u, f) && RowDot(Frame(r, u, f, pos), 2, 1) == Dot(u, f)
  {
  }

  class Matrix4x4 {
    const m: array2<real>

    ghost predicate Valid()
      reads this
    {
      m.Length0 == 4 && m.Length1 == 4
    }

    ghost function Entries(): (e: Mat)
      reads this, m
      requires Valid()
      ensures IsMat(e)
      ensures forall r, c | 0 <= r < 4 && 0 <= c < 4 :: e[r][c] == m[r, c]
    {
      [[m[0, 0], m[0, 1], m[0, 2], m[0, 3]],
       [m[1, 0], m[1, 1], m[1, 2], m[1, 3]],
       [m[2, 0], m[2, 1], m[2, 2], m[2, 3]],
       [m[3, 0], m[3, 1], m[3, 2], m[3, 3]]]
    }

    /** Overwrites row r with (a, b, c, d); the other rows are kept. */
    method SetRow(r: int, a: real, b: real, c: real, d: real)
      requires Valid() && 0 <= r < 4
      modifies m
      ensures Entries() == old(Entries())[r := [a, b, c, d]]
    {
      m[r, 0], m[r, 1], m[r, 2], m[r, 3] := a, b, c, d;
    }

    /** A new matrix is all zeros. */
    constructor ()
      ensures Valid() && fresh(m)
      ensures Entries() == Zero()
    {
      m := new real[4, 4]((r, c) => 0.0);
    }

    static method CreateIdentity() returns (matrix: Matrix4x4)
      ensures fresh(matrix) && fresh(matrix.m) && matrix.Valid()
      ensures matrix.Entries() == Identity()
      ensures IsIdentityMatrix(matrix.Entries())
    {
      matrix := new Matrix4x4();
      matrix.m[0, 0] := 1.0;
      matrix.m[1, 1] := 1.0;
      matrix.m[2, 2] := 1.0;
      matrix.m[3, 3] := 1.0;
    }

    method SetIdentity()
      requires Valid()
      modifies m
      ensures Entries() == Identity()
      ensures IsIdentityMatrix(Entries())
    {
      for r := 0 to 4
        invariant forall i, j | 0 <= i < r && 0 <= j < 4 :: m[i, j] == 0.0
      {
        for c := 0 to 4
          invariant forall i, j | 0 <= i < r && 0 <= j < 4 :: m[i, j] == 0.0
          invariant forall j | 0 <= j < c :: m[r, j] == 0.0
        {
          m[r, c] := 0.0;
        }
      }
      m[0, 0] := 1.0;
      m[1, 1] := 1.0;
      m[2, 2] := 1.0;
      m[3, 3] := 1.0;
      MatEq(Entries(), Identity());
    }

    /** isIdentity: the nested-loop comparison with the identity, column by column. */
    method IsIdentity() returns (b: bool)
      requires Valid()
      ensures b <==> IsIdentityMatrix(Entries())
      ensures b <==> Entries() == Identity()
    {
      IdentityIsIdentity();
      for c := 0 to 4
        invariant forall i, j | 0 <= i < 4 && 0 <= j < c :: m[i, j] == if i == j then 1.0 else 0.0
      {
        for r := 0 to 4
          invariant forall i, j | 0 <= i < 4 && 0 <= j < c :: m[i, j] == if i == j then 1.0 else 0.0
          invariant forall i | 0 <= i < r :: m[i, c] == if i == c then 1.0 else 0.0
        {
          if m[r, c] != (if r == c then 1.0 else 0.0) {
            return false;
          }
        }
      }
      return true;
    }

    /** multiply(v, result): result = v . this; safe when result is v. */
    method MultiplyVector(v: Vector3D, result: Vector3D)
      requires Valid()
      modifies result
      ensures result.Value() == VecMul(old(v.Value()), Entries())
    {
      ghost var e, u := Entries(), v.Value();
      var x := v.x * m[0, 0] + v.y * m[1, 0] + v.z * m[2, 0] + v.w * m[3, 0];
      var y := v.x * m[0, 1] + v.y * m[1, 1] + v.z * m[2, 1] + v.w * m[3, 1];
      var z := v.x * m[0, 2] + v.y * m[1, 2] + v.z * m[2, 2] + v.w * m[3, 2];
      var w := v.x * m[0, 3] + v.y * m[1, 3] + v.z * m[2, 3] + v.w * m[3, 3];
      assert Vec4(x, y, z, w) == VecMul(u, e);
      result.x, result.y, result.z, result.w := x, y, z, w;
    }

    /**
     * multiply(other, result): result = this . other. The temporary buffer makes it
     * correct when result is this or other.
     */
    method Multiply(other: Matrix4x4, result: Matrix4x4)
      requires Valid() && other.Valid() && result.Valid()
      modifies result.m
      ensures result.Entries() == Mul(old(Entries()), old(other.Entries()))
    {
      ghost var a, b := Entries(), other.Entries();
      var temp := ProductTable(other);
      result.CopyFrom(temp);
      MatEq(result.Entries(), Mul(a, b));
    }

    /** The first loop of multiply: every entry of this . other, into a fresh buffer. */
    method ProductTable(other: Matrix4x4) returns (temp: array2<real>)
      requires Valid() && other.Valid()
      ensures fresh(temp) && temp.Length0 == 4 && temp.Length1 == 4
      ensures forall i, j | 0 <= i < 4 && 0 <= j < 4 :: temp[i, j] == MulEntry(Entries(), other.Entries(), i, j)
    {
      ghost var a, b := Entries(), other.Entries();
      temp := new real[4, 4];
      for c := 0 to 4
        invariant forall i, j | 0 <= i < 4 && 0 <= j < c :: temp[i, j] == MulEntry(a, b, i, j)
      {
        for r := 0 to 4
          invariant forall i, j | 0 <= i < 4 && 0 <= j < c :: temp[i, j] == MulEntry(a, b, i, j)
          invariant forall i | 0 <= i < r :: temp[i, c] == MulEntry(a, b, i, c)
        {
          temp[r, c] := m[r, 0] * other.m[0, c] + m[r, 1] * other.m[1, c]
                      + m[r, 2] * other.m[2, c] + m[r, 3] * other.m[3, c];
        }
      }
    }

    /** The second loop of multiply: copy the buffer into this matrix's entries. */
    method CopyFrom(temp: array2<real>)
      requires Valid() && temp.Length0 == 4 && temp.Length1 == 4 && temp != m
      modifies m
      ensures forall i, j | 0 <= i < 4 && 0 <= j < 4 :: m[i, j] == temp[i, j]
    {
      for r := 0 to 4
        invariant forall i, j | 0 <= i < r && 0 <= j < 4 :: m[i, j] == temp[i, j]
      {
        for c := 0 to 4
          invariant forall i, j | 0 <= i < r && 0 <= j < 4 :: m[i, j] == temp[i, j]
          invariant forall j | 0 <= j < c :: m[r, j] == temp[r, j]
        {
          m[r, c] := temp[r, c];
        }
      }
    }

    /** applyTranslation: this = this . T(x, y, z). */
    method ApplyTranslation(x: real, y: real, z: real)
      requires Valid()
      modifies m
      ensures Entries() == Mul(old(Entries()), Translation(x, y, z))
    {
      var matrix := CreateIdentity();
      matrix.m[3, 0] := x;
      matrix.m[3, 1] := y;
      matrix.m[3, 2] := z;
      MatEq(matrix.Entries(), Translation(x, y, z));
      Multiply(matrix, this);
    }

    /** applyScale: this = this . S(sx, sy, sz). */
    method ApplyScale(sx: real, sy: real, sz: real)
      requires Valid()
      modifies m
      ensures Entries() == Mul(old(Entries()), Scaling(sx, sy, sz))
    {
      var matrix := CreateIdentity();
      matrix.m[0, 0] := sx;
      matrix.m[1, 1] := sy;
      matrix.m[2, 2] := sz;
      MatEq(matrix.Entries(), Scaling(sx, sy, sz));
      Multiply(matrix, this);
    }

    /**
     * transformInPlace: every vertex becomes vertex . this. The vertices must be
     * distinct objects (the callers clone them), or one would be transformed twice.
     */
    method TransformInPlace(vertices: array<Vector3D>)
      requires Valid()
      requires forall i, j | 0 <= i < j < vertices.Length :: vertices[i] != vertices[j]
      modifies set i | 0 <= i < vertices.Length :: vertices[i]
      ensures forall i | 0 <= i < vertices.Length ::
        vertices[i].Value() == VecMul(old(vertices[i].Value()), Entries())
    {
      for i := 0 to vertices.Length
        invariant forall k | 0 <= k < i :: vertices[k].Value() == VecMul(old(vertices[k].Value()), Entries())
        invariant forall k | i <= k < vertices.Length :: vertices[k].Value() == old(vertices[k].Value())
      {
        MultiplyVector(vertices[i], vertices[i]);
      }
    }

    /** createProjection(fov, aspectRatio, result), with fovRad = 1 / tan(fov / 2) given. */
    static method CreateProjection(fovRad: real, aspectRatio: real, result: Matrix4x4)
      requires result.Valid()
      modifies result.m
      ensures result.Entries() == Projection(fovRad, aspectRatio)
      ensures result.m[2, 2] == 1.0 && result.m[3, 2] == -1.0 && result.m[2, 3] == 1.0 && result.m[3, 3] == 0.0
      ensures forall r, c | 0 <= r < 4 && 0 <= c < 4 && (r, c) !in {(0, 0), (1, 1), (2, 2), (3, 2), (2, 3)} ::
        result.m[r, c] == 0.0
    {
      for r := 0 to 4
        invariant forall i, j | 0 <= i < r && 0 <= j < 4 :: result.m[i, j] == 0.0
      {
        for c := 0 to 4
          invariant forall i, j | 0 <= i < r && 0 <= j < 4 :: result.m[i, j] == 0.0
          invariant forall j | 0 <= j < c :: result.m[r, j] == 0.0
        {
          result.m[r, c] := 0.0;
        }
      }
      result.m[0, 0] := aspectRatio * fovRad;
      result.m[1, 1] := fovRad;
      result.m[2, 2] := 1.0;
      result.m[3, 2] := -1.0;
      result.m[2, 3] := 1.0;
      result.m[3, 3] := 0.0;
    }

    /** pointAt(pos, target, up, result), normalising with the given square root. */
    static method PointAt(pos: Vector3D, target: Vector3D, up: Vector3D, sqrt: real -> real, result: Matrix4x4)
      requires result.Valid()
      modifies result.m
      ensures result.Entries() == PointAtMatrix(pos.Value(), target.Value(), up.Value(), sqrt)
      ensures result.m[0, 3] == 0.0 && result.m[1, 3] == 0.0 && result.m[2, 3] == 0.0 && result.m[3, 3] == 1.0
      ensures result.m[3, 0] == pos.x && result.m[3, 1] == pos.y && result.m[3, 2] == pos.z
    {
      var f := Normalized(Sub3(target.Value(), pos.Value()), sqrt);
      var a := Scale3(f, Dot(up.Value(), f));
      var u := Normalized(Sub3(Vec4(up.x, up.y, up.z, 1.0), a), sqrt);
      var r := Cross(u, f);
      result.SetRow(0, r.x, r.y, r.z, 0.0);
      result.SetRow(1, u.x, u.y, u.z, 0.0);
      result.SetRow(2, f.x, f.y, f.z, 0.0);
      result.SetRow(3, pos.x, pos.y, pos.z, 1.0);
    }

    /** quickInverse(result): reads every input entry before writing, so result may be this. */
    method QuickInverse(result: Matrix4x4)
      requires Valid() && result.Valid()
      modifies result.m
      ensures result.Entries() == QuickInv(old(Entries()))
    {
      ghost var a := Entries();
      var t00, t01, t02 := m[0, 0], m[0, 1], m[0, 2];
      var t10, t11, t12 := m[1, 0], m[1, 1], m[1, 2];
      var t20, t21, t22 := m[2, 0], m[2, 1], m[2, 2];
      var t30, t31, t32 := m[3, 0], m[3, 1], m[3, 2];
      assert a[0] == [t00, t01, t02, m[0, 3]] && a[1] == [t10, t11, t12, m[1, 3]];
      assert a[2] == [t20, t21, t22, m[2, 3]] && a[3] == [t30, t31, t32, m[3, 3]];
      ghost var q := QuickInv(a);
      assert q[0] == [t00, t10, t20, 0.0];
      assert q[1] == [t01, t11, t21, 0.0];
      assert q[2] == [t02, t12, t22, 0.0];
      assert q[3][0] == -(t30 * t00 + t31 * t01 + t32 * t02);
      assert q[3][1] == -(t30 * t10 + t31 * t11 + t32 * t12);
      assert q[3][2] == -(t30 * t20 + t31 * t21 + t32 * t22);
      assert QuickInv(a) == [[t00, t10, t20, 0.0], [t01, t11, t21, 0.0], [t02, t12, t22, 0.0],
                             [-(t30 * t00 + t31 * t01 + t32 * t02),
                              -(t30 * t10 + t31 * t11 + t32 * t12),
                              -(t30 * t20 + t31 * t21 + t32 * t22), 1.0]];
      result.SetRow(0, t00, t10, t20, 0.0);
      result.SetRow(1, t01, t11, t21, 0.0);
      result.SetRow(2, t02, t12, t22, 0.0);
      // row 3 reads back the transposed block just written, which holds these values
      result.SetRow(3, -(t30 * t00 + t31 * t01 + t32 * t02),
                       -(t30 * t10 + t31 * t11 + t32 * t12),
                       -(t30 * t20 + t31 * t21 + t32 * t22), 1.0);
    }

    /** quickInverse(): the same inverse, into a new matrix. */
    method QuickInverted() returns (result: Matrix4x4)
      requires Valid()
      ensures fresh(result) && fresh(result.m) && result.Valid()
      ensures result.Entries() == QuickInv(Entries())
    {
      result := new Matrix4x4();
      QuickInverse(result);
    }

    /** createProjection(fov, aspectRatio): the projection, into a new matrix. */
    static method NewProjection(fovRad: real, aspectRatio: real) returns (matrix: Matrix4x4)
      ensures fresh(matrix) && fresh(matrix.m) && matrix.Valid()
      ensures matrix.Entries() == Projection(fovRad, aspectRatio)
    {
      matrix := new Matrix4x4();
      CreateProjection(fovRad, aspectRatio, matrix);
    }
  }
}
