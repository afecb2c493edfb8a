/**
 * Vector3D: a 4-component homogeneous vector (x, y, z, w).
 * Doubles are modelled as exact reals. The value of a vector is the datatype Vec4;
 * the class Vector3D is the mutable object of the source, whose methods update its
 * fields in place, and whose Value() ties the fields to a Vec4.
 */
module Vectors {

  datatype Vec4 = Vec4(x: real, y: real, z: real, w: real)

  /** this + other on x, y, z; w is that of the left operand. */
  function Add3(a: Vec4, b: Vec4): Vec4
  {
    Vec4(a.x + b.x, a.y + b.y, a.z + b.z, a.w)
  }

  /** this - other on x, y, z; w is that of the left operand. */
  function Sub3(a: Vec4, b: Vec4): Vec4
  {
    Vec4(a.x - b.x, a.y - b.y, a.z - b.z, a.w)
  }

  /** Scalar product on x, y, z; w is left alone. */
  function Scale3(a: Vec4, s: real): Vec4
  {
    Vec4(a.x * s, a.y * s, a.z * s, a.w)
  }

  /** The dot product ignores w. */
  function Dot(a: Vec4, b: Vec4): real
  {
    a.x * b.x + a.y * b.y + a.z * b.z
  }

  /** The dot product is symmetric and does not see either w. */
  lemma DotSymmetric(a: Vec4, b: Vec4, wa: real, wb: real)
    ensures Dot(a, b) == Dot(b, a)
    ensures Dot(a, b) == Dot(Vec4(a.x, a.y, a.z, wa), Vec4(b.x, b.y, b.z, wb))
  {
  }

  function SqMag(a: Vec4): (s: real)
    ensures s == Dot(a, a)
  {
    a.x * a.x + a.y * a.y + a.z * a.z
  }

  /** Cross product of the x, y, z parts; the result is a point (w = 1). */
  function Cross(a: Vec4, b: Vec4): (c: Vec4)
    ensures c.w == 1.0
    ensures Dot(c, a) == 0.0 && Dot(c, b) == 0.0
  {
    Vec4(a.y * b.z - a.z * b.y, a.z * b.x - a.x * b.z, a.x * b.y - a.y * b.x, 1.0)
  }

  /**
   * The source's normalize: divide x, y, z by the length unless the length is 0.
   * The square root is a parameter, since it is outside exact arithmetic.
   */
  function Normalized(a: Vec4, sqrt: real -> real): (n: Vec4)
    ensures n.w == a.w
    ensures SqMag(a) == 0.0 && sqrt(0.0) == 0.0 ==> n == a
  {
    var len := sqrt(SqMag(a));
    if len != 0.0 then Vec4(a.x / len, a.y / len, a.z / len, a.w) else a
  }

  /** With a true square root, normalising a non-zero vector gives unit length. */
  lemma NormalizedIsUnit(a: Vec4, sqrt: real -> real)
    requires IsSqrt(sqrt, SqMag(a)) && SqMag(a) != 0.0
    ensures SqMag(Normalized(a, sqrt)) == 1.0
  {
    var len := sqrt(SqMag(a));
    assert len != 0.0;
    UnitLength(a, len);
  }

  /** `sqrt` is a square root at s. */
  ghost predicate IsSqrt(sqrt: real -> real, s: real)
  {
    sqrt(s) >= 0.0 && sqrt(s) * sqrt(s) == s
  }

  lemma UnitLength(a: Vec4, len: real)
    requires len != 0.0 && len * len == SqMag(a)
    ensures SqMag(Vec4(a.x / len, a.y / len, a.z / len, a.w)) == 1.0
  {
    var n := Vec4(a.x / len, a.y / len, a.z / len, a.w);
    assert n.x * len == a.x && n.y * len == a.y && n.z * len == a.z;
    calc {
      SqMag(n) * (len * len);
      (n.x * len) * (n.x * len) + (n.y * len) * (n.y * len) + (n.z * len) * (n.z * len);
      SqMag(a);
      1.0 * (len * len);
    }
  }

  /** Scaling by a common factor keeps orthogonality: used for normals. */
  lemma DotScaledZero(a: Vec4, b: Vec4, s: real)
    requires Dot(a, b) == 0.0
    ensures Dot(Scale3(a, s), b) == 0.0
  {
    calc {
      Dot(Scale3(a, s), b);
      s * (a.x * b.x) + s * (a.y * b.y) + s * (a.z * b.z);
      s * Dot(a, b);
    }
  }

  /** Normalising changes only the length, so it keeps orthogonality. */
  lemma NormalizedOrthogonal(a: Vec4, b: Vec4, sqrt: real -> real)
    requires Dot(a, b) == 0.0
    ensures Dot(Normalized(a, sqrt), b) == 0.0
  {
    var len := sqrt(SqMag(a));
    if len != 0.0 {
      assert Normalized(a, sqrt) == Scale3(a, 1.0 / len);
      DotScaledZero(a, b, 1.0 / len);
    }
  }

  /** Scaling by s scales the squared length by s * s. */
  lemma SqMagScaled(a: Vec4, s: real)
    ensures SqMag(Scale3(a, s)) == s * s * SqMag(a)
  {
  }

  class Vector3D {
    var x: real
    var y: real
    var z: real
    var w: real

    function Value(): Vec4
      reads this
    {
      Vec4(x, y, z, w)
    }

    /** The three-argument constructor makes a point: w = 1. */
    constructor (x: real, y: real, z: real)
      ensures Value() == Vec4(x, y, z, 1.0)
    {
      this.x, this.y, this.z, this.w := x, y, z, 1.0;
    }

    constructor Homogeneous(x: real, y: real, z: real, w: real)
      ensures Value() == Vec4(x, y, z, w)
    {
      this.x, this.y, this.z, this.w := x, y, z, w;
    }

    /** set(x, y, z): also resets w to 1. */
    method Set(x: real, y: real, z: real)
      modifies this
      ensures Value() == Vec4(x, y, z, 1.0)
    {
      this.x, this.y, this.z, this.w := x, y, z, 1.0;
    }

    /** set(other): copies all four components, w included. */
    method SetFrom(other: Vector3D)
      modifies this
      ensures Value() == old(other.Value())
    {
      x, y, z, w := other.x, other.y, other.z, other.w;
    }

    /** this = this + other (x, y, z only); correct also when other is this. */
    method Add(other: Vector3D)
      modifies this
      ensures Value() == Add3(old(Value()), old(other.Value()))
      ensures w == old(w)
    {
      var ox, oy, oz := other.x, other.y, other.z;
      x, y, z := x + ox, y + oy, z + oz;
    }

    /** this = this - other (x, y, z only). */
    method Subtract(other: Vector3D)
      modifies this
      ensures Value() == Sub3(old(Value()), old(other.Value()))
      ensures w == old(w)
    {
      var ox, oy, oz := other.x, other.y, other.z;
      x, y, z := x - ox, y - oy, z - oz;
    }

    /**
     * result = this - other, with result.w = this.w. Only result changes, so this and
     * other are untouched whenever they are distinct from result.
     */
    method SubtractInto(other: Vector3D, result: Vector3D)
      modifies result
      ensures result.Value() == Sub3(old(Value()), old(other.Value()))
      ensures this != result ==> Value() == old(Value())
      ensures other != result ==> other.Value() == old(other.Value())
    {
      var rx, ry, rz, rw := x - other.x, y - other.y, z - other.z, w;
      result.x, result.y, result.z, result.w := rx, ry, rz, rw;
    }

    method Multiply(scalar: real)
      modifies this
      ensures Value() == Scale3(old(Value()), scalar)
      ensures w == old(w)
    {
      x, y, z := x * scalar, y * scalar, z * scalar;
    }

    /** In-place division; a zero divisor (IEEE infinities) is outside the real model. */
    method Divide(scalar: real)
      requires scalar != 0.0
      modifies this
      ensures Value() == Vec4(old(x) / scalar, old(y) / scalar, old(z) / scalar, old(w))
      ensures Scale3(Value(), scalar) == old(Value())
    {
      x, y, z := x / scalar, y / scalar, z / scalar;
    }

    /** normalize with the platform square root; a zero-length vector is left as it is. */
    method Normalize(sqrt: real -> real)
      modifies this
      ensures Value() == Normalized(old(Value()), sqrt)
      ensures old(SqMag(Value())) == 0.0 && sqrt(0.0) == 0.0 ==> Value() == old(Value())
    {
      var len := sqrt(SquaredMagnitude());
      assert len == sqrt(SqMag(old(Value())));
      if len != 0.0 {
        x, y, z := x / len, y / len, z / len;
      }
    }

    function DotWith(other: Vector3D): (d: real)
      reads this, other
      ensures d == Dot(other.Value(), Value())
    {
      x * other.x + y * other.y + z * other.z
    }

    function SquaredMagnitude(): (s: real)
      reads this
      ensures s == DotWith(this)
      ensures s >= 0.0
    {
      x * x + y * y + z * z
    }

    /** A fresh point orthogonal (in exact arithmetic) to both operands. */
    method CrossWith(other: Vector3D) returns (r: Vector3D)
      ensures fresh(r)
      ensures r.Value() == Cross(Value(), other.Value())
      ensures r.w == 1.0 && Dot(r.Value(), Value()) == 0.0 && Dot(r.Value(), other.Value()) == 0.0
    {
      var nx := y * other.z - z * other.y;
      var ny := z * other.x - x * other.z;
      var nz := x * other.y - y * other.x;
      r := new Vector3D(nx, ny, nz);
    }

    method Clone() returns (r: Vector3D)
      ensures fresh(r)
      ensures r.Value() == Value()
    {
      r := new Vector3D.Homogeneous(x, y, z, w);
    }
  }
}
