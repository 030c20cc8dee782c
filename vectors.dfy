/**
 * Three- and two-component vectors (src/vector.h, src/vector.inl, src/vector.cc),
 * with the source's `float` components modelled as `real`.
 *
 * The operators of src/vector.inl take and return vectors by value, so they work on
 * the datatype `Vec3`. The constructors and `normalize` of src/vector.cc assign the
 * fields of an object, so they belong to the classes `Vector3` and `Vector2`.
 */
module Vectors {

  /** `fabs`. */
  function Abs(x: real): real {
    if x < 0.0 then -x else x
  }

  /** The value of a `Vector3`: its three components. */
  datatype Vec3 = Vec3(x: real, y: real, z: real)

  function Add(a: Vec3, b: Vec3): Vec3 {
    Vec3(a.x + b.x, a.y + b.y, a.z + b.z)
  }

  function Sub(a: Vec3, b: Vec3): Vec3 {
    Vec3(a.x - b.x, a.y - b.y, a.z - b.z)
  }

  /** Component-wise product (`operator*` on two vectors). */
  function Mul(a: Vec3, b: Vec3): Vec3 {
    Vec3(a.x * b.x, a.y * b.y, a.z * b.z)
  }

  /** Component-wise quotient; the source's IEEE division by zero has no real counterpart. */
  function Div(a: Vec3, b: Vec3): Vec3
    requires b.x != 0.0 && b.y != 0.0 && b.z != 0.0
  {
    Vec3(a.x / b.x, a.y / b.y, a.z / b.z)
  }

  function Neg(v: Vec3): Vec3 {
    Vec3(-v.x, -v.y, -v.z)
  }

  /** `vec * s`: every component scaled by the same factor. */
  function Scale(v: Vec3, s: real): Vec3 {
    Vec3(v.x * s, v.y * s, v.z * s)
  }

  function Dot(a: Vec3, b: Vec3): real {
    a.x * b.x + a.y * b.y + a.z * b.z
  }

  function Cross(a: Vec3, b: Vec3): Vec3 {
    Vec3(a.y * b.z - a.z * b.y, a.z * b.x - a.x * b.z, a.x * b.y - a.y * b.x)
  }

  function LengthSq(v: Vec3): real {
    v.x * v.x + v.y * v.y + v.z * v.z
  }

  /** `len` is the non-negative square root of `x`: the contract of the C library's `sqrt`. */
  ghost predicate IsSqrt(len: real, x: real) {
    len >= 0.0 && len * len == x
  }

  /**
   * What `Vector3::normalize` makes of `v`: when the length is not zero every
   * component is divided by it; a zero-length vector is left as it is. `len` is
   * the square root of `LengthSq(v)`, which the model takes as given.
   */
  function Normalized(v: Vec3, len: real): (r: Vec3)
    requires IsSqrt(len, LengthSq(v))
    ensures len == 0.0 ==> r == v
    ensures len != 0.0 ==> len > 0.0 && r == Scale(v, 1.0 / len)
    ensures len != 0.0 ==> LengthSq(r) == 1.0
  {
    if len != 0.0 then
      var r := Vec3(v.x / len, v.y / len, v.z / len);
      assert LengthSq(r) == LengthSq(v) / (len * len);
      r
    else
      v
  }

  /** Normalizing keeps the sign of every component. */
  lemma NormalizePreservesSigns(v: Vec3, len: real)
    requires IsSqrt(len, LengthSq(v))
    ensures var r := Normalized(v, len);
      (r.x > 0.0 <==> v.x > 0.0) && (r.x < 0.0 <==> v.x < 0.0) &&
      (r.y > 0.0 <==> v.y > 0.0) && (r.y < 0.0 <==> v.y < 0.0) &&
      (r.z > 0.0 <==> v.z > 0.0) && (r.z < 0.0 <==> v.z < 0.0)
  {
    if len != 0.0 {
      var k := 1.0 / len;
      assert k > 0.0;
      assert Normalized(v, len) == Vec3(v.x * k, v.y * k, v.z * k);
    }
  }

  lemma SubIsAddNeg(a: Vec3, b: Vec3)
    ensures Sub(a, b) == Add(a, Neg(b))
  {
  }

  /** Subtracting `b` undoes adding it. */
  lemma SubUndoesAdd(a: Vec3, b: Vec3)
    ensures Sub(Add(a, b), b) == a
  {
  }

  lemma NegInvolution(v: Vec3)
    ensures Neg(Neg(v)) == v
  {
  }

  /** Scaling by `s` is the component-wise product with `(s, s, s)`. */
  lemma ScaleIsMul(v: Vec3, s: real)
    ensures Scale(v, s) == Mul(v, Vec3(s, s, s))
  {
  }

  lemma DotCommutes(a: Vec3, b: Vec3)
    ensures Dot(a, b) == Dot(b, a)
  {
  }

  lemma DotSelfIsLengthSq(a: Vec3)
    ensures Dot(a, a) == LengthSq(a) && LengthSq(a) >= 0.0
  {
    assert a.x * a.x >= 0.0 && a.y * a.y >= 0.0 && a.z * a.z >= 0.0;
  }

  lemma CrossAntiCommutes(a: Vec3, b: Vec3)
    ensures Cross(a, b) == Neg(Cross(b, a))
  {
  }

  lemma CrossSelfIsZero(a: Vec3)
    ensures Cross(a, a) == Vec3(0.0, 0.0, 0.0)
  {
  }

  /** The cross product is orthogonal to both of its operands. */
  lemma CrossOrthogonal(a: Vec3, b: Vec3)
    ensures Dot(Cross(a, b), a) == 0.0 && Dot(Cross(a, b), b) == 0.0
  {
  }

  /** Division undoes the component-wise product. */
  lemma DivUndoesMul(a: Vec3, b: Vec3)
    requires b.x != 0.0 && b.y != 0.0 && b.z != 0.0
    ensures Div(Mul(a, b), b) == a
  {
  }

  /** A `Vector3` object (src/vector.h): three fields assigned in place. */
  class Vector3 {
    var x: real
    var y: real
    var z: real

    function Value(): Vec3
      reads this
    {
      Vec3(x, y, z)
    }

    /** `Vector3()`: every component starts at zero. */
    constructor ()
      ensures Value() == Vec3(0.0, 0.0, 0.0)
    {
      x, y, z := 0.0, 0.0, 0.0;
    }

    /** `Vector3(x, y, z)`: stores exactly the given components. */
    constructor FromXYZ(x: real, y: real, z: real)
      ensures this.x == x && this.y == y && this.z == z
    {
      this.x := x;
      this.y := y;
      this.z := z;
    }

    /**
     * `normalize()`: divides the fields in place by the length `len`, the square
     * root of the squared length, unless it is zero.
     */
    method Normalize(len: real)
      requires IsSqrt(len, LengthSq(Value()))
      modifies this
      ensures Value() == Normalized(old(Value()), len)
    {
      if len != 0.0 {
        x := x / len;
        y := y / len;
        z := z / len;
      }
    }
  }

  /** A `Vector2` object (src/vector.h). */
  class Vector2 {
    var x: real
    var y: real

    /** `Vector2()`: both components start at zero. */
    constructor ()
      ensures x == 0.0 && y == 0.0
    {
      x, y := 0.0, 0.0;
    }

    /** `Vector2(x, y)`: stores exactly the given components. */
    constructor FromXY(x: real, y: real)
      ensures this.x == x && this.y == y
    {
      this.x := x;
      this.y := y;
    }
  }
}
