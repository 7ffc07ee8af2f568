/**
  2D, 3D and 4D vectors and texture coordinates (src/vector.c, src/vector.h,
  src/texture.h). Every `float` is a `real`; `sin`, `cos` and `sqrt` are not
  computed here: a rotation takes the sine and cosine of its angle, and a
  length takes the square-root function as a parameter.
*/
module Vector {

  datatype Vec2 = Vec2(x: real, y: real)
  datatype Vec3 = Vec3(x: real, y: real, z: real)
  datatype Vec4 = Vec4(x: real, y: real, z: real, w: real)

  /** A texture coordinate `tex2_t`. */
  datatype Tex2 = Tex2(u: real, v: real)

  // ---------------------------------------------------------------- 2D

  function Vec2Add(a: Vec2, b: Vec2): Vec2 {
    Vec2(a.x + b.x, a.y + b.y)
  }

  function Vec2Sub(a: Vec2, b: Vec2): Vec2 {
    Vec2(a.x - b.x, a.y - b.y)
  }

  function Vec2Mul(v: Vec2, s: real): Vec2 {
    Vec2(v.x * s, v.y * s)
  }

  /** Division by zero yields the zero vector instead of a fault. */
  function Vec2Div(v: Vec2, s: real): (r: Vec2)
    ensures s == 0.0 ==> r == Vec2(0.0, 0.0)
    ensures s != 0.0 ==> Vec2Mul(r, s) == v
  {
    if s == 0.0 then Vec2(0.0, 0.0) else Vec2(v.x / s, v.y / s)
  }

  function Vec2Dot(a: Vec2, b: Vec2): real {
    a.x * b.x + a.y * b.y
  }

  /** `vec2_length`, with the square root supplied by the caller. */
  function Vec2Length(v: Vec2, sqrt: real -> real): real {
    sqrt(Vec2Dot(v, v))
  }

  /** `vec2_normalized` (the value `vec2_normalize` stores through its argument). */
  function Vec2Normalized(v: Vec2, sqrt: real -> real): (r: Vec2)
    requires Vec2Length(v, sqrt) != 0.0
    ensures Vec2Mul(r, Vec2Length(v, sqrt)) == v
  {
    var len := Vec2Length(v, sqrt);
    Vec2(v.x / len, v.y / len)
  }

  lemma Vec2SubAddRoundTrip(a: Vec2, b: Vec2)
    ensures Vec2Add(Vec2Sub(a, b), b) == a
  {
  }

  lemma Vec2DotSymmetric(a: Vec2, b: Vec2)
    ensures Vec2Dot(a, b) == Vec2Dot(b, a)
  {
  }

  /**
    Addition is commutative and associative with the zero vector as its
    neutral element, subtracting a vector from itself gives zero, and scaling
    distributes over addition and subtraction.
  */
  lemma Vec2AddSubMulLaws(a: Vec2, b: Vec2, c: Vec2, s: real)
    ensures Vec2Add(a, b) == Vec2Add(b, a)
    ensures Vec2Add(Vec2Add(a, b), c) == Vec2Add(a, Vec2Add(b, c))
    ensures Vec2Add(a, Vec2(0.0, 0.0)) == a
    ensures Vec2Sub(a, a) == Vec2(0.0, 0.0)
    ensures Vec2Mul(Vec2Add(a, b), s) == Vec2Add(Vec2Mul(a, s), Vec2Mul(b, s))
    ensures Vec2Mul(Vec2Sub(a, b), s) == Vec2Sub(Vec2Mul(a, s), Vec2Mul(b, s))
    ensures Vec2Mul(a, 1.0) == a
  {
  }

  /** The dot product is linear in its first operand (and so, by symmetry, in both). */
  lemma Vec2DotLinear(a: Vec2, b: Vec2, c: Vec2, s: real)
    ensures Vec2Dot(Vec2Add(a, b), c) == Vec2Dot(a, c) + Vec2Dot(b, c)
    ensures Vec2Dot(Vec2Sub(a, b), c) == Vec2Dot(a, c) - Vec2Dot(b, c)
    ensures Vec2Dot(Vec2Mul(a, s), c) == s * Vec2Dot(a, c)
  {
  }

  /** Normalising with a true square root gives a vector of length one. */
  lemma Vec2NormalizedIsUnit(v: Vec2, sqrt: real -> real)
    requires Vec2Length(v, sqrt) > 0.0
    requires Vec2Length(v, sqrt) * Vec2Length(v, sqrt) == Vec2Dot(v, v)
    ensures Vec2Dot(Vec2Normalized(v, sqrt), Vec2Normalized(v, sqrt)) == 1.0
  {
    var len := Vec2Length(v, sqrt);
    var n := Vec2Normalized(v, sqrt);
    assert n.x * len == v.x && n.y * len == v.y;
    var d := n.x * n.x + n.y * n.y;
    calc {
      d * (len * len);
      (n.x * len) * (n.x * len) + (n.y * len) * (n.y * len);
      v.x * v.x + v.y * v.y;
      len * len;
    }
    CancelPositive(d, len, len);
  }

  /** If d * (a * b) == a * b with a, b > 0, then d == 1. */
  lemma CancelPositive(d: real, a: real, b: real)
    requires a > 0.0 && b > 0.0 && d * (a * b) == a * b
    ensures d == 1.0
  {
    ProductPositive(a, b);
  }

  lemma ProductPositive(a: real, b: real)
    requires a > 0.0 && b > 0.0
    ensures a * b > 0.0
  {
  }

  // ---------------------------------------------------------------- 3D

  function Vec3Add(a: Vec3, b: Vec3): Vec3 {
    Vec3(a.x + b.x, a.y + b.y, a.z + b.z)
  }

  function Vec3Sub(a: Vec3, b: Vec3): Vec3 {
    Vec3(a.x - b.x, a.y - b.y, a.z - b.z)
  }

  function Vec3Mul(v: Vec3, s: real): Vec3 {
    Vec3(v.x * s, v.y * s, v.z * s)
  }

  /** Division by zero yields the zero vector instead of a fault. */
  function Vec3Div(v: Vec3, s: real): (r: Vec3)
    ensures s == 0.0 ==> r == Vec3(0.0, 0.0, 0.0)
    ensures s != 0.0 ==> Vec3Mul(r, s) == v
  {
    if s == 0.0 then Vec3(0.0, 0.0, 0.0) else Vec3(v.x / s, v.y / s, v.z / s)
  }

  function Vec3Cross(a: Vec3, b: Vec3): Vec3 {
    Vec3(a.y * b.z - a.z * b.y,
         a.z * b.x - a.x * b.z,
         a.x * b.y - a.y * b.x)
  }

  function Vec3Dot(a: Vec3, b: Vec3): real {
    a.x * b.x + a.y * b.y + a.z * b.z
  }

  /** `vec3_length`, with the square root supplied by the caller. */
  function Vec3Length(v: Vec3, sqrt: real -> real): real {
    sqrt(Vec3Dot(v, v))
  }

  /** `vec3_normalized` (the value `vec3_normalize` stores through its argument). */
  function Vec3Normalized(v: Vec3, sqrt: real -> real): (r: Vec3)
    requires Vec3Length(v, sqrt) != 0.0
    ensures Vec3Mul(r, Vec3Length(v, sqrt)) == v
  {
    var len := Vec3Length(v, sqrt);
    Vec3(v.x / len, v.y / len, v.z / len)
  }

  lemma Vec3SubAddRoundTrip(a: Vec3, b: Vec3)
    ensures Vec3Add(Vec3Sub(a, b), b) == a
  {
  }

  lemma Vec3DotSymmetric(a: Vec3, b: Vec3)
    ensures Vec3Dot(a, b) == Vec3Dot(b, a)
  {
  }

  /** The cross product is orthogonal to both operands and anti-commutative. */
  lemma CrossProperties(a: Vec3, b: Vec3)
    ensures Vec3Dot(Vec3Cross(a, b), a) == 0.0
    ensures Vec3Dot(Vec3Cross(a, b), b) == 0.0
    ensures Vec3Cross(b, a) == Vec3Mul(Vec3Cross(a, b), -1.0)
  {
  }

  /**
    Addition is commutative and associative with the zero vector as its
    neutral element, subtracting a vector from itself gives zero, and scaling
    distributes over addition and subtraction.
  */
  lemma Vec3AddSubMulLaws(a: Vec3, b: Vec3, c: Vec3, s: real)
    ensures Vec3Add(a, b) == Vec3Add(b, a)
    ensures Vec3Add(Vec3Add(a, b), c) == Vec3Add(a, Vec3Add(b, c))
    ensures Vec3Add(a, Vec3(0.0, 0.0, 0.0)) == a
    ensures Vec3Sub(a, a) == Vec3(0.0, 0.0, 0.0)
    ensures Vec3Mul(Vec3Add(a, b), s) == Vec3Add(Vec3Mul(a, s), Vec3Mul(b, s))
    ensures Vec3Mul(Vec3Sub(a, b), s) == Vec3Sub(Vec3Mul(a, s), Vec3Mul(b, s))
    ensures Vec3Mul(a, 1.0) == a
  {
  }

  /** The dot product is linear in its first operand (and so, by symmetry, in both). */
  lemma Vec3DotLinear(a: Vec3, b: Vec3, c: Vec3, s: real)
    ensures Vec3Dot(Vec3Add(a, b), c) == Vec3Dot(a, c) + Vec3Dot(b, c)
    ensures Vec3Dot(Vec3Sub(a, b), c) == Vec3Dot(a, c) - Vec3Dot(b, c)
    ensures Vec3Dot(Vec3Mul(a, s), c) == s * Vec3Dot(a, c)
  {
  }

  /**
    The cross product is linear in its first operand, a vector crossed with
    itself is zero, and the x axis crossed with the y axis is the z axis
    (the right-handed orientation the normal computation relies on).
  */
  lemma CrossLinear(a: Vec3, b: Vec3, c: Vec3, s: real)
    ensures Vec3Cross(Vec3Add(a, b), c) == Vec3Add(Vec3Cross(a, c), Vec3Cross(b, c))
    ensures Vec3Cross(Vec3Sub(a, b), c) == Vec3Sub(Vec3Cross(a, c), Vec3Cross(b, c))
    ensures Vec3Cross(Vec3Mul(a, s), c) == Vec3Mul(Vec3Cross(a, c), s)
    ensures Vec3Cross(a, a) == Vec3(0.0, 0.0, 0.0)
    ensures Vec3Cross(Vec3(1.0, 0.0, 0.0), Vec3(0.0, 1.0, 0.0)) == Vec3(0.0, 0.0, 1.0)
  {
    CrossDistributes(a, b, c);
    CrossScales(a, c, s);
  }

  lemma CrossDistributes(a: Vec3, b: Vec3, c: Vec3)
    ensures Vec3Cross(Vec3Add(a, b), c) == Vec3Add(Vec3Cross(a, c), Vec3Cross(b, c))
    ensures Vec3Cross(Vec3Sub(a, b), c) == Vec3Sub(Vec3Cross(a, c), Vec3Cross(b, c))
  {
    MinorDistributes(a.y, b.y, c.z, a.z, b.z, c.y);
    MinorDistributes(a.z, b.z, c.x, a.x, b.x, c.z);
    MinorDistributes(a.x, b.x, c.y, a.y, b.y, c.x);
  }

  lemma CrossScales(a: Vec3, c: Vec3, s: real)
    ensures Vec3Cross(Vec3Mul(a, s), c) == Vec3Mul(Vec3Cross(a, c), s)
  {
    var m := Vec3Mul(a, s);
    var k := Vec3Cross(a, c);
    MinorScales(a.y, c.z, a.z, c.y, s);
    MinorScales(a.z, c.x, a.x, c.z, s);
    MinorScales(a.x, c.y, a.y, c.x, s);
    assert Vec3Cross(m, c).x == k.x * s;
    assert Vec3Cross(m, c).y == k.y * s;
    assert Vec3Cross(m, c).z == k.z * s;
  }

  /** One component of a cross product, p q - r t, is additive in (p, r). */
  lemma MinorDistributes(p: real, p': real, q: real, r: real, r': real, t: real)
    ensures (p + p') * q - (r + r') * t == (p * q - r * t) + (p' * q - r' * t)
    ensures (p - p') * q - (r - r') * t == (p * q - r * t) - (p' * q - r' * t)
  {
  }

  /** One component of a cross product, p q - r t, scales with (p, r). */
  lemma MinorScales(p: real, q: real, r: real, t: real, s: real)
    ensures (p * s) * q - (r * s) * t == (p * q - r * t) * s
  {
  }

  /** Normalising with a true square root gives a vector of length one. */
  lemma Vec3NormalizedIsUnit(v: Vec3, sqrt: real -> real)
    requires Vec3Length(v, sqrt) > 0.0
    requires Vec3Length(v, sqrt) * Vec3Length(v, sqrt) == Vec3Dot(v, v)
    ensures Vec3Dot(Vec3Normalized(v, sqrt), Vec3Normalized(v, sqrt)) == 1.0
  {
    var len := Vec3Length(v, sqrt);
    var n := Vec3Normalized(v, sqrt);
    assert n.x * len == v.x && n.y * len == v.y && n.z * len == v.z;
    var d := n.x * n.x + n.y * n.y + n.z * n.z;
    calc {
      d * (len * len);
      (n.x * len) * (n.x * len) + (n.y * len) * (n.y * len) + (n.z * len) * (n.z * len);
      v.x * v.x + v.y * v.y + v.z * v.z;
      len * len;
    }
    CancelPositive(d, len, len);
  }

  /**
    `vec3_t_rotate_x`, with `s` and `c` the sine and cosine of the angle:
    x is kept, and a true (s, c) pair keeps the length.
  */
  function RotateX(v: Vec3, s: real, c: real): (r: Vec3)
    ensures r.x == v.x
    ensures s * s + c * c == 1.0 ==> Vec3Dot(r, r) == Vec3Dot(v, v)
  {
    RotationKeepsLength(v.y, v.z, s, c);
    Vec3(v.x, v.y * c - v.z * s, v.y * s + v.z * c)
  }

  /** `vec3_t_rotate_y`: y is kept, and a true (s, c) pair keeps the length. */
  function RotateY(v: Vec3, s: real, c: real): (r: Vec3)
    ensures r.y == v.y
    ensures s * s + c * c == 1.0 ==> Vec3Dot(r, r) == Vec3Dot(v, v)
  {
    RotationKeepsLength(v.x, v.z, s, c);
    Vec3(v.x * c - v.z * s, v.y, v.x * s + v.z * c)
  }

  /** `vec3_t_rotate_z`: z is kept, and a true (s, c) pair keeps the length. */
  function RotateZ(v: Vec3, s: real, c: real): (r: Vec3)
    ensures r.z == v.z
    ensures s * s + c * c == 1.0 ==> Vec3Dot(r, r) == Vec3Dot(v, v)
  {
    RotationKeepsLength(v.x, v.y, s, c);
    Vec3(v.x * c - v.y * s, v.x * s + v.y * c, v.z)
  }

  /** A planar rotation of (p, q) by (s, c) with s² + c² = 1 keeps p² + q². */
  lemma RotationKeepsLength(p: real, q: real, s: real, c: real)
    ensures s * s + c * c == 1.0 ==>
      (p * c - q * s) * (p * c - q * s) + (p * s + q * c) * (p * s + q * c) == p * p + q * q
  {
    if s * s + c * c == 1.0 {
      calc {
        (p * c - q * s) * (p * c - q * s) + (p * s + q * c) * (p * s + q * c);
        p * p * (c * c + s * s) + q * q * (s * s + c * c);
        p * p + q * q;
      }
    }
  }

  // ---------------------------------------------------------------- 4D

  function Vec4FromVec3(v: Vec3): (r: Vec4)
    ensures r.w == 1.0
  {
    Vec4(v.x, v.y, v.z, 1.0)
  }

  function Vec3FromVec4(v: Vec4): Vec3 {
    Vec3(v.x, v.y, v.z)
  }

  /** `vec2_from_vec4` (used by src/triangle.c): the screen position of a point. */
  function Vec2FromVec4(v: Vec4): Vec2 {
    Vec2(v.x, v.y)
  }

  /** Lifting to homogeneous coordinates and dropping w gives the vector back. */
  lemma Vec4RoundTrip(v: Vec3)
    ensures Vec3FromVec4(Vec4FromVec3(v)) == v
  {
  }
}
