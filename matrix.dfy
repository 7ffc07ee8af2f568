/**
  4x4 matrices of src/matrix.c: the builders, the matrix-vector product,
  the projecting product that divides by w, and the matrix product.
  `mat4_t` is a row-major `float m[4][4]`; here it is a record of its four
  rows, and `Entry(m, i, j)` is `m.m[i][j]`. `sin(angle)`, `cos(angle)` and
  `tan(fov / 2)` are passed in as values.
*/
module Matrix {
  import opened Vector

  datatype Mat4 = Mat4(r0: Vec4, r1: Vec4, r2: Vec4, r3: Vec4)

  /** Component j of a vector, in x, y, z, w order. */
  function Component(v: Vec4, j: int): real
    requires 0 <= j < 4
  {
    if j == 0 then v.x else if j == 1 then v.y else if j == 2 then v.z else v.w
  }

  function Row(m: Mat4, i: int): Vec4
    requires 0 <= i < 4
  {
    if i == 0 then m.r0 else if i == 1 then m.r1 else if i == 2 then m.r2 else m.r3
  }

  /** `m.m[i][j]`. */
  function Entry(m: Mat4, i: int, j: int): real
    requires 0 <= i < 4 && 0 <= j < 4
  {
    Component(Row(m, i), j)
  }

  function Dot4(a: Vec4, b: Vec4): real {
    a.x * b.x + a.y * b.y + a.z * b.z + a.w * b.w
  }

  /** `mat4_mul_vec4`: each output component is a row dotted with v. */
  function MulVec4(m: Mat4, v: Vec4): Vec4 {
    Vec4(Dot4(m.r0, v), Dot4(m.r1, v), Dot4(m.r2, v), Dot4(m.r3, v))
  }

  /** The combination s u + t v, componentwise. */
  function Combine4(u: Vec4, v: Vec4, s: real, t: real): Vec4 {
    Vec4(s * u.x + t * v.x, s * u.y + t * v.y, s * u.z + t * v.z, s * u.w + t * v.w)
  }

  /**
    Component i of the product is the sum over j of `m.m[i][j]` times
    component j of v, and the product is linear in the vector.
  */
  lemma MulVec4Laws(m: Mat4, u: Vec4, v: Vec4, s: real, t: real)
    ensures forall i {:trigger Component(MulVec4(m, v), i)} :: 0 <= i < 4 ==>
      Component(MulVec4(m, v), i)
        == Entry(m, i, 0) * v.x + Entry(m, i, 1) * v.y + Entry(m, i, 2) * v.z + Entry(m, i, 3) * v.w
    ensures MulVec4(m, Combine4(u, v, s, t)) == Combine4(MulVec4(m, u), MulVec4(m, v), s, t)
  {
    Dot4Linear(m.r0, u, v, s, t);
    Dot4Linear(m.r1, u, v, s, t);
    Dot4Linear(m.r2, u, v, s, t);
    Dot4Linear(m.r3, u, v, s, t);
  }

  lemma Dot4Linear(r: Vec4, u: Vec4, v: Vec4, s: real, t: real)
    ensures Dot4(r, Combine4(u, v, s, t)) == s * Dot4(r, u) + t * Dot4(r, v)
  {
    calc {
      Dot4(r, Combine4(u, v, s, t));
      r.x * (s * u.x + t * v.x) + r.y * (s * u.y + t * v.y) + r.z * (s * u.z + t * v.z) + r.w * (s * u.w + t * v.w);
      s * (r.x * u.x + r.y * u.y + r.z * u.z + r.w * u.w) + t * (r.x * v.x + r.y * v.y + r.z * v.z + r.w * v.w);
    }
  }

  /** A 3D point with a given w. */
  function WithW(p: Vec3, w: real): Vec4 {
    Vec4(p.x, p.y, p.z, w)
  }

  // ------------------------------------------------------------ builders

  /** `mat4_identity`: applying it leaves every vector as it is. */
  function Identity(): (m: Mat4)
    ensures forall v :: MulVec4(m, v) == v
  {
    Mat4(Vec4(1.0, 0.0, 0.0, 0.0), Vec4(0.0, 1.0, 0.0, 0.0),
         Vec4(0.0, 0.0, 1.0, 0.0), Vec4(0.0, 0.0, 0.0, 1.0))
  }

  /** `mat4_make_scale`: x, y, z are multiplied by sx, sy, sz; w is kept. */
  function MakeScale(sx: real, sy: real, sz: real): (m: Mat4)
    ensures forall v :: MulVec4(m, v) == Vec4(sx * v.x, sy * v.y, sz * v.z, v.w)
  {
    Mat4(Vec4(sx, 0.0, 0.0, 0.0), Vec4(0.0, sy, 0.0, 0.0),
         Vec4(0.0, 0.0, sz, 0.0), Vec4(0.0, 0.0, 0.0, 1.0))
  }

  /**
    `mat4_make_translation`: the offset is added w times, so a point with
    w = 1 moves by (tx, ty, tz) and keeps w = 1.
  */
  function MakeTranslation(tx: real, ty: real, tz: real): (m: Mat4)
    ensures forall v :: MulVec4(m, v) == Vec4(v.x + tx * v.w, v.y + ty * v.w, v.z + tz * v.w, v.w)
  {
    Mat4(Vec4(1.0, 0.0, 0.0, tx), Vec4(0.0, 1.0, 0.0, ty),
         Vec4(0.0, 0.0, 1.0, tz), Vec4(0.0, 0.0, 0.0, 1.0))
  }

  /**
    `mat4_make_rotation_x` with `s`, `c` the sine and cosine of the angle:
    the same rotation as `vec3_t_rotate_x`, with w kept.
  */
  function MakeRotationX(s: real, c: real): (m: Mat4)
    ensures forall v :: MulVec4(m, v) == WithW(RotateX(Vec3FromVec4(v), s, c), v.w)
  {
    Mat4(Vec4(1.0, 0.0, 0.0, 0.0), Vec4(0.0, c, -s, 0.0),
         Vec4(0.0, s, c, 0.0), Vec4(0.0, 0.0, 0.0, 1.0))
  }

  /**
    `mat4_make_rotation_y`: the signs of `s` are the other way round from
    `vec3_t_rotate_y`, so it rotates by the opposite angle; y and w are kept.
  */
  function MakeRotationY(s: real, c: real): (m: Mat4)
    ensures forall v :: MulVec4(m, v) == WithW(RotateY(Vec3FromVec4(v), -s, c), v.w)
  {
    Mat4(Vec4(c, 0.0, s, 0.0), Vec4(0.0, 1.0, 0.0, 0.0),
         Vec4(-s, 0.0, c, 0.0), Vec4(0.0, 0.0, 0.0, 1.0))
  }

  /** `mat4_make_rotation_z`: the same rotation as `vec3_t_rotate_z`, w kept. */
  function MakeRotationZ(s: real, c: real): (m: Mat4)
    ensures forall v :: MulVec4(m, v) == WithW(RotateZ(Vec3FromVec4(v), s, c), v.w)
  {
    Mat4(Vec4(c, -s, 0.0, 0.0), Vec4(s, c, 0.0, 0.0),
         Vec4(0.0, 0.0, 1.0, 0.0), Vec4(0.0, 0.0, 0.0, 1.0))
  }

  /**
    `mat4_make_perspective` as written, with `tanHalf` = tan(fov / 2).
    Division binds tighter than subtraction, so the depth entries are
    `(zfar / zfar) - znear` = 1 - znear and `(-znear * zfar / zfar) - znear`
    = -2 znear. The last row (0, 0, 1, 0) copies the input z into w.
  */
  function MakePerspective(tanHalf: real, aspect: real, znear: real, zfar: real): (m: Mat4)
    requires tanHalf != 0.0 && zfar != 0.0
    ensures forall v :: MulVec4(m, v).w == v.z
    ensures m.r2 == Vec4(0.0, 0.0, 1.0 - znear, -2.0 * znear)
  {
    var y := 1.0 / tanHalf;
    var x := aspect * y;
    var z := zfar / zfar - znear;
    var w := -znear * zfar / zfar - znear;
    DivCancel(-znear, zfar);
    DivSelf(zfar);
    PerspectiveShape(x, y, z, w)
  }

  /** The common shape of both perspective matrices. */
  function PerspectiveShape(x: real, y: real, z: real, w: real): (m: Mat4)
    ensures forall v :: MulVec4(m, v).w == v.z
    ensures m.r2 == Vec4(0.0, 0.0, z, w)
  {
    Mat4(Vec4(x, 0.0, 0.0, 0.0), Vec4(0.0, y, 0.0, 0.0),
         Vec4(0.0, 0.0, z, w), Vec4(0.0, 0.0, 1.0, 0.0))
  }

  /**
    The perspective matrix with the parenthesisation the formula needs:
    depth entries zfar / (zfar - znear) and -znear * zfar / (zfar - znear).
  */
  function MakePerspectiveIntended(tanHalf: real, aspect: real, znear: real, zfar: real): (m: Mat4)
    requires tanHalf != 0.0 && znear != zfar
    ensures forall v :: MulVec4(m, v).w == v.z
    ensures m.r2 == Vec4(0.0, 0.0, zfar / (zfar - znear), -znear * zfar / (zfar - znear))
  {
    var y := 1.0 / tanHalf;
    var x := aspect * y;
    var z := zfar / (zfar - znear);
    var w := -znear * zfar / (zfar - znear);
    PerspectiveShape(x, y, z, w)
  }

  // ------------------------------------------------------------ products

  /**
    `mat4_mul_vec4_project`: when the product's w is zero the product is
    returned as it is; otherwise x, y and z are divided by w and w is kept.
  */
  function MulVec4Project(m: Mat4, v: Vec4): (r: Vec4)
    ensures MulVec4(m, v).w == 0.0 ==> r == MulVec4(m, v)
    ensures MulVec4(m, v).w != 0.0 ==>
      var p := MulVec4(m, v);
      r.w == p.w && r.x * p.w == p.x && r.y * p.w == p.y && r.z * p.w == p.z
  {
    var r := MulVec4(m, v);
    if r.w != 0.0 then Vec4(r.x / r.w, r.y / r.w, r.z / r.w, r.w) else r
  }

  /** Column j of b. */
  function Column(b: Mat4, j: int): Vec4
    requires 0 <= j < 4
  {
    Vec4(Component(b.r0, j), Component(b.r1, j), Component(b.r2, j), Component(b.r3, j))
  }

  /** A row vector times b: its dot products with the columns of b. */
  function RowTimesMatrix(r: Vec4, b: Mat4): Vec4 {
    Vec4(Dot4(r, Vec4(b.r0.x, b.r1.x, b.r2.x, b.r3.x)), Dot4(r, Vec4(b.r0.y, b.r1.y, b.r2.y, b.r3.y)),
         Dot4(r, Vec4(b.r0.z, b.r1.z, b.r2.z, b.r3.z)), Dot4(r, Vec4(b.r0.w, b.r1.w, b.r2.w, b.r3.w)))
  }

  /** The matrix product a * b: entry (i, j) is row i of a dotted with column j of b. */
  function Product(a: Mat4, b: Mat4): Mat4 {
    Mat4(RowTimesMatrix(a.r0, b), RowTimesMatrix(a.r1, b), RowTimesMatrix(a.r2, b), RowTimesMatrix(a.r3, b))
  }

  /** The matrix whose entries a 4x4 array holds. */
  function FromArray(t: array2<real>): Mat4
    requires t.Length0 == 4 && t.Length1 == 4
    reads t
  {
    Mat4(Vec4(t[0, 0], t[0, 1], t[0, 2], t[0, 3]), Vec4(t[1, 0], t[1, 1], t[1, 2], t[1, 3]),
         Vec4(t[2, 0], t[2, 1], t[2, 2], t[2, 3]), Vec4(t[3, 0], t[3, 1], t[3, 2], t[3, 3]))
  }

  /**
    `mat4_mul_mat4`: the nested i/j loops fill a local matrix with row i of
    a dotted with column j of b, which is the product a * b.
  */
  method MulMat4(a: Mat4, b: Mat4) returns (m: Mat4)
    ensures m == Product(a, b)
  {
    var t := new real[4, 4];
    for i := 0 to 4
      invariant forall r, c | 0 <= r < i && 0 <= c < 4 :: t[r, c] == Dot4(Row(a, r), Column(b, c))
    {
      for j := 0 to 4
        invariant forall r, c | 0 <= r < i && 0 <= c < 4 :: t[r, c] == Dot4(Row(a, r), Column(b, c))
        invariant forall c | 0 <= c < j :: t[i, c] == Dot4(Row(a, i), Column(b, c))
      {
        t[i, j] := Entry(a, i, 0) * Entry(b, 0, j) + Entry(a, i, 1) * Entry(b, 1, j)
                 + Entry(a, i, 2) * Entry(b, 2, j) + Entry(a, i, 3) * Entry(b, 3, j);
      }
    }
    m := FromArray(t);
    assert Column(b, 0) == Vec4(b.r0.x, b.r1.x, b.r2.x, b.r3.x);
    assert Column(b, 1) == Vec4(b.r0.y, b.r1.y, b.r2.y, b.r3.y);
    assert Column(b, 2) == Vec4(b.r0.z, b.r1.z, b.r2.z, b.r3.z);
    assert Column(b, 3) == Vec4(b.r0.w, b.r1.w, b.r2.w, b.r3.w);
    assert m.r0 == RowTimesMatrix(a.r0, b) && m.r1 == RowTimesMatrix(a.r1, b);
    assert m.r2 == RowTimesMatrix(a.r2, b) && m.r3 == RowTimesMatrix(a.r3, b);
  }

  // ------------------------------------------------------------ lemmas

  /** The identity is a left and a right neutral element of the product. */
  lemma {:induction false} IdentityNeutral(a: Mat4)
    ensures Product(Identity(), a) == a
    ensures Product(a, Identity()) == a
  {
    var i := Identity();
    assert Column(i, 0) == Vec4(1.0, 0.0, 0.0, 0.0) && Column(i, 1) == Vec4(0.0, 1.0, 0.0, 0.0);
    assert Column(i, 2) == Vec4(0.0, 0.0, 1.0, 0.0) && Column(i, 3) == Vec4(0.0, 0.0, 0.0, 1.0);
    assert Product(a, i) == a;
    assert Column(a, 0) == Vec4(a.r0.x, a.r1.x, a.r2.x, a.r3.x);
    assert Column(a, 1) == Vec4(a.r0.y, a.r1.y, a.r2.y, a.r3.y);
    assert Column(a, 2) == Vec4(a.r0.z, a.r1.z, a.r2.z, a.r3.z);
    assert Column(a, 3) == Vec4(a.r0.w, a.r1.w, a.r2.w, a.r3.w);
  }

  /** Applying a product is applying its right factor, then its left one. */
  lemma {:induction false} ProductComposes(a: Mat4, b: Mat4, v: Vec4)
    ensures MulVec4(Product(a, b), v) == MulVec4(a, MulVec4(b, v))
  {
    RowComposes(a.r0, b, v);
    RowComposes(a.r1, b, v);
    RowComposes(a.r2, b, v);
    RowComposes(a.r3, b, v);
  }

  /** One row of `ProductComposes`: (r b) . v == r . (b v). */
  lemma RowComposes(r: Vec4, b: Mat4, v: Vec4)
    ensures Dot4(RowTimesMatrix(r, b), v) == Dot4(r, MulVec4(b, v))
  {
    var b0, b1, b2, b3 := b.r0, b.r1, b.r2, b.r3;
    calc {
      Dot4(RowTimesMatrix(r, b), v);
      (r.x * b0.x + r.y * b1.x + r.z * b2.x + r.w * b3.x) * v.x
        + (r.x * b0.y + r.y * b1.y + r.z * b2.y + r.w * b3.y) * v.y
        + (r.x * b0.z + r.y * b1.z + r.z * b2.z + r.w * b3.z) * v.z
        + (r.x * b0.w + r.y * b1.w + r.z * b2.w + r.w * b3.w) * v.w;
      r.x * (b0.x * v.x + b0.y * v.y + b0.z * v.z + b0.w * v.w)
        + r.y * (b1.x * v.x + b1.y * v.y + b1.z * v.z + b1.w * v.w)
        + r.z * (b2.x * v.x + b2.y * v.y + b2.z * v.z + b2.w * v.w)
        + r.w * (b3.x * v.x + b3.y * v.y + b3.z * v.z + b3.w * v.w);
      Dot4(r, MulVec4(b, v));
    }
  }

  lemma DivSelf(d: real)
    requires d != 0.0
    ensures d / d == 1.0
  {
  }

  lemma DivCancel(a: real, d: real)
    requires d != 0.0
    ensures a * d / d == a
  {
  }

  /**
    For a matrix whose row 2 is (0, 0, A, B) and whose w output is the
    input z, the point (0, 0, z, 1) with z != 0 gets depth A + B / z.
  */
  lemma DepthAfterDivide(m: Mat4, z: real, a: real, b: real)
    requires z != 0.0 && m.r2 == Vec4(0.0, 0.0, a, b)
    requires forall v :: MulVec4(m, v).w == v.z
    ensures MulVec4Project(m, Vec4(0.0, 0.0, z, 1.0)).z == a + b / z
  {
    var v := Vec4(0.0, 0.0, z, 1.0);
    var p := MulVec4(m, v);
    assert p.w == z;
    assert p.z == Dot4(Vec4(0.0, 0.0, a, b), v);
    assert p.z == a * z + b;
    DivSplit(a, b, z);
  }

  lemma DivSplit(a: real, b: real, z: real)
    requires z != 0.0
    ensures (a * z + b) / z == a + b / z
  {
  }

  /**
    With a point at the near plane (z = znear, w = 1) the perspective
    matrix as written gives depth -1 - znear after the divide by w.
  */
  lemma PerspectiveNearDepthAsWritten(tanHalf: real, aspect: real, znear: real, zfar: real)
    requires tanHalf != 0.0 && zfar != 0.0 && znear > 0.0
    ensures MulVec4Project(MakePerspective(tanHalf, aspect, znear, zfar),
                           Vec4(0.0, 0.0, znear, 1.0)).z == -1.0 - znear
  {
    var m := MakePerspective(tanHalf, aspect, znear, zfar);
    DepthAfterDivide(m, znear, 1.0 - znear, -2.0 * znear);
    DivCancel(-2.0, znear);
  }

  /**
    With the intended parenthesisation, a point at the near plane gets
    depth 0 and a point at the far plane depth 1 after the divide by w.
  */
  lemma PerspectiveIntendedDepthRange(tanHalf: real, aspect: real, znear: real, zfar: real)
    requires tanHalf != 0.0 && 0.0 < znear < zfar
    ensures MulVec4Project(MakePerspectiveIntended(tanHalf, aspect, znear, zfar),
                           Vec4(0.0, 0.0, znear, 1.0)).z == 0.0
    ensures MulVec4Project(MakePerspectiveIntended(tanHalf, aspect, znear, zfar),
                           Vec4(0.0, 0.0, zfar, 1.0)).z == 1.0
  {
    IntendedDepthRange(MakePerspectiveIntended(tanHalf, aspect, znear, zfar), znear, zfar);
  }

  lemma IntendedDepthRange(m: Mat4, znear: real, zfar: real)
    requires 0.0 < znear < zfar
    requires forall v :: MulVec4(m, v).w == v.z
    requires m.r2 == Vec4(0.0, 0.0, zfar / (zfar - znear), -znear * zfar / (zfar - znear))
    ensures MulVec4Project(m, Vec4(0.0, 0.0, znear, 1.0)).z == 0.0
    ensures MulVec4Project(m, Vec4(0.0, 0.0, zfar, 1.0)).z == 1.0
  {
    var a, b := m.r2.z, m.r2.w;
    DepthAfterDivide(m, znear, a, b);
    DepthAfterDivide(m, zfar, a, b);
    IntendedDepths(a, b, znear, zfar);
  }

  /** The arithmetic behind `PerspectiveIntendedDepthRange`. */
  lemma IntendedDepths(a: real, b: real, zn: real, zf: real)
    requires 0.0 < zn < zf
    requires a == zf / (zf - zn) && b == -zn * zf / (zf - zn)
    ensures a + b / zn == 0.0 && a + b / zf == 1.0
  {
    var d := zf - zn;
    NegProductOverDivided(zn, zf, d);
    ProductOverDivided(-zn, zf, d);
    SumOverDivisor(zf, -zn, d);
  }

  lemma NegProductOverDivided(p: real, q: real, d: real)
    requires p != 0.0 && d != 0.0
    ensures -p * q / d / p == -(q / d)
  {
    assert -p * q / d == -(q / d) * p;
  }

  lemma ProductOverDivided(p: real, q: real, d: real)
    requires q != 0.0 && d != 0.0
    ensures p * q / d / q == p / d
  {
    assert p * q / d == (p / d) * q;
  }

  lemma SumOverDivisor(x: real, y: real, d: real)
    requires d != 0.0 && x + y == d
    ensures x / d + y / d == 1.0
  {
    assert (x / d + y / d) * d == x + y;
  }
}
