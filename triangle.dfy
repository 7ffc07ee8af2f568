/*
  The rasteriser kernels of src/triangle.c: barycentric weights, the
  three-swap vertex sort, the depth-tested pixel and texel writes, texel
  index wrapping, and the two scanline halves that visit the pixels of a
  sorted triangle.  Screen coordinates are C `int`s; depths, `w` and
  texture coordinates are `float`s, modelled as reals; a C conversion of a
  `float` to `int` truncates toward zero (`Trunc`).
*/
module Triangle {
  import opened Vector
  import opened Color
  import opened Light
  import opened Display

  /** The C conversion of a `float` to `int`: truncation toward zero. */
  function Trunc(x: real): (n: int)
    ensures x >= 0.0 ==> n == x.Floor
    ensures x < 0.0 ==> x <= n as real < x + 1.0
  {
    if x >= 0.0 then x.Floor else -((-x).Floor)
  }

  function Abs(n: int): (a: nat)
    ensures a == n || a == -n
  {
    if n < 0 then -n else n
  }

  // ---------------------------------------------------------------------------
  // Barycentric weights
  // ---------------------------------------------------------------------------

  /** Twice the signed area of triangle abc: the cross product of ab and ac. */
  function Area(a: Vec2, b: Vec2, c: Vec2): real {
    var ab := Vec2Sub(b, a);
    var ac := Vec2Sub(c, a);
    ab.x * ac.y - ab.y * ac.x
  }

  /** Swapping two corners negates the area, so a reordering keeps it non-zero. */
  lemma AreaReordered(a: Vec2, b: Vec2, c: Vec2)
    ensures Area(b, a, c) == -Area(a, b, c)
    ensures Area(a, c, b) == -Area(a, b, c)
    ensures Area(c, b, a) == -Area(a, b, c)
  {
  }

  /**
    `barycentric_weights`: alpha is the area of bcp and beta the area of
    apc, each over the area of abc; gamma is what is left of 1.  The
    division is unguarded in the source, hence the non-zero area.
  */
  function BarycentricWeights(a: Vec2, b: Vec2, c: Vec2, p: Vec2): (r: Vec3)
    requires Area(a, b, c) != 0.0
    ensures r.x + r.y + r.z == 1.0
  {
    var bc := Vec2Sub(c, b);
    var ac := Vec2Sub(c, a);
    var ap := Vec2Sub(p, a);
    var bp := Vec2Sub(p, b);
    var area := Area(a, b, c);
    var alpha := (bc.x * bp.y - bp.x * bc.y) / area;
    var beta := (ap.x * ac.y - ac.x * ap.y) / area;
    Vec3(alpha, beta, 1.0 - alpha - beta)
  }

  /** At each corner the weights single out that corner. */
  lemma {:induction false} BarycentricAtCorners(a: Vec2, b: Vec2, c: Vec2)
    requires Area(a, b, c) != 0.0
    ensures BarycentricWeights(a, b, c, a) == Vec3(1.0, 0.0, 0.0)
    ensures BarycentricWeights(a, b, c, b) == Vec3(0.0, 1.0, 0.0)
    ensures BarycentricWeights(a, b, c, c) == Vec3(0.0, 0.0, 1.0)
  {
    var area := Area(a, b, c);
    var bc := Vec2Sub(c, b);
    var ac := Vec2Sub(c, a);
    var ba := Vec2Sub(a, b);
    var ab := Vec2Sub(b, a);
    assert bc.x * ba.y - ba.x * bc.y == area;
    assert ab.x * ac.y - ac.x * ab.y == area;
    assert bc.x * bc.y - bc.x * bc.y == 0.0;
    assert ac.x * ac.y - ac.x * ac.y == 0.0;
    SelfOverSelf(area);
    assert BarycentricWeights(a, b, c, a).x == area / area;
    assert BarycentricWeights(a, b, c, b).y == area / area;
    assert BarycentricWeights(a, b, c, c).x == 0.0 / area;
    assert BarycentricWeights(a, b, c, c).y == 0.0 / area;
  }

  lemma SelfOverSelf(d: real)
    requires d != 0.0
    ensures d / d == 1.0 && 0.0 / d == 0.0
  {
  }

  /** The weighted sum of three per-corner values. */
  function Interpolate(wts: Vec3, fa: real, fb: real, fc: real): real {
    fa * wts.x + fb * wts.y + fc * wts.z
  }

  // ---------------------------------------------------------------------------
  // Screen vertices and the three-swap sort
  // ---------------------------------------------------------------------------

  /** A corner as the triangle routines receive it: integer screen position, depth, w and texture coordinate. */
  datatype ScreenVertex = ScreenVertex(x: int, y: int, z: real, w: real, uv: Tex2)

  /** `vec4_t point = { x, y, z, w }`. */
  function Point(v: ScreenVertex): Vec4 {
    Vec4(v.x as real, v.y as real, v.z, v.w)
  }

  /** The screen position of a corner. */
  function Xy(v: ScreenVertex): Vec2 {
    Vec2(v.x as real, v.y as real)
  }

  /** (s0, s1, s2) is one of the six orders of (v0, v1, v2). */
  predicate IsReordering(s0: ScreenVertex, s1: ScreenVertex, s2: ScreenVertex, v0: ScreenVertex, v1: ScreenVertex, v2: ScreenVertex) {
    (s0, s1, s2) == (v0, v1, v2) || (s0, s1, s2) == (v0, v2, v1) ||
    (s0, s1, s2) == (v1, v0, v2) || (s0, s1, s2) == (v1, v2, v0) ||
    (s0, s1, s2) == (v2, v0, v1) || (s0, s1, s2) == (v2, v1, v0)
  }

  /**
    The vertex sort at the head of `draw_filled_triangle`,
    `draw_filled_triangle_with_z` and `draw_textured_triangle`: three
    compare-and-swaps on y, each swapping the whole corner so that x, z,
    w, u and v travel with their y.
  */
  function SortByY(v0: ScreenVertex, v1: ScreenVertex, v2: ScreenVertex): (s: (ScreenVertex, ScreenVertex, ScreenVertex))
    ensures s.0.y <= s.1.y <= s.2.y
    ensures multiset{s.0, s.1, s.2} == multiset{v0, v1, v2}
    ensures IsReordering(s.0, s.1, s.2, v0, v1, v2)
  {
    var (a0, a1) := if v0.y > v1.y then (v1, v0) else (v0, v1);
    var (b1, b2) := if a1.y > v2.y then (v2, a1) else (a1, v2);
    var (c0, c1) := if a0.y > b1.y then (b1, a0) else (a0, b1);
    (c0, c1, b2)
  }

  /** A reordering of the corners keeps the area non-zero. */
  lemma ReorderingKeepsArea(s0: ScreenVertex, s1: ScreenVertex, s2: ScreenVertex, v0: ScreenVertex, v1: ScreenVertex, v2: ScreenVertex)
    requires IsReordering(s0, s1, s2, v0, v1, v2)
    ensures Area(Xy(s0), Xy(s1), Xy(s2)) != 0.0 <==> Area(Xy(v0), Xy(v1), Xy(v2)) != 0.0
  {
    var a, b, c := Xy(v0), Xy(v1), Xy(v2);
    AreaReordered(a, b, c);
    AreaReordered(b, c, a);
    AreaReordered(c, a, b);
  }

  /** `v = 1 - v`: the flip of the texture's v axis in `draw_textured_triangle`, an involution. */
  function FlipV(t: Tex2): (r: Tex2)
    ensures r.u == t.u && r.v + t.v == 1.0
  {
    Tex2(t.u, 1.0 - t.v)
  }

  lemma FlipVTwice(t: Tex2)
    ensures FlipV(FlipV(t)) == t
  {
  }

  // ---------------------------------------------------------------------------
  // Per-pixel depth and texture coordinates
  // ---------------------------------------------------------------------------

  /** The corners are usable for interpolation: a non-zero area and non-zero w. */
  predicate Interpolable(a: Vec4, b: Vec4, c: Vec4) {
    Area(Vec2FromVec4(a), Vec2FromVec4(b), Vec2FromVec4(c)) != 0.0 &&
    a.w != 0.0 && b.w != 0.0 && c.w != 0.0
  }

  /** The barycentric weights of pixel (x, y). */
  function PixelWeights(a: Vec4, b: Vec4, c: Vec4, x: int, y: int): Vec3
    requires Interpolable(a, b, c)
  {
    BarycentricWeights(Vec2FromVec4(a), Vec2FromVec4(b), Vec2FromVec4(c), Vec2(x as real, y as real))
  }

  /** 1/w interpolated over the triangle at pixel (x, y). */
  function ReciprocalW(a: Vec4, b: Vec4, c: Vec4, x: int, y: int): real
    requires Interpolable(a, b, c)
  {
    Interpolate(PixelWeights(a, b, c, x, y), 1.0 / a.w, 1.0 / b.w, 1.0 / c.w)
  }

  /** The depth compared against the z-buffer: 1 - 1/w, so nearer pixels have smaller values. */
  function Depth(a: Vec4, b: Vec4, c: Vec4, x: int, y: int): real
    requires Interpolable(a, b, c)
  {
    1.0 - ReciprocalW(a, b, c, x, y)
  }

  /** At a corner the depth is 1 - 1/w of that corner. */
  lemma {:induction false} DepthAtCorners(a: ScreenVertex, b: ScreenVertex, c: ScreenVertex)
    requires Interpolable(Point(a), Point(b), Point(c))
    ensures Depth(Point(a), Point(b), Point(c), a.x, a.y) == 1.0 - 1.0 / a.w
    ensures Depth(Point(a), Point(b), Point(c), b.x, b.y) == 1.0 - 1.0 / b.w
    ensures Depth(Point(a), Point(b), Point(c), c.x, c.y) == 1.0 - 1.0 / c.w
  {
    BarycentricAtCorners(Xy(a), Xy(b), Xy(c));
  }

  /** The perspective-correct texture coordinate: (f/w) interpolated, divided by the interpolated 1/w. */
  function PerspectiveCorrect(a: Vec4, b: Vec4, c: Vec4, fa: real, fb: real, fc: real, x: int, y: int): real
    requires Interpolable(a, b, c) && ReciprocalW(a, b, c, x, y) != 0.0
  {
    Interpolate(PixelWeights(a, b, c, x, y), fa / a.w, fb / b.w, fc / c.w) / ReciprocalW(a, b, c, x, y)
  }

  /** At each corner the perspective-correct coordinate is that corner's own coordinate. */
  lemma {:induction false} PerspectiveCorrectAtCorner(a: ScreenVertex, b: ScreenVertex, c: ScreenVertex, fa: real, fb: real, fc: real)
    requires Interpolable(Point(a), Point(b), Point(c))
    ensures ReciprocalW(Point(a), Point(b), Point(c), a.x, a.y) != 0.0
    ensures ReciprocalW(Point(a), Point(b), Point(c), b.x, b.y) != 0.0
    ensures ReciprocalW(Point(a), Point(b), Point(c), c.x, c.y) != 0.0
    ensures PerspectiveCorrect(Point(a), Point(b), Point(c), fa, fb, fc, a.x, a.y) == fa
    ensures PerspectiveCorrect(Point(a), Point(b), Point(c), fa, fb, fc, b.x, b.y) == fb
    ensures PerspectiveCorrect(Point(a), Point(b), Point(c), fa, fb, fc, c.x, c.y) == fc
  {
    BarycentricAtCorners(Xy(a), Xy(b), Xy(c));
    QuotientOverReciprocal(fa, a.w);
    QuotientOverReciprocal(fb, b.w);
    QuotientOverReciprocal(fc, c.w);
  }

  lemma QuotientOverReciprocal(f: real, w: real)
    requires w != 0.0
    ensures 1.0 / w != 0.0 && (f / w) / (1.0 / w) == f
  {
    assert (1.0 / w) * w == 1.0;
    assert (f / w) * w == f;
  }

  /**
    `abs((int)(t * size)) % size`: the texel column or row for texture
    coordinate t; always inside the texture, whatever t is.
  */
  function TexelIndex(t: real, size: int): (r: int)
    requires size > 0
    ensures 0 <= r < size
  {
    Abs(Trunc(t * size as real)) % size
  }

  /** The texel `draw_texel_perspective_correct` reads for pixel (x, y): row-major in a tw * th texture. */
  function PerspectiveTexel(a: Vec4, b: Vec4, c: Vec4, auv: Tex2, buv: Tex2, cuv: Tex2, x: int, y: int, tw: int, th: int): (i: int)
    requires Interpolable(a, b, c) && ReciprocalW(a, b, c, x, y) != 0.0 && tw > 0 && th > 0
    ensures 0 <= i < tw * th
  {
    var tx := TexelIndex(PerspectiveCorrect(a, b, c, auv.u, buv.u, cuv.u, x, y), tw);
    var ty := TexelIndex(PerspectiveCorrect(a, b, c, auv.v, buv.v, cuv.v, x, y), th);
    IndexInBounds(tx, ty, tw, th);
    tw * ty + tx
  }

  /** The texel `draw_texel` reads for pixel p, with the coordinates interpolated without perspective. */
  function AffineTexel(a: Vec2, b: Vec2, c: Vec2, p: Vec2, u0: real, v0: real, u1: real, v1: real, u2: real, v2: real, tw: int, th: int): (i: int)
    requires Area(a, b, c) != 0.0 && tw > 0 && th > 0
    ensures 0 <= i < tw * th
  {
    var wts := BarycentricWeights(a, b, c, p);
    var tx := TexelIndex(Interpolate(wts, u0, u1, u2), tw);
    var ty := TexelIndex(Interpolate(wts, v0, v1, v2), th);
    IndexInBounds(tx, ty, tw, th);
    ty * tw + tx
  }

  lemma BufferSizePositive(w: int, h: int)
    requires w > 0 && h > 0
    ensures w * h > 0
  {
  }

  lemma ModSmall(n: int, m: int)
    requires 0 <= n < m
    ensures n % m == n
  {
    DivModUnique(n, m, 0, n);
  }

  /**
    `draw_texel`: the pixel gets the texel at the interpolated texture
    coordinate, wrapped into the texture.
  */
  method DrawTexel(canvas: Canvas, x: int, y: int, texture: array<Color>, a: Vec2, b: Vec2, c: Vec2,
                   u0: real, v0: real, u1: real, v1: real, u2: real, v2: real)
    requires canvas.Valid() && canvas.colorBuffer != null && 0 <= x && 0 <= y
    requires Area(a, b, c) != 0.0 && canvas.textureWidth > 0 && canvas.textureHeight > 0
    requires texture.Length == canvas.textureWidth * canvas.textureHeight
    modifies canvas.colorBuffer
    ensures x < canvas.width && y < canvas.height ==> 0 <= y * canvas.width + x < canvas.colorBuffer.Length
    ensures canvas.colorBuffer[..] ==
      if x < canvas.width && y < canvas.height then
        old(canvas.colorBuffer[..])[y * canvas.width + x :=
          old(texture[AffineTexel(a, b, c, Vec2(x as real, y as real), u0, v0, u1, v1, u2, v2, canvas.textureWidth, canvas.textureHeight)])]
      else old(canvas.colorBuffer[..])
  {
    var i := AffineTexel(a, b, c, Vec2(x as real, y as real), u0, v0, u1, v1, u2, v2, canvas.textureWidth, canvas.textureHeight);
    canvas.DrawPixel(x, y, texture[i]);
  }

  /**
    `draw_triangle_pixel`: the pixel and its depth are written only when
    the interpolated depth is below the stored one.  The depth index is
    not checked by the source, hence the precondition on it.
  */
  method DrawTrianglePixel(canvas: Canvas, x: int, y: int, color: Color, a: Vec4, b: Vec4, c: Vec4)
    requires canvas.Valid() && canvas.colorBuffer != null && Interpolable(a, b, c)
    requires 0 <= x && 0 <= y && y * canvas.width + x < canvas.width * canvas.height
    modifies canvas.colorBuffer, canvas.zBuffer
    ensures var j := y * canvas.width + x;
      var d := Depth(a, b, c, x, y);
      canvas.zBuffer[..] == (if d < old(canvas.zBuffer[j]) then old(canvas.zBuffer[..])[j := d] else old(canvas.zBuffer[..])) &&
      canvas.colorBuffer[..] ==
        (if d < old(canvas.zBuffer[j]) && x < canvas.width && y < canvas.height then old(canvas.colorBuffer[..])[j := color]
         else old(canvas.colorBuffer[..]))
  {
    var d := Depth(a, b, c, x, y);
    DepthTestedWrite(canvas, x, y, canvas.width * y + x, d, color);
  }

  /**
    The depth test both pixel writers end with: when depth d is below the
    stored depth at index zi, draw the pixel (refused off the window) and
    store d.
  */
  method DepthTestedWrite(canvas: Canvas, x: int, y: int, zi: int, d: real, color: Color)
    requires canvas.Valid() && canvas.colorBuffer != null && 0 <= x && 0 <= y
    requires 0 <= zi < canvas.zBuffer.Length
    modifies canvas.colorBuffer, canvas.zBuffer
    ensures x < canvas.width && y < canvas.height ==> 0 <= y * canvas.width + x < canvas.colorBuffer.Length
    ensures canvas.zBuffer[..] == if d < old(canvas.zBuffer[zi]) then old(canvas.zBuffer[..])[zi := d] else old(canvas.zBuffer[..])
    ensures canvas.colorBuffer[..] ==
      if d < old(canvas.zBuffer[zi]) && x < canvas.width && y < canvas.height then old(canvas.colorBuffer[..])[y * canvas.width + x := color]
      else old(canvas.colorBuffer[..])
  {
    if x < canvas.width && y < canvas.height {
      IndexInBounds(x, y, canvas.width, canvas.height);
    }
    if d < canvas.zBuffer[zi] {
      canvas.DrawPixel(x, y, color);
      canvas.zBuffer[zi] := d;
    }
  }

  /**
    `draw_texel_perspective_correct`: when the interpolated depth is below
    the stored one, the pixel gets the lit texel at the perspective-correct
    texture coordinate and the depth is stored.  The depth index is taken
    modulo the buffer size.  The division by the interpolated 1/w is
    unguarded in the source, hence the precondition on it.
  */
  method DrawTexelPerspectiveCorrect(canvas: Canvas, x: int, y: int, texture: array<Color>, light: real,
                                     a: Vec4, b: Vec4, c: Vec4, auv: Tex2, buv: Tex2, cuv: Tex2)
    requires canvas.Valid() && canvas.colorBuffer != null && 0 <= x && 0 <= y
    requires Interpolable(a, b, c) && ReciprocalW(a, b, c, x, y) != 0.0
    requires canvas.textureWidth > 0 && canvas.textureHeight > 0
    requires texture.Length == canvas.textureWidth * canvas.textureHeight
    modifies canvas.colorBuffer, canvas.zBuffer
    ensures 0 <= (canvas.width * y + x) % (canvas.width * canvas.height) < canvas.zBuffer.Length
    ensures x < canvas.width && y < canvas.height ==> 0 <= y * canvas.width + x < canvas.colorBuffer.Length
    ensures var zi := (canvas.width * y + x) % (canvas.width * canvas.height);
      var d := Depth(a, b, c, x, y);
      canvas.zBuffer[..] == (if d < old(canvas.zBuffer[zi]) then old(canvas.zBuffer[..])[zi := d] else old(canvas.zBuffer[..]))
    ensures var zi := (canvas.width * y + x) % (canvas.width * canvas.height);
      var texel := old(texture[PerspectiveTexel(a, b, c, auv, buv, cuv, x, y, canvas.textureWidth, canvas.textureHeight)]);
      canvas.colorBuffer[..] ==
        (if Depth(a, b, c, x, y) < old(canvas.zBuffer[zi]) && x < canvas.width && y < canvas.height then
           old(canvas.colorBuffer[..])[y * canvas.width + x := UpdateColorIntensity(texel, light)]
         else old(canvas.colorBuffer[..]))
  {
    var i := PerspectiveTexel(a, b, c, auv, buv, cuv, x, y, canvas.textureWidth, canvas.textureHeight);
    var d := Depth(a, b, c, x, y);
    BufferSizePositive(canvas.width, canvas.height);
    var zi := (canvas.width * y + x) % (canvas.width * canvas.height);
    DepthTestedWrite(canvas, x, y, zi, d, UpdateColorIntensity(texture[i], light));
  }

  // ---------------------------------------------------------------------------
  // What a fill does to one pixel
  // ---------------------------------------------------------------------------

  /** How the pixels of a triangle are coloured: one flat colour, or lit texels of a texture. */
  datatype Fill = Flat(color: Color) | Textured(texture: array<Color>, light: real)

  /**
    Pixel (x, y) can be filled: the corners interpolate, and a texture fill
    also has a non-zero interpolated 1/w there and tw * th texels in tex.
  */
  predicate FillUsable(fill: Fill, tex: seq<Color>, s0: ScreenVertex, s1: ScreenVertex, s2: ScreenVertex, x: int, y: int, tw: int, th: int) {
    Interpolable(Point(s0), Point(s1), Point(s2)) &&
    (fill.Textured? ==> ReciprocalW(Point(s0), Point(s1), Point(s2), x, y) != 0.0 && tw > 0 && th > 0 && |tex| == tw * th)
  }

  /** The colour pixel (x, y) gets when it passes the depth test: the flat colour, or the lit perspective-correct texel. */
  function FillColor(fill: Fill, tex: seq<Color>, s0: ScreenVertex, s1: ScreenVertex, s2: ScreenVertex, x: int, y: int, tw: int, th: int): Color
    requires FillUsable(fill, tex, s0, s1, s2, x, y, tw, th)
  {
    match fill
    case Flat(color) => color
    case Textured(_, light) =>
      UpdateColorIntensity(tex[PerspectiveTexel(Point(s0), Point(s1), Point(s2), s0.uv, s1.uv, s2.uv, x, y, tw, th)], light)
  }

  /** The depth test on one pixel, from depth z0 and colour c0 to z1 and c1: depth d and colour col replace them exactly when d < z0. */
  predicate DepthTested(z0: real, c0: Color, z1: real, c1: Color, d: real, col: Color) {
    if d < z0 then z1 == d && c1 == col else z1 == z0 && c1 == c0
  }

  /** Testing the same depth and colour a second time changes nothing more. */
  lemma DepthTestedTwice(z0: real, c0: Color, z1: real, c1: Color, z2: real, c2: Color, d: real, col: Color)
    requires DepthTested(z0, c0, z1, c1, d, col) && DepthTested(z1, c1, z2, c2, d, col)
    ensures DepthTested(z0, c0, z2, c2, d, col)
  {
  }

  /** Buffers (z0, c0) became (z1, c1) with pixel (x, y) of a w-wide window put through the fill's depth test. */
  predicate FilledAt(fill: Fill, tex: seq<Color>, s0: ScreenVertex, s1: ScreenVertex, s2: ScreenVertex, w: int, tw: int, th: int,
                     x: int, y: int, z0: seq<real>, c0: seq<Color>, z1: seq<real>, c1: seq<Color>) {
    var j := y * w + x;
    0 <= j < |z0| && j < |c0| && j < |z1| && j < |c1| &&
    FillUsable(fill, tex, s0, s1, s2, x, y, tw, th) &&
    DepthTested(z0[j], c0[j], z1[j], c1[j], Depth(Point(s0), Point(s1), Point(s2), x, y), FillColor(fill, tex, s0, s1, s2, x, y, tw, th))
  }

  /** Pixel (x, y) of a w-wide window is the same in (z0, c0) and (z1, c1). */
  predicate KeptAt(w: int, x: int, y: int, z0: seq<real>, c0: seq<Color>, z1: seq<real>, c1: seq<Color>) {
    var j := y * w + x;
    0 <= j < |z0| && j < |c0| && j < |z1| && j < |c1| && z1[j] == z0[j] && c1[j] == c0[j]
  }

  /** Every pixel of a w * h window is kept by leaving the buffers alone. */
  lemma AllKept(w: int, h: int, z: seq<real>, c: seq<Color>)
    requires |z| == |c| == w * h
    ensures forall x, y :: 0 <= x < w && 0 <= y < h ==> KeptAt(w, x, y, z, c, z, c)
  {
    forall x, y | 0 <= x < w && 0 <= y < h
      ensures KeptAt(w, x, y, z, c, z, c)
    {
      IndexInBounds(x, y, w, h);
    }
  }

  /** A colour the fill can leave in a pixel; tex holds the texture's texels. */
  predicate Allowed(fill: Fill, tex: seq<Color>, col: Color) {
    match fill
    case Flat(color) => col == color
    case Textured(_, light) => exists t :: t in tex && col == UpdateColorIntensity(t, light)
  }

  /**
    From buffers (z0, c0) to (z1, c1): no depth increases, and a pixel
    changes colour only where its depth decreased, to a colour the fill
    allows.
  */
  predicate Painted(fill: Fill, tex: seq<Color>, z0: seq<real>, c0: seq<Color>, z1: seq<real>, c1: seq<Color>) {
    |z1| == |z0| && |c1| == |c0| && |c0| == |z0| &&
    (forall k :: 0 <= k < |z0| ==> z1[k] <= z0[k]) &&
    (forall k :: 0 <= k < |c0| ==> c1[k] == c0[k] || (z1[k] < z0[k] && Allowed(fill, tex, c1[k])))
  }

  /** What a fill needs of the canvas: a texture of the canvas's texture size, apart from the colour buffer. */
  ghost predicate FillReady(canvas: Canvas, fill: Fill, tex: seq<Color>)
    reads canvas
  {
    match fill
    case Flat(_) => true
    case Textured(texture, _) =>
      canvas.textureWidth > 0 && canvas.textureHeight > 0 &&
      texture.Length == canvas.textureWidth * canvas.textureHeight &&
      texture != canvas.colorBuffer && |tex| == texture.Length
  }

  /**
    One pixel of a span, written as the fill says: `draw_triangle_pixel`
    for a flat fill, `draw_texel_perspective_correct` for a texture.  Only
    index y * width + x can change, and it gets the fill's depth and colour
    exactly when the depth test passes.
  */
  method DrawFillPixel(canvas: Canvas, fill: Fill, ghost tex: seq<Color>, s0: ScreenVertex, s1: ScreenVertex, s2: ScreenVertex, x: int, y: int)
    requires canvas.Valid() && canvas.colorBuffer != null && FillReady(canvas, fill, tex)
    requires fill.Textured? ==> tex == fill.texture[..]
    requires 0 <= x < canvas.width && 0 <= y < canvas.height
    requires FillUsable(fill, tex, s0, s1, s2, x, y, canvas.textureWidth, canvas.textureHeight)
    modifies canvas.colorBuffer, canvas.zBuffer
    ensures 0 <= y * canvas.width + x < canvas.zBuffer.Length
    ensures var j := y * canvas.width + x;
      var d := Depth(Point(s0), Point(s1), Point(s2), x, y);
      canvas.zBuffer[..] == (if d < old(canvas.zBuffer[j]) then old(canvas.zBuffer[..])[j := d] else old(canvas.zBuffer[..])) &&
      canvas.colorBuffer[..] ==
        (if d < old(canvas.zBuffer[j]) then old(canvas.colorBuffer[..])[j := FillColor(fill, tex, s0, s1, s2, x, y, canvas.textureWidth, canvas.textureHeight)]
         else old(canvas.colorBuffer[..]))
  {
    var a, b, c := Point(s0), Point(s1), Point(s2);
    IndexInBounds(x, y, canvas.width, canvas.height);
    ghost var col := FillColor(fill, tex, s0, s1, s2, x, y, canvas.textureWidth, canvas.textureHeight);
    match fill
    case Flat(color) =>
      assert col == color;
      DrawTrianglePixel(canvas, x, y, color, a, b, c);
    case Textured(texture, light) =>
      ModSmall(canvas.width * y + x, canvas.width * canvas.height);
      ghost var i := PerspectiveTexel(a, b, c, s0.uv, s1.uv, s2.uv, x, y, canvas.textureWidth, canvas.textureHeight);
      assert col == UpdateColorIntensity(texture[i], light);
      DrawTexelPerspectiveCorrect(canvas, x, y, texture, light, a, b, c, s0.uv, s1.uv, s2.uv);
  }

  // ---------------------------------------------------------------------------
  // Scanline halves
  // ---------------------------------------------------------------------------

  /** `inv_slope = (float)dx / abs(dy)`, left at 0 when dy is 0. */
  function Slope(dx: int, dy: int): (s: real)
    ensures dy != 0 ==> s * Abs(dy) as real == dx as real
    ensures dy == 0 ==> s == 0.0
  {
    if dy != 0 then dx as real / Abs(dy) as real else 0.0
  }

  /** `int x = xa + (y - ya) * slope`: the column where an edge crosses row y. */
  function EdgeX(xa: int, ya: int, slope: real, y: int): (x: int)
    ensures y == ya ==> x == xa
    ensures x as real - 1.0 < xa as real + (y - ya) as real * slope < x as real + 1.0
  {
    Trunc(xa as real + (y - ya) as real * slope)
  }

  /** For a rising edge the slope is the plain quotient. */
  lemma SlopeOfRising(dx: int, dy: int)
    requires dy > 0
    ensures Slope(dx, dy) == dx as real / dy as real
  {
    assert Abs(dy) == dy;
  }

  function MinX(a: int, b: int): int { if a < b then a else b }
  function MaxX(a: int, b: int): int { if a < b then b else a }

  lemma MulNonNegative(a: real, b: real)
    requires a >= 0.0 && b >= 0.0
    ensures a * b >= 0.0
  {
  }

  /** A fraction t in [0, 1] of m lies between 0 and m. */
  lemma ScaleBetween(t: real, m: real)
    requires 0.0 <= t <= 1.0
    ensures m >= 0.0 ==> 0.0 <= t * m <= m
    ensures m < 0.0 ==> m <= t * m <= 0.0
  {
    if m >= 0.0 {
      MulNonNegative(t, m);
      MulNonNegative(1.0 - t, m);
      assert m - t * m == (1.0 - t) * m;
    } else {
      MulNonNegative(t, -m);
      MulNonNegative(1.0 - t, -m);
      assert t * m == -(t * -m);
      assert t * m - m == (1.0 - t) * -m;
    }
  }

  /** n * (m / d) == (n / d) * m. */
  lemma MulOverDiv(n: real, m: real, d: real)
    requires d != 0.0
    ensures n * (m / d) == (n / d) * m
  {
    assert n * (m / d) * d == n * m;
    assert (n / d) * m * d == n * m;
  }

  lemma FractionInUnit(n: real, d: real)
    requires 0.0 <= n <= d && d > 0.0
    ensures 0.0 <= n / d <= 1.0
  {
    assert (n / d) * d == n;
  }

  /** Going n of d rows along an edge that moves m columns over d rows moves between 0 and m columns. */
  lemma OffsetBounds(n: real, d: real, m: real)
    requires 0.0 <= n <= d && d > 0.0
    ensures m >= 0.0 ==> 0.0 <= n * (m / d) <= m
    ensures m < 0.0 ==> m <= n * (m / d) <= 0.0
  {
    MulOverDiv(n, m, d);
    FractionInUnit(n, d);
    ScaleBetween(n / d, m);
  }

  lemma NegateFactor(n: real, s: real)
    ensures (-n) * s == -(n * s)
  {
  }

  /** A value between two non-negative integers truncates to an integer between them. */
  lemma TruncBetween(v: real, lo: int, hi: int)
    requires 0 <= lo && lo as real <= v <= hi as real
    ensures lo <= Trunc(v) <= hi
  {
  }

  /** Moving k of d rows from column x0 along an edge of slope m / d, for k in [0, d], truncates to a column between x0 and x0 + m. */
  lemma ForwardStep(x0: int, x1: int, k: real, d: real, sl: real)
    requires 0 <= x0 && 0 <= x1 && 0.0 <= k <= d && d > 0.0 && sl == (x1 - x0) as real / d
    ensures MinX(x0, x1) <= Trunc(x0 as real + k * sl) <= MaxX(x0, x1)
  {
    OffsetBounds(k, d, (x1 - x0) as real);
    var v := x0 as real + k * sl;
    if x0 <= x1 {
      TruncBetween(v, x0, x1);
    } else {
      TruncBetween(v, x1, x0);
    }
  }

  /** Moving k rows back, k in [-d, 0], from column x1 along an edge of slope (x1 - x0) / d stays between x0 and x1. */
  lemma BackwardStep(x0: int, x1: int, k: real, d: real, sl: real)
    requires 0 <= x0 && 0 <= x1 && -d <= k <= 0.0 && d > 0.0 && sl == (x1 - x0) as real / d
    ensures MinX(x0, x1) <= Trunc(x1 as real + k * sl) <= MaxX(x0, x1)
  {
    OffsetBounds(-k, d, (x1 - x0) as real);
    NegateFactor(-k, sl);
    var v := x1 as real + k * sl;
    if x0 <= x1 {
      TruncBetween(v, x0, x1);
    } else {
      TruncBetween(v, x1, x0);
    }
  }

  /**
    Walking from the lower corner (xa, ya) toward (xb, yb) with the slope
    the source computes, every row between them meets the edge at a column
    between xa and xb.
  */
  lemma EdgeFromLow(xa: int, ya: int, xb: int, yb: int, y: int)
    requires ya < yb && ya <= y <= yb && 0 <= xa && 0 <= xb
    ensures MinX(xa, xb) <= EdgeX(xa, ya, Slope(xb - xa, yb - ya), y) <= MaxX(xa, xb)
  {
    var sl := Slope(xb - xa, yb - ya);
    var k := (y - ya) as real;
    SlopeOfRising(xb - xa, yb - ya);
    ForwardStep(xa, xb, k, (yb - ya) as real, sl);
    assert EdgeX(xa, ya, sl, y) == Trunc(xa as real + k * sl);
  }

  /**
    Walking back from the upper corner (xb, yb) toward (xa, ya), with the
    slope of the edge from (xa, ya) to (xb, yb), likewise stays between xa
    and xb.
  */
  lemma EdgeFromHigh(xa: int, ya: int, xb: int, yb: int, y: int)
    requires ya < yb && ya <= y <= yb && 0 <= xa && 0 <= xb
    ensures MinX(xa, xb) <= EdgeX(xb, yb, Slope(xb - xa, yb - ya), y) <= MaxX(xa, xb)
  {
    var sl := Slope(xb - xa, yb - ya);
    var k := (y - yb) as real;
    SlopeOfRising(xb - xa, yb - ya);
    BackwardStep(xa, xb, k, (yb - ya) as real, sl);
    assert EdgeX(xb, yb, sl, y) == Trunc(xb as real + k * sl);
  }

  // ---------------------------------------------------------------------------
  // Spans, halves and whole triangles
  // ---------------------------------------------------------------------------

  /** A corner inside the window. */
  predicate OnScreen(v: ScreenVertex, w: int, h: int) {
    0 <= v.x < w && 0 <= v.y < h
  }

  /** The rows a half walks: s0.y .. s1.y for the upper half, s1.y .. s2.y for the lower one. */
  function HalfRows(s0: ScreenVertex, s1: ScreenVertex, s2: ScreenVertex, upper: bool): (int, int) {
    if upper then (s0.y, s1.y) else (s1.y, s2.y)
  }

  /**
    The columns [x_start, x_end) a half draws on row y: where its short
    edge (s0-s1 or s1-s2, stepped from s1) and the long edge s0-s2 cross
    the row, swapped into order.
  */
  function HalfSpan(s0: ScreenVertex, s1: ScreenVertex, s2: ScreenVertex, upper: bool, y: int): (span: (int, int))
    ensures span.0 <= span.1
    ensures y == s1.y ==> span.0 == s1.x || span.1 == s1.x
    ensures y == s0.y ==> span.0 == s0.x || span.1 == s0.x
  {
    var slope1 := if upper then Slope(s1.x - s0.x, s1.y - s0.y) else Slope(s2.x - s1.x, s2.y - s1.y);
    var slope2 := Slope(s2.x - s0.x, s2.y - s0.y);
    var xStart := EdgeX(s1.x, s1.y, slope1, y);
    var xEnd := EdgeX(s0.x, s0.y, slope2, y);
    if xEnd < xStart then (xEnd, xStart) else (xStart, xEnd)
  }

  /** Pixel (x, y) lies on a span of the half; a half of no height has none. */
  predicate InHalf(s0: ScreenVertex, s1: ScreenVertex, s2: ScreenVertex, upper: bool, x: int, y: int) {
    var rows := HalfRows(s0, s1, s2, upper);
    var span := HalfSpan(s0, s1, s2, upper, y);
    rows.0 != rows.1 && rows.0 <= y <= rows.1 && span.0 <= x < span.1
  }

  /** Pixel (x, y) lies on a span of either half of the sorted triangle. */
  predicate InTriangle(s0: ScreenVertex, s1: ScreenVertex, s2: ScreenVertex, x: int, y: int) {
    InHalf(s0, s1, s2, true, x, y) || InHalf(s0, s1, s2, false, x, y)
  }

  /** Buffers of a w * h window went from (z0, c0) to (z1, c1) by the depth test on exactly the pixels of one half. */
  ghost predicate HalfFilled(fill: Fill, tex: seq<Color>, s0: ScreenVertex, s1: ScreenVertex, s2: ScreenVertex, upper: bool,
                             w: int, h: int, tw: int, th: int, z0: seq<real>, c0: seq<Color>, z1: seq<real>, c1: seq<Color>) {
    |z0| == |c0| == |z1| == |c1| == w * h &&
    forall x, y :: 0 <= x < w && 0 <= y < h ==>
      if InHalf(s0, s1, s2, upper, x, y) then FilledAt(fill, tex, s0, s1, s2, w, tw, th, x, y, z0, c0, z1, c1)
      else KeptAt(w, x, y, z0, c0, z1, c1)
  }

  /** Buffers of a w * h window went from (z0, c0) to (z1, c1) by the depth test on exactly the pixels of the triangle. */
  ghost predicate TriangleFilled(fill: Fill, tex: seq<Color>, s0: ScreenVertex, s1: ScreenVertex, s2: ScreenVertex,
                                 w: int, h: int, tw: int, th: int, z0: seq<real>, c0: seq<Color>, z1: seq<real>, c1: seq<Color>) {
    |z0| == |c0| == |z1| == |c1| == w * h &&
    forall x, y :: 0 <= x < w && 0 <= y < h ==>
      if InTriangle(s0, s1, s2, x, y) then FilledAt(fill, tex, s0, s1, s2, w, tw, th, x, y, z0, c0, z1, c1)
      else KeptAt(w, x, y, z0, c0, z1, c1)
  }

  lemma MulMonotone(a: int, b: int, w: int)
    requires a <= b && w >= 0
    ensures a * w <= b * w
  {
  }

  /** A pixel on another row than y lies outside the index range of any span of row y. */
  lemma OtherRowOutside(w: int, x: int, yy: int, y: int, lo: int, hi: int)
    requires 0 <= x < w && 0 <= lo && hi <= w && yy != y
    ensures !(y * w + lo <= yy * w + x < y * w + hi)
  {
    if yy < y {
      MulMonotone(yy + 1, y, w);
    } else {
      MulMonotone(y + 1, yy, w);
    }
  }

  /** The innermost loop `for (x = x_start; x < x_end; ++x)`: exactly pixels x_start <= x < x_end of row y go through the depth test. */
  method DrawSpan(canvas: Canvas, fill: Fill, ghost tex: seq<Color>, s0: ScreenVertex, s1: ScreenVertex, s2: ScreenVertex,
                  y: int, xStart: int, xEnd: int)
    requires canvas.Valid() && canvas.colorBuffer != null && FillReady(canvas, fill, tex)
    requires fill.Textured? ==> tex == fill.texture[..]
    requires 0 <= xStart && xEnd <= canvas.width && 0 <= y < canvas.height
    requires forall x :: xStart <= x < xEnd ==> FillUsable(fill, tex, s0, s1, s2, x, y, canvas.textureWidth, canvas.textureHeight)
    modifies canvas.colorBuffer, canvas.zBuffer
    ensures forall x :: xStart <= x < xEnd ==>
      FilledAt(fill, tex, s0, s1, s2, canvas.width, canvas.textureWidth, canvas.textureHeight, x, y,
               old(canvas.zBuffer[..]), old(canvas.colorBuffer[..]), canvas.zBuffer[..], canvas.colorBuffer[..])
    ensures forall k :: 0 <= k < canvas.zBuffer.Length && !(y * canvas.width + xStart <= k < y * canvas.width + xEnd) ==>
      canvas.zBuffer[k] == old(canvas.zBuffer[k]) && canvas.colorBuffer[k] == old(canvas.colorBuffer[k])
  {
    ghost var z0, c0 := canvas.zBuffer[..], canvas.colorBuffer[..];
    ghost var row := y * canvas.width;
    var x := xStart;
    while x < xEnd
      invariant xStart <= x && (x == xStart || x <= xEnd)
      invariant fill.Textured? ==> tex == fill.texture[..]
      invariant SpanFilled(fill, tex, s0, s1, s2, canvas.width, canvas.textureWidth, canvas.textureHeight, y, xStart, x,
                           z0, c0, canvas.zBuffer[..], canvas.colorBuffer[..])
      invariant KeptOutside(z0, c0, canvas.zBuffer[..], canvas.colorBuffer[..], row + xStart, row + x)
    {
      ghost var zm, cm := canvas.zBuffer[..], canvas.colorBuffer[..];
      DrawFillPixel(canvas, fill, tex, s0, s1, s2, x, y);
      SpanStep(fill, tex, s0, s1, s2, canvas.width, canvas.textureWidth, canvas.textureHeight, y, row, xStart, x,
               z0, c0, zm, cm, canvas.zBuffer[..], canvas.colorBuffer[..]);
      x := x + 1;
    }
  }

  /** Pixels xStart <= x' < x of row y went through the depth test. */
  ghost predicate SpanFilled(fill: Fill, tex: seq<Color>, s0: ScreenVertex, s1: ScreenVertex, s2: ScreenVertex, w: int, tw: int, th: int,
                             y: int, xStart: int, x: int, z0: seq<real>, c0: seq<Color>, z1: seq<real>, c1: seq<Color>)
  {
    forall x' :: xStart <= x' < x ==> FilledAt(fill, tex, s0, s1, s2, w, tw, th, x', y, z0, c0, z1, c1)
  }

  /** Every buffer index outside lo .. hi - 1 is the same in (z0, c0) and (z1, c1). */
  ghost predicate KeptOutside(z0: seq<real>, c0: seq<Color>, z1: seq<real>, c1: seq<Color>, lo: int, hi: int) {
    |z1| == |z0| && |c1| == |c0| && |c0| == |z0| &&
    forall k :: 0 <= k < |z0| && !(lo <= k < hi) ==> z1[k] == z0[k] && c1[k] == c0[k]
  }

  /** One more pixel of a span: pixels before x were tested, pixel x is tested now, the rest stays as it was. */
  lemma SpanStep(fill: Fill, tex: seq<Color>, s0: ScreenVertex, s1: ScreenVertex, s2: ScreenVertex, w: int, tw: int, th: int,
                 y: int, row: int, xStart: int, x: int,
                 z0: seq<real>, c0: seq<Color>, zm: seq<real>, cm: seq<Color>, z1: seq<real>, c1: seq<Color>)
    requires row == y * w && xStart <= x && |z0| == |c0| == |zm| == |cm| && 0 <= row + x < |z0|
    requires FillUsable(fill, tex, s0, s1, s2, x, y, tw, th)
    requires SpanFilled(fill, tex, s0, s1, s2, w, tw, th, y, xStart, x, z0, c0, zm, cm)
    requires KeptOutside(z0, c0, zm, cm, row + xStart, row + x)
    requires var d := Depth(Point(s0), Point(s1), Point(s2), x, y);
      z1 == (if d < zm[row + x] then zm[row + x := d] else zm) &&
      c1 == (if d < zm[row + x] then cm[row + x := FillColor(fill, tex, s0, s1, s2, x, y, tw, th)] else cm)
    ensures SpanFilled(fill, tex, s0, s1, s2, w, tw, th, y, xStart, x + 1, z0, c0, z1, c1)
    ensures KeptOutside(z0, c0, z1, c1, row + xStart, row + x + 1)
  {
    var j := row + x;
    assert zm[j] == z0[j] && cm[j] == c0[j];
    assert |z1| == |zm| && |c1| == |cm|;
    assert forall k :: 0 <= k < |z0| && k != j ==> z1[k] == zm[k] && c1[k] == cm[k];
    forall x' | xStart <= x' < x + 1
      ensures FilledAt(fill, tex, s0, s1, s2, w, tw, th, x', y, z0, c0, z1, c1)
    {
      if x' < x {
        assert FilledAt(fill, tex, s0, s1, s2, w, tw, th, x', y, z0, c0, zm, cm);
        assert row + x' != j;
      }
    }
  }

  /**
    One half of the scanline fill of `draw_filled_triangle_with_z` and
    `draw_textured_triangle` (s0.y <= s1.y <= s2.y): the upper half walks
    rows s0.y .. s1.y between the edges s0-s1 and s0-s2, the lower half rows
    s1.y .. s2.y between s1-s2 and s0-s2, and a half of no height is skipped.
    Exactly the pixels of the half's spans go through the depth test; every
    span lies within the corners' columns, so no write leaves the window.
  */
  method DrawHalf(canvas: Canvas, fill: Fill, ghost tex: seq<Color>, s0: ScreenVertex, s1: ScreenVertex, s2: ScreenVertex, upper: bool)
    requires canvas.Valid() && canvas.colorBuffer != null && FillReady(canvas, fill, tex)
    requires fill.Textured? ==> tex == fill.texture[..]
    requires s0.y <= s1.y <= s2.y
    requires OnScreen(s0, canvas.width, canvas.height) && OnScreen(s1, canvas.width, canvas.height) && OnScreen(s2, canvas.width, canvas.height)
    requires forall x, y :: InHalf(s0, s1, s2, upper, x, y) ==> FillUsable(fill, tex, s0, s1, s2, x, y, canvas.textureWidth, canvas.textureHeight)
    modifies canvas.colorBuffer, canvas.zBuffer
    ensures HalfFilled(fill, tex, s0, s1, s2, upper, canvas.width, canvas.height, canvas.textureWidth, canvas.textureHeight,
                       old(canvas.zBuffer[..]), old(canvas.colorBuffer[..]), canvas.zBuffer[..], canvas.colorBuffer[..])
  {
    ghost var z0, c0 := canvas.zBuffer[..], canvas.colorBuffer[..];
    AllKept(canvas.width, canvas.height, z0, c0);
    var slope1 := if upper then Slope(s1.x - s0.x, s1.y - s0.y) else Slope(s2.x - s1.x, s2.y - s1.y);
    var slope2 := Slope(s2.x - s0.x, s2.y - s0.y);
    var yFirst, yLast := if upper then s0.y else s1.y, if upper then s1.y else s2.y;
    if yLast - yFirst == 0 {
      return;
    }
    var y := yFirst;
    while y <= yLast
      invariant yFirst <= y <= yLast + 1
      invariant fill.Textured? ==> tex == fill.texture[..]
      invariant forall x, yy :: 0 <= x < canvas.width && 0 <= yy < canvas.height ==>
        if InHalf(s0, s1, s2, upper, x, yy) && yy < y then
          FilledAt(fill, tex, s0, s1, s2, canvas.width, canvas.textureWidth, canvas.textureHeight, x, yy, z0, c0, canvas.zBuffer[..], canvas.colorBuffer[..])
        else KeptAt(canvas.width, x, yy, z0, c0, canvas.zBuffer[..], canvas.colorBuffer[..])
    {
      var xStart := EdgeX(s1.x, s1.y, slope1, y);
      var xEnd := EdgeX(s0.x, s0.y, slope2, y);
      if upper {
        EdgeFromHigh(s0.x, s0.y, s1.x, s1.y, y);
      } else {
        EdgeFromLow(s1.x, s1.y, s2.x, s2.y, y);
      }
      EdgeFromLow(s0.x, s0.y, s2.x, s2.y, y);
      if xEnd < xStart {
        xStart, xEnd := xEnd, xStart;
      }
      assert (xStart, xEnd) == HalfSpan(s0, s1, s2, upper, y);
      forall x | xStart <= x < xEnd
        ensures FillUsable(fill, tex, s0, s1, s2, x, y, canvas.textureWidth, canvas.textureHeight)
      {
        assert InHalf(s0, s1, s2, upper, x, y);
      }
      ghost var zm, cm := canvas.zBuffer[..], canvas.colorBuffer[..];
      DrawSpan(canvas, fill, tex, s0, s1, s2, y, xStart, xEnd);
      RowDone(fill, tex, s0, s1, s2, upper, canvas.width, canvas.height, canvas.textureWidth, canvas.textureHeight,
              y, xStart, xEnd, z0, c0, zm, cm, canvas.zBuffer[..], canvas.colorBuffer[..]);
      y := y + 1;
    }
  }

  /** One more row of a half: rows before y were filled, the span of row y is filled now, and later rows stay kept. */
  lemma RowDone(fill: Fill, tex: seq<Color>, s0: ScreenVertex, s1: ScreenVertex, s2: ScreenVertex, upper: bool,
                w: int, h: int, tw: int, th: int, y: int, xStart: int, xEnd: int,
                z0: seq<real>, c0: seq<Color>, zm: seq<real>, cm: seq<Color>, z1: seq<real>, c1: seq<Color>)
    requires |z0| == |c0| == |zm| == |cm| == |z1| == |c1| == w * h
    requires 0 <= xStart && xEnd <= w && 0 <= y
    requires HalfRows(s0, s1, s2, upper).0 != HalfRows(s0, s1, s2, upper).1
    requires HalfRows(s0, s1, s2, upper).0 <= y <= HalfRows(s0, s1, s2, upper).1
    requires (xStart, xEnd) == HalfSpan(s0, s1, s2, upper, y)
    requires forall x, yy :: 0 <= x < w && 0 <= yy < h ==>
      if InHalf(s0, s1, s2, upper, x, yy) && yy < y then FilledAt(fill, tex, s0, s1, s2, w, tw, th, x, yy, z0, c0, zm, cm)
      else KeptAt(w, x, yy, z0, c0, zm, cm)
    requires forall x :: xStart <= x < xEnd ==> FilledAt(fill, tex, s0, s1, s2, w, tw, th, x, y, zm, cm, z1, c1)
    requires forall k :: 0 <= k < |zm| && !(y * w + xStart <= k < y * w + xEnd) ==> z1[k] == zm[k] && c1[k] == cm[k]
    ensures forall x, yy :: 0 <= x < w && 0 <= yy < h ==>
      if InHalf(s0, s1, s2, upper, x, yy) && yy < y + 1 then FilledAt(fill, tex, s0, s1, s2, w, tw, th, x, yy, z0, c0, z1, c1)
      else KeptAt(w, x, yy, z0, c0, z1, c1)
  {
    forall x, yy | 0 <= x < w && 0 <= yy < h
      ensures if InHalf(s0, s1, s2, upper, x, yy) && yy < y + 1 then FilledAt(fill, tex, s0, s1, s2, w, tw, th, x, yy, z0, c0, z1, c1)
              else KeptAt(w, x, yy, z0, c0, z1, c1)
    {
      IndexInBounds(x, yy, w, h);
      var j := yy * w + x;
      if yy == y && xStart <= x < xEnd {
        assert InHalf(s0, s1, s2, upper, x, yy);
        assert KeptAt(w, x, yy, z0, c0, zm, cm);
        assert FilledAt(fill, tex, s0, s1, s2, w, tw, th, x, yy, zm, cm, z1, c1);
      } else {
        if yy != y {
          OtherRowOutside(w, x, yy, y, xStart, xEnd);
        }
        assert z1[j] == zm[j] && c1[j] == cm[j];
        assert InHalf(s0, s1, s2, upper, x, yy) && yy < y + 1 <==> InHalf(s0, s1, s2, upper, x, yy) && yy < y;
      }
    }
  }

  /** The two halves together fill exactly the triangle; the middle row, tested twice, ends as if tested once. */
  lemma HalvesMakeTriangle(fill: Fill, tex: seq<Color>, s0: ScreenVertex, s1: ScreenVertex, s2: ScreenVertex, w: int, h: int, tw: int, th: int,
                           z0: seq<real>, c0: seq<Color>, zm: seq<real>, cm: seq<Color>, z1: seq<real>, c1: seq<Color>)
    requires HalfFilled(fill, tex, s0, s1, s2, true, w, h, tw, th, z0, c0, zm, cm)
    requires HalfFilled(fill, tex, s0, s1, s2, false, w, h, tw, th, zm, cm, z1, c1)
    ensures TriangleFilled(fill, tex, s0, s1, s2, w, h, tw, th, z0, c0, z1, c1)
  {
    forall x, y | 0 <= x < w && 0 <= y < h
      ensures if InTriangle(s0, s1, s2, x, y) then FilledAt(fill, tex, s0, s1, s2, w, tw, th, x, y, z0, c0, z1, c1)
              else KeptAt(w, x, y, z0, c0, z1, c1)
    {
      var j := y * w + x;
      if InHalf(s0, s1, s2, true, x, y) && InHalf(s0, s1, s2, false, x, y) {
        var a, b, c := Point(s0), Point(s1), Point(s2);
        DepthTestedTwice(z0[j], c0[j], zm[j], cm[j], z1[j], c1[j], Depth(a, b, c, x, y), FillColor(fill, tex, s0, s1, s2, x, y, tw, th));
      }
    }
  }

  function Min3(a: int, b: int, c: int): int { MinX(a, MinX(b, c)) }
  function Max3(a: int, b: int, c: int): int { MaxX(a, MaxX(b, c)) }

  /** Pixel (x, y) lies within the columns and rows of the three corners. */
  predicate InCornerBox(v0: ScreenVertex, v1: ScreenVertex, v2: ScreenVertex, x: int, y: int) {
    Min3(v0.x, v1.x, v2.x) <= x <= Max3(v0.x, v1.x, v2.x) && Min3(v0.y, v1.y, v2.y) <= y <= Max3(v0.y, v1.y, v2.y)
  }

  /** Every pixel of the sorted triangle lies within its corners' columns and rows. */
  lemma InTriangleWithinCorners(s0: ScreenVertex, s1: ScreenVertex, s2: ScreenVertex, x: int, y: int)
    requires s0.y <= s1.y <= s2.y && 0 <= s0.x && 0 <= s1.x && 0 <= s2.x
    requires InTriangle(s0, s1, s2, x, y)
    ensures InCornerBox(s0, s1, s2, x, y)
  {
    if InHalf(s0, s1, s2, true, x, y) {
      EdgeFromHigh(s0.x, s0.y, s1.x, s1.y, y);
    } else {
      EdgeFromLow(s1.x, s1.y, s2.x, s2.y, y);
    }
    EdgeFromLow(s0.x, s0.y, s2.x, s2.y, y);
  }

  /** Filling a sorted triangle keeps every pixel outside its corners' box. */
  lemma FilledOnlyInBox(fill: Fill, tex: seq<Color>, s0: ScreenVertex, s1: ScreenVertex, s2: ScreenVertex,
                        w: int, h: int, tw: int, th: int, z0: seq<real>, c0: seq<Color>, z1: seq<real>, c1: seq<Color>)
    requires s0.y <= s1.y <= s2.y && 0 <= s0.x && 0 <= s1.x && 0 <= s2.x
    requires TriangleFilled(fill, tex, s0, s1, s2, w, h, tw, th, z0, c0, z1, c1)
    ensures forall x, y :: 0 <= x < w && 0 <= y < h && !InCornerBox(s0, s1, s2, x, y) ==> KeptAt(w, x, y, z0, c0, z1, c1)
  {
    forall x, y | 0 <= x < w && 0 <= y < h && !InCornerBox(s0, s1, s2, x, y)
      ensures KeptAt(w, x, y, z0, c0, z1, c1)
    {
      if InTriangle(s0, s1, s2, x, y) {
        InTriangleWithinCorners(s0, s1, s2, x, y);
      }
    }
  }

  /** (s0, s1, s2) sit at the positions of one of the six orders of (v0, v1, v2). */
  predicate SamePositions(s0: ScreenVertex, s1: ScreenVertex, s2: ScreenVertex, v0: ScreenVertex, v1: ScreenVertex, v2: ScreenVertex) {
    var p0, p1, p2 := Xy(s0), Xy(s1), Xy(s2);
    var q0, q1, q2 := Xy(v0), Xy(v1), Xy(v2);
    (p0, p1, p2) == (q0, q1, q2) || (p0, p1, p2) == (q0, q2, q1) ||
    (p0, p1, p2) == (q1, q0, q2) || (p0, p1, p2) == (q1, q2, q0) ||
    (p0, p1, p2) == (q2, q0, q1) || (p0, p1, p2) == (q2, q1, q0)
  }

  /** Reordering the corners, or flipping their v, keeps their box. */
  lemma SameBox(s0: ScreenVertex, s1: ScreenVertex, s2: ScreenVertex, v0: ScreenVertex, v1: ScreenVertex, v2: ScreenVertex)
    requires SamePositions(s0, s1, s2, v0, v1, v2)
    ensures forall x, y :: InCornerBox(s0, s1, s2, x, y) == InCornerBox(v0, v1, v2, x, y)
  {
  }

  /** The exact fill implies the depth test's promise: no depth grows, and a changed pixel holds an allowed colour. */
  lemma FilledIsPainted(fill: Fill, tex: seq<Color>, s0: ScreenVertex, s1: ScreenVertex, s2: ScreenVertex,
                        w: int, h: int, tw: int, th: int, z0: seq<real>, c0: seq<Color>, z1: seq<real>, c1: seq<Color>)
    requires w > 0 && TriangleFilled(fill, tex, s0, s1, s2, w, h, tw, th, z0, c0, z1, c1)
    ensures Painted(fill, tex, z0, c0, z1, c1)
  {
    forall k | 0 <= k < |z0|
      ensures z1[k] <= z0[k] && (c1[k] == c0[k] || (z1[k] < z0[k] && Allowed(fill, tex, c1[k])))
    {
      var x, y := k % w, k / w;
      RowInRange(k, w, h);
      assert k == y * w + x;
      if InTriangle(s0, s1, s2, x, y) && fill.Textured? {
        var i := PerspectiveTexel(Point(s0), Point(s1), Point(s2), s0.uv, s1.uv, s2.uv, x, y, tw, th);
        assert tex[i] in tex;
      }
    }
  }

  /** The triangle's corners interpolate wherever it has a pixel: what `draw_triangle_pixel` needs of it. */
  ghost predicate DepthDefined(s0: ScreenVertex, s1: ScreenVertex, s2: ScreenVertex) {
    forall x, y :: InTriangle(s0, s1, s2, x, y) ==> Interpolable(Point(s0), Point(s1), Point(s2))
  }

  /** Moreover the interpolated 1/w is non-zero on every pixel: what `draw_texel_perspective_correct` divides by. */
  ghost predicate PerspectiveDefined(s0: ScreenVertex, s1: ScreenVertex, s2: ScreenVertex) {
    forall x, y :: InTriangle(s0, s1, s2, x, y) ==>
      Interpolable(Point(s0), Point(s1), Point(s2)) && ReciprocalW(Point(s0), Point(s1), Point(s2), x, y) != 0.0
  }

  /**
    `draw_filled_triangle_with_z`: sort the corners by y, then put exactly
    the pixels of both halves through the depth test with the one colour;
    nothing outside the corners' columns and rows changes.  The light
    intensity the source receives is not used by it.
  */
  method DrawFilledTriangleWithZ(canvas: Canvas, v0: ScreenVertex, v1: ScreenVertex, v2: ScreenVertex, color: Color, light: real)
    requires canvas.Valid() && canvas.colorBuffer != null
    requires OnScreen(v0, canvas.width, canvas.height) && OnScreen(v1, canvas.width, canvas.height) && OnScreen(v2, canvas.width, canvas.height)
    requires var s := SortByY(v0, v1, v2); DepthDefined(s.0, s.1, s.2)
    modifies canvas.colorBuffer, canvas.zBuffer
    ensures var s := SortByY(v0, v1, v2);
      TriangleFilled(Flat(color), [], s.0, s.1, s.2, canvas.width, canvas.height, canvas.textureWidth, canvas.textureHeight,
                     old(canvas.zBuffer[..]), old(canvas.colorBuffer[..]), canvas.zBuffer[..], canvas.colorBuffer[..])
    ensures forall x, y :: 0 <= x < canvas.width && 0 <= y < canvas.height && !InCornerBox(v0, v1, v2, x, y) ==>
      KeptAt(canvas.width, x, y, old(canvas.zBuffer[..]), old(canvas.colorBuffer[..]), canvas.zBuffer[..], canvas.colorBuffer[..])
  {
    var s := SortByY(v0, v1, v2);
    var s0, s1, s2 := s.0, s.1, s.2;
    var fill := Flat(color);
    forall x, y | InHalf(s0, s1, s2, true, x, y) || InHalf(s0, s1, s2, false, x, y)
      ensures FillUsable(fill, [], s0, s1, s2, x, y, canvas.textureWidth, canvas.textureHeight)
    {
      assert InTriangle(s0, s1, s2, x, y);
    }
    ghost var z0, c0 := canvas.zBuffer[..], canvas.colorBuffer[..];
    DrawHalf(canvas, fill, [], s0, s1, s2, true);
    ghost var zm, cm := canvas.zBuffer[..], canvas.colorBuffer[..];
    DrawHalf(canvas, fill, [], s0, s1, s2, false);
    HalvesMakeTriangle(fill, [], s0, s1, s2, canvas.width, canvas.height, canvas.textureWidth, canvas.textureHeight,
                       z0, c0, zm, cm, canvas.zBuffer[..], canvas.colorBuffer[..]);
    FilledOnlyInBox(fill, [], s0, s1, s2, canvas.width, canvas.height, canvas.textureWidth, canvas.textureHeight,
                    z0, c0, canvas.zBuffer[..], canvas.colorBuffer[..]);
    SameBox(s0, s1, s2, v0, v1, v2);
  }

  /** The sorted corners with v flipped to 1 - v, as `draw_textured_triangle` uses them. */
  function Flipped(s: ScreenVertex): (r: ScreenVertex)
    ensures Point(r) == Point(s) && r.uv == FlipV(s.uv)
  {
    s.(uv := FlipV(s.uv))
  }

  /**
    `draw_textured_triangle`: sort the corners by y carrying their
    attributes, flip v, then put exactly the pixels of both halves through
    the depth test with the lit perspective-correct texel of the flipped
    coordinates; nothing outside the corners' columns and rows changes, and
    the texture itself is not written.
  */
  method DrawTexturedTriangle(canvas: Canvas, v0: ScreenVertex, v1: ScreenVertex, v2: ScreenVertex, texture: array<Color>, light: real)
    requires canvas.Valid() && canvas.colorBuffer != null && texture != canvas.colorBuffer
    requires canvas.textureWidth > 0 && canvas.textureHeight > 0
    requires texture.Length == canvas.textureWidth * canvas.textureHeight
    requires OnScreen(v0, canvas.width, canvas.height) && OnScreen(v1, canvas.width, canvas.height) && OnScreen(v2, canvas.width, canvas.height)
    requires var s := SortByY(v0, v1, v2); PerspectiveDefined(s.0, s.1, s.2)
    modifies canvas.colorBuffer, canvas.zBuffer
    ensures texture[..] == old(texture[..])
    ensures var s := SortByY(v0, v1, v2);
      TriangleFilled(Textured(texture, light), old(texture[..]), Flipped(s.0), Flipped(s.1), Flipped(s.2),
                     canvas.width, canvas.height, canvas.textureWidth, canvas.textureHeight,
                     old(canvas.zBuffer[..]), old(canvas.colorBuffer[..]), canvas.zBuffer[..], canvas.colorBuffer[..])
    ensures forall x, y :: 0 <= x < canvas.width && 0 <= y < canvas.height && !InCornerBox(v0, v1, v2, x, y) ==>
      KeptAt(canvas.width, x, y, old(canvas.zBuffer[..]), old(canvas.colorBuffer[..]), canvas.zBuffer[..], canvas.colorBuffer[..])
  {
    var s := SortByY(v0, v1, v2);
    var s0, s1, s2 := Flipped(s.0), Flipped(s.1), Flipped(s.2);
    var fill := Textured(texture, light);
    ghost var tex := texture[..];
    forall x, y | InHalf(s0, s1, s2, true, x, y) || InHalf(s0, s1, s2, false, x, y)
      ensures FillUsable(fill, tex, s0, s1, s2, x, y, canvas.textureWidth, canvas.textureHeight)
    {
      assert InTriangle(s.0, s.1, s.2, x, y);
    }
    ghost var z0, c0 := canvas.zBuffer[..], canvas.colorBuffer[..];
    DrawHalf(canvas, fill, tex, s0, s1, s2, true);
    ghost var zm, cm := canvas.zBuffer[..], canvas.colorBuffer[..];
    DrawHalf(canvas, fill, tex, s0, s1, s2, false);
    HalvesMakeTriangle(fill, tex, s0, s1, s2, canvas.width, canvas.height, canvas.textureWidth, canvas.textureHeight,
                       z0, c0, zm, cm, canvas.zBuffer[..], canvas.colorBuffer[..]);
    FilledOnlyInBox(fill, tex, s0, s1, s2, canvas.width, canvas.height, canvas.textureWidth, canvas.textureHeight,
                    z0, c0, canvas.zBuffer[..], canvas.colorBuffer[..]);
    SameBox(s0, s1, s2, v0, v1, v2);
  }

  /** Flipping v moves no corner, so the triangle covers the same pixels. */
  lemma FlippedSamePixels(s0: ScreenVertex, s1: ScreenVertex, s2: ScreenVertex, x: int, y: int)
    ensures InTriangle(Flipped(s0), Flipped(s1), Flipped(s2), x, y) == InTriangle(s0, s1, s2, x, y)
  {
    assert Flipped(s0).x == s0.x && Flipped(s0).y == s0.y;
    assert Flipped(s1).x == s1.x && Flipped(s1).y == s1.y;
    assert Flipped(s2).x == s2.x && Flipped(s2).y == s2.y;
  }

  /** A pixel textured from a one-texel texture is a pixel filled with that texel's lit colour. */
  lemma OneTexelPixel(color: Color, light: real, texture: array<Color>, s0: ScreenVertex, s1: ScreenVertex, s2: ScreenVertex,
                      w: int, tw: int, th: int, x: int, y: int, z0: seq<real>, c0: seq<Color>, z1: seq<real>, c1: seq<Color>)
    requires FilledAt(Textured(texture, light), [color], Flipped(s0), Flipped(s1), Flipped(s2), w, 1, 1, x, y, z0, c0, z1, c1)
    ensures FilledAt(Flat(UpdateColorIntensity(color, light)), [], s0, s1, s2, w, tw, th, x, y, z0, c0, z1, c1)
  {
    var t0, t1, t2 := Flipped(s0), Flipped(s1), Flipped(s2);
    assert Point(t0) == Point(s0) && Point(t1) == Point(s1) && Point(t2) == Point(s2);
    var i := PerspectiveTexel(Point(t0), Point(t1), Point(t2), t0.uv, t1.uv, t2.uv, x, y, 1, 1);
    assert i == 0;
    assert FillColor(Textured(texture, light), [color], t0, t1, t2, x, y, 1, 1) == UpdateColorIntensity(color, light);
  }

  /** Filling with the lit texels of a one-texel texture is filling with that texel's lit colour; v does not matter then. */
  lemma OneTexelIsFlat(color: Color, light: real, texture: array<Color>, s0: ScreenVertex, s1: ScreenVertex, s2: ScreenVertex,
                       w: int, h: int, tw: int, th: int, z0: seq<real>, c0: seq<Color>, z1: seq<real>, c1: seq<Color>)
    requires TriangleFilled(Textured(texture, light), [color], Flipped(s0), Flipped(s1), Flipped(s2), w, h, 1, 1, z0, c0, z1, c1)
    ensures TriangleFilled(Flat(UpdateColorIntensity(color, light)), [], s0, s1, s2, w, h, tw, th, z0, c0, z1, c1)
  {
    forall x, y | 0 <= x < w && 0 <= y < h
      ensures if InTriangle(s0, s1, s2, x, y) then FilledAt(Flat(UpdateColorIntensity(color, light)), [], s0, s1, s2, w, tw, th, x, y, z0, c0, z1, c1)
              else KeptAt(w, x, y, z0, c0, z1, c1)
    {
      FlippedSamePixels(s0, s1, s2, x, y);
      if InTriangle(s0, s1, s2, x, y) {
        OneTexelPixel(color, light, texture, s0, s1, s2, w, tw, th, x, y, z0, c0, z1, c1);
      }
    }
  }

  /**
    `draw_filled_triangle_with_z_buffer_hacky`: a textured triangle whose
    texture is the one colour, with the texture size set to 1 x 1 for the
    call and then restored.  Exactly the triangle's pixels go through the
    depth test with the lit colour.
  */
  method DrawFilledTriangleWithZBufferHacky(canvas: Canvas, v0: ScreenVertex, v1: ScreenVertex, v2: ScreenVertex, color: Color, light: real)
    requires canvas.Valid() && canvas.colorBuffer != null
    requires OnScreen(v0, canvas.width, canvas.height) && OnScreen(v1, canvas.width, canvas.height) && OnScreen(v2, canvas.width, canvas.height)
    requires var s := SortByY(v0, v1, v2); PerspectiveDefined(s.0, s.1, s.2)
    modifies canvas, canvas.colorBuffer, canvas.zBuffer
    ensures canvas.Valid()
    ensures canvas.textureWidth == old(canvas.textureWidth) && canvas.textureHeight == old(canvas.textureHeight)
    ensures canvas.width == old(canvas.width) && canvas.height == old(canvas.height)
    ensures canvas.colorBuffer == old(canvas.colorBuffer) && canvas.zBuffer == old(canvas.zBuffer)
    ensures var s := SortByY(v0, v1, v2);
      TriangleFilled(Flat(UpdateColorIntensity(color, light)), [], s.0, s.1, s.2,
                     canvas.width, canvas.height, canvas.textureWidth, canvas.textureHeight,
                     old(canvas.zBuffer[..]), old(canvas.colorBuffer[..]), canvas.zBuffer[..], canvas.colorBuffer[..])
  {
    var tw, th := canvas.textureWidth, canvas.textureHeight;
    canvas.textureWidth, canvas.textureHeight := 1, 1;
    var texture := new Color[1](_ => color);
    assert texture[..] == [color];
    DrawTexturedTriangle(canvas, v0, v1, v2, texture, light);
    canvas.textureWidth, canvas.textureHeight := tw, th;
    var s := SortByY(v0, v1, v2);
    OneTexelIsFlat(color, light, texture, s.0, s.1, s.2, canvas.width, canvas.height, tw, th,
                   old(canvas.zBuffer[..]), old(canvas.colorBuffer[..]), canvas.zBuffer[..], canvas.colorBuffer[..]);
  }

  /** `mx = (float)((x2 - x0) * (y1 - y0)) / (float)(y2 - y0) + x0`: the split point of `draw_filled_triangle`. */
  function SplitX(x0: int, y0: int, x2: int, y1: int, y2: int): (mx: int)
    requires y0 != y2
    ensures y1 == y0 ==> mx == x0
    ensures y1 == y2 ==> mx == x2
  {
    SplitAtEnds(x0, y0, x2, y1, y2);
    Trunc(x0 as real + ((x2 - x0) * (y1 - y0)) as real / (y2 - y0) as real)
  }

  /** At the rows of the long edge's ends, the split point is that end. */
  lemma SplitAtEnds(x0: int, y0: int, x2: int, y1: int, y2: int)
    requires y0 != y2
    ensures y1 == y0 ==> Trunc(x0 as real + ((x2 - x0) * (y1 - y0)) as real / (y2 - y0) as real) == x0
    ensures y1 == y2 ==> Trunc(x0 as real + ((x2 - x0) * (y1 - y0)) as real / (y2 - y0) as real) == x2
  {
    if y1 == y0 {
      assert (x2 - x0) * (y1 - y0) == 0;
      TruncOfInt(x0);
    } else if y1 == y2 {
      CancelDivisor(x2 - x0, y2 - y0);
      TruncOfInt(x2);
    }
  }

  lemma TruncOfInt(n: int)
    ensures Trunc(n as real) == n
  {
  }

  lemma CancelDivisor(n: int, d: int)
    requires d != 0
    ensures (n * d) as real / d as real == n as real
  {
    assert (n * d) as real == n as real * d as real;
  }

  lemma ProductOverDiv(n: real, m: real, d: real)
    requires d != 0.0
    ensures (m * n) / d == n * (m / d)
  {
    assert (m * n) / d * d == m * n;
    assert n * (m / d) * d == n * m;
  }

  lemma SplitQuotient(dx: int, dy: int, d: int)
    requires d != 0
    ensures (dx * dy) as real / d as real == dy as real * (dx as real / d as real)
  {
    assert (dx * dy) as real == dx as real * dy as real;
    ProductOverDiv(dy as real, dx as real, d as real);
  }

  /**
    Computed product-first, the split point is still exactly the column
    where the long edge s0-s2 crosses the middle row y1, as the scanline
    walk from s0 computes it.
  */
  lemma SplitOnLongEdge(x0: int, y0: int, x2: int, y1: int, y2: int)
    requires y0 < y2
    ensures SplitX(x0, y0, x2, y1, y2) == EdgeX(x0, y0, Slope(x2 - x0, y2 - y0), y1)
  {
    SlopeOfRising(x2 - x0, y2 - y0);
    SplitQuotient(x2 - x0, y1 - y0, y2 - y0);
  }

  /** Hence the split point lies between x0 and x2 (for y0 <= y1 <= y2, y0 < y2). */
  lemma SplitBetweenEnds(x0: int, y0: int, x2: int, y1: int, y2: int)
    requires y0 <= y1 <= y2 && y0 < y2 && 0 <= x0 && 0 <= x2
    ensures MinX(x0, x2) <= SplitX(x0, y0, x2, y1, y2) <= MaxX(x0, x2)
  {
    SplitOnLongEdge(x0, y0, x2, y1, y2);
    EdgeFromLow(x0, y0, x2, y2, y1);
  }
}
