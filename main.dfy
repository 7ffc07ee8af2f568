/*
  The per-frame logic of `update` in src/main.c: every face of the mesh is
  fetched, rotated about x, y and z and pushed 5 units away, optionally
  dropped by back-face culling, projected and centred on the screen; then
  the list of projected triangles is sorted by average depth with the
  nested compare-and-swap loop.  Sine, cosine and square root are
  parameters.
*/
module Frame {
  import opened Vector
  import opened Color
  import opened Mesh
  import opened Config

  /** A triangle ready for the screen: three projected points, a colour and its average depth. */
  datatype ProjectedTriangle = ProjectedTriangle(a: Vec2, b: Vec2, c: Vec2, color: Color, avgDepth: real)

  const FovFactor: real := 640.0

  /** How far each vertex is pushed away from the camera. */
  const CameraDistance: real := 5.0

  /** The camera sits at the origin. */
  const Camera: Vec3 := Vec3(0.0, 0.0, 0.0)

  /** The rotation step `update` adds about each axis every frame. */
  const Spin: real := 0.01

  // ---------------------------------------------------------------------------
  // Sorting by depth
  // ---------------------------------------------------------------------------

  predicate SortedBetween(s: seq<ProjectedTriangle>, lo: int, hi: int)
    requires 0 <= lo <= hi <= |s|
  {
    forall a, b :: lo <= a < b < hi ==> s[a].avgDepth <= s[b].avgDepth
  }

  predicate SortedByDepth(s: seq<ProjectedTriangle>) {
    SortedBetween(s, 0, |s|)
  }

  predicate NoneDeeper(s: seq<ProjectedTriangle>, lo: int, hi: int, d: real)
    requires 0 <= lo <= hi <= |s|
  {
    forall k :: lo <= k < hi ==> s[k].avgDepth <= d
  }

  /** One compare-and-swap of the inner loop: entries i and j change places when s[i] is shallower. */
  function Exchange(s: seq<ProjectedTriangle>, i: int, j: int): (r: seq<ProjectedTriangle>)
    requires 0 <= i < |s| && 0 <= j < |s|
    ensures |r| == |s| && multiset(r) == multiset(s)
    ensures r[i].avgDepth >= s[i].avgDepth && r[i].avgDepth >= s[j].avgDepth
    ensures forall k :: 0 <= k < |s| && k != i && k != j ==> r[k] == s[k]
    ensures s[i].avgDepth < s[j].avgDepth ==> r[i] == s[j] && r[j] == s[i]
    ensures s[i].avgDepth >= s[j].avgDepth ==> r == s
  {
    if s[i].avgDepth < s[j].avgDepth then s[i := s[j]][j := s[i]] else s
  }

  /**
    Pass i, before column i: the columns passed are sorted, the rest of
    0 .. i is still sorted and no smaller than them, entry i is no smaller
    than the columns passed, and the deepest entry of all sits at i - 1
    (or, once j reaches i, at i).
  */
  ghost predicate Inserting(r: seq<ProjectedTriangle>, i: int, j: int)
    requires 1 <= i < |r| && 0 <= j <= i
  {
    SortedBetween(r, 0, j) && SortedBetween(r, j, i) && NoneDeeper(r, 0, j, r[i].avgDepth) &&
    (forall k, l :: 0 <= k < j <= l < i ==> r[k].avgDepth <= r[l].avgDepth) &&
    NoneDeeper(r, 0, |r|, if j < i then r[i - 1].avgDepth else r[i].avgDepth)
  }

  /** After pass i: 0 .. i is sorted and entry i is the deepest of all. */
  ghost predicate Settled(r: seq<ProjectedTriangle>, i: int)
    requires 0 <= i < |r|
  {
    SortedBetween(r, 0, i + 1) && NoneDeeper(r, 0, |r|, r[i].avgDepth)
  }

  lemma InsertStep(r: seq<ProjectedTriangle>, i: int, j: int)
    requires 1 <= i < |r| && 0 <= j < i && Inserting(r, i, j)
    ensures Inserting(Exchange(r, i, j), i, j + 1)
  {
    var r' := Exchange(r, i, j);
    if r[i].avgDepth < r[j].avgDepth {
      assert r'[j] == r[i] && r'[i] == r[j];
      assert forall k :: 0 <= k < |r| && k != i && k != j ==> r'[k] == r[k];
      assert SortedBetween(r', 0, j + 1);
      assert NoneDeeper(r', 0, j + 1, r'[i].avgDepth);
      if j + 1 < i {
        assert r'[i - 1] == r[i - 1];
      }
    }
  }

  lemma InsertDone(r: seq<ProjectedTriangle>, i: int)
    requires 1 <= i < |r| && Inserting(r, i, i)
    ensures Settled(r, i)
  {
  }

  lemma SettledStep(r: seq<ProjectedTriangle>, i: int, j: int)
    requires 0 <= i < |r| && 0 <= j < |r| && Settled(r, i)
    ensures Exchange(r, i, j) == r
  {
  }

  lemma MaxStep(r: seq<ProjectedTriangle>, j: int)
    requires 0 <= j < |r| && NoneDeeper(r, 0, j, r[0].avgDepth)
    ensures NoneDeeper(Exchange(r, 0, j), 0, j + 1, Exchange(r, 0, j)[0].avgDepth)
  {
  }

  /**
    The inner loop `for (j = 0; j < n; ++j)` for one i: pass 0 carries the
    deepest entry to slot 0; pass i >= 1 inserts entry i into the sorted
    0 .. i - 1 and ends with the deepest entry at i.
  */
  method ExchangePass(r0: seq<ProjectedTriangle>, i: int) returns (r: seq<ProjectedTriangle>)
    requires 0 <= i < |r0|
    requires i >= 1 ==> SortedBetween(r0, 0, i) && NoneDeeper(r0, 0, |r0|, r0[i - 1].avgDepth)
    ensures |r| == |r0| && multiset(r) == multiset(r0)
    ensures SortedBetween(r, 0, i + 1) && NoneDeeper(r, 0, |r|, r[i].avgDepth)
  {
    var n := |r0|;
    r := r0;
    var j := 0;
    while j < n
      invariant 0 <= j <= n && |r| == n && multiset(r) == multiset(r0)
      invariant 1 <= i && j <= i ==> Inserting(r, i, j)
      invariant 1 <= i < j ==> Settled(r, i)
      invariant i == 0 ==> NoneDeeper(r, 0, j, r[0].avgDepth)
    {
      if 1 <= i && j < i {
        InsertStep(r, i, j);
      } else if 1 <= i {
        if j == i {
          InsertDone(r, i);
        }
        SettledStep(r, i, j);
      } else {
        MaxStep(r, j);
      }
      if r[i].avgDepth < r[j].avgDepth {
        r := r[i := r[j]][j := r[i]];
      }
      j := j + 1;
    }
    if 1 <= i && n == i {
      InsertDone(r, i);
    }
  }

  /**
    The nested loop at the end of `update`: for every i and every j, swap
    when entry i is shallower than entry j.  The result is ordered by
    non-decreasing average depth and holds exactly the triangles given.
  */
  method SortByDepth(ts: seq<ProjectedTriangle>) returns (r: seq<ProjectedTriangle>)
    ensures SortedByDepth(r) && multiset(r) == multiset(ts)
  {
    r := ts;
    var n := |r|;
    var i := 0;
    while i < n
      invariant 0 <= i <= n && |r| == n && multiset(r) == multiset(ts)
      invariant i >= 1 ==> SortedBetween(r, 0, i) && NoneDeeper(r, 0, n, r[i - 1].avgDepth)
    {
      r := ExchangePass(r, i);
      i := i + 1;
    }
  }

  // ---------------------------------------------------------------------------
  // Transform, cull, project
  // ---------------------------------------------------------------------------

  /** The sines and cosines of the three rotation angles. */
  datatype Trig = Trig(sx: real, cx: real, sy: real, cy: real, sz: real, cz: real)

  function TrigOf(rotation: Vec3, sin: real -> real, cos: real -> real): Trig {
    Trig(sin(rotation.x), cos(rotation.x), sin(rotation.y), cos(rotation.y), sin(rotation.z), cos(rotation.z))
  }

  /** Each (sine, cosine) pair lies on the unit circle, as true sines and cosines do. */
  predicate UnitPairs(t: Trig) {
    t.sx * t.sx + t.cx * t.cx == 1.0 && t.sy * t.sy + t.cy * t.cy == 1.0 && t.sz * t.sz + t.cz * t.cz == 1.0
  }

  /**
    One vertex of `update`: rotated about x, then y, then z, then moved 5
    away from the camera.  With true sines and cosines the vertex keeps its
    distance from the mesh centre, which ends up at (0, 0, 5).
  */
  function Transform(v: Vec3, t: Trig): (r: Vec3)
    ensures UnitPairs(t) ==> Vec3Dot(Vec3Sub(r, Vec3(0.0, 0.0, CameraDistance)), Vec3Sub(r, Vec3(0.0, 0.0, CameraDistance))) == Vec3Dot(v, v)
  {
    var p := RotateZ(RotateY(RotateX(v, t.sx, t.cx), t.sy, t.cy), t.sz, t.cz);
    assert Vec3Sub(Vec3(p.x, p.y, p.z + CameraDistance), Vec3(0.0, 0.0, CameraDistance)) == p;
    Vec3(p.x, p.y, p.z + CameraDistance)
  }

  /** `project`: the perspective divide by z, scaled by the field-of-view factor. */
  function Project(p: Vec3): (r: Vec2)
    requires p.z != 0.0
    ensures r.x * p.z == FovFactor * p.x && r.y * p.z == FovFactor * p.y
  {
    Vec2((FovFactor * p.x) / p.z, (FovFactor * p.y) / p.z)
  }

  /** The shift to the middle of the window: `+= win_width / 2.0`, `+= win_height / 2.0`. */
  function ToScreen(p: Vec2, w: int, h: int): (r: Vec2)
    ensures r == Vec2(w as real / 2.0, h as real / 2.0) <==> p == Vec2(0.0, 0.0)
    ensures Vec2Sub(r, Vec2(w as real / 2.0, h as real / 2.0)) == p
  {
    Vec2(p.x + w as real / 2.0, p.y + h as real / 2.0)
  }

  /** A point straight ahead of the camera lands in the middle of the window. */
  lemma AheadLandsInMiddle(z: real, w: int, h: int)
    requires z != 0.0
    ensures ToScreen(Project(Vec3(0.0, 0.0, z)), w, h) == Vec2(w as real / 2.0, h as real / 2.0)
  {
  }

  /** Scaling a point's x and y with its z leaves its projection unchanged. */
  lemma {:induction false} ProjectAlongRay(p: Vec3, s: real)
    requires p.z != 0.0 && s != 0.0
    ensures Project(Vec3(s * p.x, s * p.y, s * p.z)) == Project(p)
  {
    var q := Vec3(s * p.x, s * p.y, s * p.z);
    QuotientScaled(FovFactor * p.x, p.z, s);
    QuotientScaled(FovFactor * p.y, p.z, s);
    assert FovFactor * q.x == s * (FovFactor * p.x);
    assert FovFactor * q.y == s * (FovFactor * p.y);
  }

  lemma QuotientScaled(n: real, d: real, s: real)
    requires d != 0.0 && s != 0.0
    ensures (s * n) / (s * d) == n / d
  {
    assert (n / d) * (s * d) == s * n;
  }

  /** `avg_depth`: the mean z of the three transformed vertices, between the smallest and the largest. */
  function AvgDepth(a: Vec3, b: Vec3, c: Vec3): (d: real)
    ensures (d <= a.z || d <= b.z || d <= c.z) && (d >= a.z || d >= b.z || d >= c.z)
    ensures a.z == b.z == c.z ==> d == a.z
  {
    (a.z + b.z + c.z) / 3.0
  }

  /** The three normalisations of the culling test divide by non-zero lengths. */
  predicate Cullable(a: Vec3, b: Vec3, c: Vec3, sqrt: real -> real) {
    var ab, ac := Vec3Sub(b, a), Vec3Sub(c, a);
    Vec3Length(ab, sqrt) > 0.0 && Vec3Length(ac, sqrt) > 0.0 &&
    Vec3Length(Vec3Cross(Vec3Normalized(ab, sqrt), Vec3Normalized(ac, sqrt)), sqrt) > 0.0
  }

  /**
    The culling test of `update`: the normalised normal of the normalised
    edges AB and AC, dotted with the ray from A to the camera, is negative.
  */
  predicate FacesAway(a: Vec3, b: Vec3, c: Vec3, sqrt: real -> real)
    requires Cullable(a, b, c, sqrt)
  {
    var ab, ac := Vec3Normalized(Vec3Sub(b, a), sqrt), Vec3Normalized(Vec3Sub(c, a), sqrt);
    var normal := Vec3Normalized(Vec3Cross(ab, ac), sqrt);
    Vec3Dot(normal, Vec3Sub(Camera, a)) < 0.0
  }

  /** v / k, component by component. */
  function Shrink(v: Vec3, k: real): Vec3
    requires k != 0.0
  {
    Vec3(v.x / k, v.y / k, v.z / k)
  }

  lemma QuotientProduct(p: real, q: real, s: real, t: real)
    requires s != 0.0 && t != 0.0
    ensures (p / s) * (q / t) == (p * q) / (s * t)
  {
    assert (p / s) * s == p && (q / t) * t == q;
    assert (p / s) * (q / t) * (s * t) == ((p / s) * s) * ((q / t) * t);
  }

  lemma QuotientDifference(p: real, q: real, k: real)
    requires k != 0.0
    ensures p / k - q / k == (p - q) / k
  {
  }

  lemma CrossOfShrunk(u: Vec3, v: Vec3, s: real, t: real)
    requires s != 0.0 && t != 0.0
    ensures Vec3Cross(Shrink(u, s), Shrink(v, t)) == Shrink(Vec3Cross(u, v), s * t)
  {
    QuotientProduct(u.y, v.z, s, t);
    QuotientProduct(u.z, v.y, s, t);
    QuotientProduct(u.z, v.x, s, t);
    QuotientProduct(u.x, v.z, s, t);
    QuotientProduct(u.x, v.y, s, t);
    QuotientProduct(u.y, v.x, s, t);
    QuotientDifference(u.y * v.z, u.z * v.y, s * t);
    QuotientDifference(u.z * v.x, u.x * v.z, s * t);
    QuotientDifference(u.x * v.y, u.y * v.x, s * t);
  }

  lemma ShrinkTwice(v: Vec3, k: real, l: real)
    requires k != 0.0 && l != 0.0
    ensures Shrink(Shrink(v, k), l) == Shrink(v, k * l)
  {
    assert (v.x / k) / l == v.x / (k * l);
    assert (v.y / k) / l == v.y / (k * l);
    assert (v.z / k) / l == v.z / (k * l);
  }

  lemma DotOfShrunk(v: Vec3, r: Vec3, m: real)
    requires m != 0.0
    ensures Vec3Dot(Shrink(v, m), r) == Vec3Dot(v, r) / m
  {
    assert (v.x / m) * r.x == (v.x * r.x) / m;
    assert (v.y / m) * r.y == (v.y * r.y) / m;
    assert (v.z / m) * r.z == (v.z * r.z) / m;
  }

  lemma SignOfQuotient(x: real, m: real)
    requires m > 0.0
    ensures x / m < 0.0 <==> x < 0.0
  {
    assert (x / m) * m == x;
    if x / m < 0.0 {
      assert (x / m) * m < 0.0;
    }
  }

  lemma ProductPositive(a: real, b: real)
    requires a > 0.0 && b > 0.0
    ensures a * b > 0.0
  {
  }

  /**
    The normalisations only scale by positive lengths, so the culling test
    is the sign of the plain (AB x AC) . (camera - A).
  */
  lemma FacesAwayIsPlainSign(a: Vec3, b: Vec3, c: Vec3, sqrt: real -> real)
    requires Cullable(a, b, c, sqrt)
    ensures FacesAway(a, b, c, sqrt) <==>
      Vec3Dot(Vec3Cross(Vec3Sub(b, a), Vec3Sub(c, a)), Vec3Sub(Camera, a)) < 0.0
  {
    var ab, ac := Vec3Sub(b, a), Vec3Sub(c, a);
    var l1, l2 := Vec3Length(ab, sqrt), Vec3Length(ac, sqrt);
    assert Vec3Normalized(ab, sqrt) == Shrink(ab, l1);
    assert Vec3Normalized(ac, sqrt) == Shrink(ac, l2);
    CrossOfShrunk(ab, ac, l1, l2);
    var cr := Vec3Cross(ab, ac);
    var n := Vec3Cross(Vec3Normalized(ab, sqrt), Vec3Normalized(ac, sqrt));
    assert n == Shrink(cr, l1 * l2);
    var l3 := Vec3Length(n, sqrt);
    var k := l1 * l2;
    var normal := Vec3Normalized(n, sqrt);
    assert normal == Shrink(n, l3);
    ProductPositive(l1, l2);
    ShrinkTwice(cr, k, l3);
    ProductPositive(k, l3);
    var m := k * l3;
    assert normal == Shrink(cr, m);
    var ray := Vec3Sub(Camera, a);
    DotOfShrunk(cr, ray, m);
    SignOfQuotient(Vec3Dot(cr, ray), m);
  }

  // ---------------------------------------------------------------------------
  // The face loop
  // ---------------------------------------------------------------------------

  /** What `update` needs of one face: indices into the vertex list, vertices in front of the camera's plane, a cullable shape. */
  predicate FaceReady(vertices: seq<Vec3>, f: Face, t: Trig, culling: bool, sqrt: real -> real) {
    IndicesWithin(f, |vertices|) &&
    var a, b, c := Transform(vertices[f.a - 1], t), Transform(vertices[f.b - 1], t), Transform(vertices[f.c - 1], t);
    a.z != 0.0 && b.z != 0.0 && c.z != 0.0 && (culling ==> Cullable(a, b, c, sqrt))
  }

  predicate FrameReady(vertices: seq<Vec3>, faces: seq<Face>, t: Trig, culling: bool, sqrt: real -> real) {
    forall k :: 0 <= k < |faces| ==> FaceReady(vertices, faces[k], t, culling, sqrt)
  }

  /** Culling is on and the face is turned away from the camera. */
  predicate Dropped(vertices: seq<Vec3>, f: Face, t: Trig, culling: bool, sqrt: real -> real)
    requires FaceReady(vertices, f, t, culling, sqrt)
  {
    culling && FacesAway(Transform(vertices[f.a - 1], t), Transform(vertices[f.b - 1], t), Transform(vertices[f.c - 1], t), sqrt)
  }

  /** The triangle `update` pushes for a face it keeps. */
  function FaceTriangle(vertices: seq<Vec3>, f: Face, t: Trig, culling: bool, sqrt: real -> real, w: int, h: int): (tri: ProjectedTriangle)
    requires FaceReady(vertices, f, t, culling, sqrt)
    ensures tri.color == f.color
  {
    var a, b, c := Transform(vertices[f.a - 1], t), Transform(vertices[f.b - 1], t), Transform(vertices[f.c - 1], t);
    ProjectedTriangle(ToScreen(Project(a), w, h), ToScreen(Project(b), w, h), ToScreen(Project(c), w, h), f.color, AvgDepth(a, b, c))
  }

  /** The triangles the face loop pushes, in face order. */
  function Visible(vertices: seq<Vec3>, faces: seq<Face>, t: Trig, culling: bool, sqrt: real -> real, w: int, h: int): seq<ProjectedTriangle>
    requires FrameReady(vertices, faces, t, culling, sqrt)
  {
    if |faces| == 0 then []
    else
      var p, f := faces[..|faces| - 1], faces[|faces| - 1];
      assert FrameReady(vertices, p, t, culling, sqrt);
      Visible(vertices, p, t, culling, sqrt, w, h) +
        if Dropped(vertices, f, t, culling, sqrt) then [] else [FaceTriangle(vertices, f, t, culling, sqrt, w, h)]
  }

  /** The number of faces culling drops. */
  function DroppedCount(vertices: seq<Vec3>, faces: seq<Face>, t: Trig, culling: bool, sqrt: real -> real): nat
    requires FrameReady(vertices, faces, t, culling, sqrt)
  {
    if |faces| == 0 then 0
    else
      var p := faces[..|faces| - 1];
      assert FrameReady(vertices, p, t, culling, sqrt);
      DroppedCount(vertices, p, t, culling, sqrt) + if Dropped(vertices, faces[|faces| - 1], t, culling, sqrt) then 1 else 0
  }

  /**
    At most one triangle per face: every face is pushed except the ones
    culling drops, and with culling off every face is pushed.
  */
  lemma {:induction false} OneTrianglePerKeptFace(vertices: seq<Vec3>, faces: seq<Face>, t: Trig, culling: bool, sqrt: real -> real, w: int, h: int)
    requires FrameReady(vertices, faces, t, culling, sqrt)
    ensures |Visible(vertices, faces, t, culling, sqrt, w, h)| + DroppedCount(vertices, faces, t, culling, sqrt) == |faces|
    ensures !culling ==> DroppedCount(vertices, faces, t, culling, sqrt) == 0
  {
    if |faces| > 0 {
      var p := faces[..|faces| - 1];
      assert FrameReady(vertices, p, t, culling, sqrt);
      OneTrianglePerKeptFace(vertices, p, t, culling, sqrt, w, h);
    }
  }

  /** tri is the projection of some face that culling keeps. */
  predicate FromKeptFace(vertices: seq<Vec3>, faces: seq<Face>, t: Trig, culling: bool, sqrt: real -> real, w: int, h: int,
                         tri: ProjectedTriangle)
    requires FrameReady(vertices, faces, t, culling, sqrt)
  {
    exists k :: 0 <= k < |faces| && !Dropped(vertices, faces[k], t, culling, sqrt) &&
      tri == FaceTriangle(vertices, faces[k], t, culling, sqrt, w, h)
  }

  /** Every pushed triangle is the projection of a face that was not dropped. */
  lemma {:induction false} VisibleFromKeptFaces(vertices: seq<Vec3>, faces: seq<Face>, t: Trig, culling: bool, sqrt: real -> real, w: int, h: int)
    requires FrameReady(vertices, faces, t, culling, sqrt)
    ensures forall tri :: tri in Visible(vertices, faces, t, culling, sqrt, w, h) ==>
      FromKeptFace(vertices, faces, t, culling, sqrt, w, h, tri)
  {
    if |faces| > 0 {
      var p := faces[..|faces| - 1];
      assert FrameReady(vertices, p, t, culling, sqrt);
      VisibleFromKeptFaces(vertices, p, t, culling, sqrt, w, h);
      forall tri | tri in Visible(vertices, faces, t, culling, sqrt, w, h)
        ensures FromKeptFace(vertices, faces, t, culling, sqrt, w, h, tri)
      {
        if tri in Visible(vertices, p, t, culling, sqrt, w, h) {
          var k :| 0 <= k < |p| && !Dropped(vertices, p[k], t, culling, sqrt) &&
            tri == FaceTriangle(vertices, p[k], t, culling, sqrt, w, h);
          assert faces[k] == p[k];
        } else {
          assert !Dropped(vertices, faces[|faces| - 1], t, culling, sqrt);
          assert tri == FaceTriangle(vertices, faces[|faces| - 1], t, culling, sqrt, w, h);
        }
      }
    }
  }

  /**
    The face loop of `update`: fetch the three vertices at index - 1,
    transform them, skip the face when culling drops it, otherwise project,
    centre and push one triangle.
  */
  method ProjectFaces(vertices: seq<Vec3>, faces: seq<Face>, t: Trig, culling: bool, sqrt: real -> real, w: int, h: int)
    returns (tris: seq<ProjectedTriangle>)
    requires FrameReady(vertices, faces, t, culling, sqrt)
    ensures tris == Visible(vertices, faces, t, culling, sqrt, w, h)
  {
    tris := [];
    var i := 0;
    while i < |faces|
      invariant 0 <= i <= |faces|
      invariant tris == Visible(vertices, faces[..i], t, culling, sqrt, w, h)
    {
      var f := faces[i];
      VisibleStep(vertices, faces, i, t, culling, sqrt, w, h);
      var a := Transform(vertices[f.a - 1], t);
      var b := Transform(vertices[f.b - 1], t);
      var c := Transform(vertices[f.c - 1], t);
      if culling && FacesAway(a, b, c, sqrt) {
        i := i + 1;
        continue;
      }
      tris := tris + [ProjectedTriangle(ToScreen(Project(a), w, h), ToScreen(Project(b), w, h), ToScreen(Project(c), w, h),
                                         f.color, AvgDepth(a, b, c))];
      i := i + 1;
    }
    assert faces[..|faces|] == faces;
  }

  /** One more face of the loop: the prefix grows by face i's triangle unless culling drops it. */
  lemma VisibleStep(vertices: seq<Vec3>, faces: seq<Face>, i: int, t: Trig, culling: bool, sqrt: real -> real, w: int, h: int)
    requires FrameReady(vertices, faces, t, culling, sqrt) && 0 <= i < |faces|
    ensures FrameReady(vertices, faces[..i], t, culling, sqrt) && FaceReady(vertices, faces[i], t, culling, sqrt)
    ensures Visible(vertices, faces[..i + 1], t, culling, sqrt, w, h) ==
      Visible(vertices, faces[..i], t, culling, sqrt, w, h) +
        if Dropped(vertices, faces[i], t, culling, sqrt) then [] else [FaceTriangle(vertices, faces[i], t, culling, sqrt, w, h)]
  {
    assert faces[..i + 1][..i] == faces[..i] && faces[..i + 1][i] == faces[i];
  }

  /**
    `update` (after the frame delay): advance the rotation, project the
    faces under the current culling mode, and sort the triangles by depth.
  */
  method Update(mesh: MeshData, config: DrawConfig, sin: real -> real, cos: real -> real, sqrt: real -> real, w: int, h: int)
    returns (tris: seq<ProjectedTriangle>)
    requires FrameReady(mesh.vertices, mesh.faces, TrigOf(Vec3Add(mesh.rotation, Vec3(Spin, Spin, Spin)), sin, cos),
                        Has(config.bits, BackFaceCulled), sqrt)
    modifies mesh
    ensures mesh.rotation == Vec3Add(old(mesh.rotation), Vec3(Spin, Spin, Spin))
    ensures mesh.vertices == old(mesh.vertices) && mesh.faces == old(mesh.faces)
    ensures SortedByDepth(tris)
    ensures multiset(tris) == multiset(Visible(mesh.vertices, mesh.faces, TrigOf(mesh.rotation, sin, cos),
                                               Has(config.bits, BackFaceCulled), sqrt, w, h))
  {
    mesh.rotation := Vec3(mesh.rotation.x + Spin, mesh.rotation.y + Spin, mesh.rotation.z + Spin);
    var culling := config.IsEnabled(BackFaceCulled);
    tris := ProjectFaces(mesh.vertices, mesh.faces, TrigOf(mesh.rotation, sin, cos), culling, sqrt, w, h);
    tris := SortByDepth(tris);
  }
}
