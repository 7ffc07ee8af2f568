/*
  Frustum planes, Sutherland-Hodgman polygon clipping and fan
  triangulation (src/clipping.c).  A polygon is two parallel fixed-size
  arrays (positions and texture coordinates) plus a vertex count that the
  clipper rewrites in place.
*/
module Clipping {
  import opened Vector

  /** Capacity of a polygon's vertex arrays (declared in clipping.h, taken as 10). */
  const MaxVertices: int := 10

  /** Plane indices, in the order `clip_polygon` applies them. */
  const LeftPlane: int := 0
  const RightPlane: int := 1
  const TopPlane: int := 2
  const BottomPlane: int := 3
  const NearPlane: int := 4
  const FarPlane: int := 5

  datatype Plane = Plane(point: Vec3, normal: Vec3)

  /** One polygon corner: a position with its texture coordinate. */
  datatype ClipVertex = ClipVertex(pos: Vec3, uv: Tex2)

  /** The corners of a triangle handed to the rasteriser, with its other attributes. */
  datatype Triangle = Triangle(a: Vec4, b: Vec4, c: Vec4, aUv: Tex2, bUv: Tex2, cUv: Tex2,
                               color: int, lightIntensity: real)

  // ---------------------------------------------------------------- frustum

  /**
    The six planes built by `init_frustum_planes` from the cosine and sine of
    half the horizontal (cx, sx) and vertical (cy, sy) fields of view.
  */
  function FrustumPlanes(cx: real, sx: real, cy: real, sy: real, znear: real, zfar: real): (ps: seq<Plane>)
    ensures |ps| == 6
    ensures forall k :: 0 <= k < 4 ==> ps[k].point == Vec3(0.0, 0.0, 0.0)
  {
    var origin := Vec3(0.0, 0.0, 0.0);
    [ Plane(origin, Vec3(cx, 0.0, sx)),
      Plane(origin, Vec3(-cx, 0.0, sx)),
      Plane(origin, Vec3(0.0, -cy, sy)),
      Plane(origin, Vec3(0.0, cy, sy)),
      Plane(Vec3(0.0, 0.0, znear), Vec3(0.0, 0.0, 1.0)),
      Plane(Vec3(0.0, 0.0, zfar), Vec3(0.0, 0.0, -1.0)) ]
  }

  /** The table of planes that `init_frustum_planes` fills. */
  class Frustum {
    var planes: array<Plane>

    constructor ()
      ensures planes.Length == 6
    {
      planes := new Plane[6](_ => Plane(Vec3(0.0, 0.0, 0.0), Vec3(0.0, 0.0, 0.0)));
    }

    method Init(cx: real, sx: real, cy: real, sy: real, znear: real, zfar: real)
      requires planes.Length == 6
      modifies planes
      ensures planes[..] == FrustumPlanes(cx, sx, cy, sy, znear, zfar)
    {
      var origin := Vec3(0.0, 0.0, 0.0);
      planes[LeftPlane] := Plane(origin, Vec3(cx, 0.0, sx));
      planes[RightPlane] := Plane(origin, Vec3(-cx, 0.0, sx));
      planes[TopPlane] := Plane(origin, Vec3(0.0, -cy, sy));
      planes[BottomPlane] := Plane(origin, Vec3(0.0, cy, sy));
      planes[NearPlane] := Plane(Vec3(0.0, 0.0, znear), Vec3(0.0, 0.0, 1.0));
      planes[FarPlane] := Plane(Vec3(0.0, 0.0, zfar), Vec3(0.0, 0.0, -1.0));
    }
  }

  /** Signed distance of `p` from the plane, scaled by the normal's length. */
  function SignedDistance(p: Vec3, pl: Plane): (d: real)
    ensures d == Vec3Dot(p, pl.normal) - Vec3Dot(pl.point, pl.normal)
    ensures p == pl.point ==> d == 0.0
  {
    Vec3DotLinear(p, pl.point, pl.normal, 0.0);
    Vec3Dot(Vec3Sub(p, pl.point), pl.normal)
  }

  /**
    The near and far planes admit exactly the depths strictly between znear
    and zfar, and the side planes keep points in front of the camera on the
    view axis: so every such point is strictly inside all six planes.
  */
  lemma {:induction false} ViewAxisInside(cx: real, sx: real, cy: real, sy: real, znear: real, zfar: real, p: Vec3)
    requires sx > 0.0 && sy > 0.0
    ensures var ps := FrustumPlanes(cx, sx, cy, sy, znear, zfar);
      && (SignedDistance(p, ps[NearPlane]) > 0.0 <==> p.z > znear)
      && (SignedDistance(p, ps[FarPlane]) > 0.0 <==> p.z < zfar)
      && (p.x == 0.0 && p.y == 0.0 && p.z > 0.0 ==>
            forall k :: 0 <= k < 4 ==> SignedDistance(p, ps[k]) > 0.0)
  {
    var ps := FrustumPlanes(cx, sx, cy, sy, znear, zfar);
    if p.x == 0.0 && p.y == 0.0 && p.z > 0.0 {
      ProductPositive(p.z, sx);
      ProductPositive(p.z, sy);
      assert SignedDistance(p, ps[0]) == p.z * sx;
      assert SignedDistance(p, ps[1]) == p.z * sx;
      assert SignedDistance(p, ps[2]) == p.z * sy;
      assert SignedDistance(p, ps[3]) == p.z * sy;
    }
  }

  // ---------------------------------------------------------------- interpolation

  /** `float_lerp`. */
  function FloatLerp(a: real, b: real, t: real): (r: real)
    ensures t == 0.0 ==> r == a
    ensures t == 1.0 ==> r == b
  {
    a + t * (b - a)
  }

  /** For t in [0, 1] the interpolated value lies between the end points. */
  lemma LerpBetween(a: real, b: real, t: real)
    requires 0.0 <= t <= 1.0
    ensures a <= b ==> a <= FloatLerp(a, b, t) <= b
    ensures b <= a ==> b <= FloatLerp(a, b, t) <= a
  {
    if a <= b {
      LerpRising(a, b, t);
    }
    if b <= a {
      LerpReversed(a, b, t);
      LerpRising(b, a, 1.0 - t);
    }
  }

  lemma LerpRising(a: real, b: real, t: real)
    requires a <= b && 0.0 <= t <= 1.0
    ensures a <= FloatLerp(a, b, t) <= b
  {
    var d := b - a;
    assert d - t * d == (1.0 - t) * d;
    NonNegativeProduct(t, d);
    NonNegativeProduct(1.0 - t, d);
  }

  /** Interpolating from b back to a with 1 - t reaches the same point. */
  lemma LerpReversed(a: real, b: real, t: real)
    ensures FloatLerp(a, b, t) == FloatLerp(b, a, 1.0 - t)
  {
    calc {
      FloatLerp(b, a, 1.0 - t);
      b + (1.0 - t) * (a - b);
      b + (a - b) - t * (a - b);
      a + t * (b - a);
    }
  }

  function Lerp3(a: Vec3, b: Vec3, t: real): Vec3 {
    Vec3(FloatLerp(a.x, b.x, t), FloatLerp(a.y, b.y, t), FloatLerp(a.z, b.z, t))
  }

  function LerpTex(a: Tex2, b: Tex2, t: real): Tex2 {
    Tex2(FloatLerp(a.u, b.u, t), FloatLerp(a.v, b.v, t))
  }

  /** The point where edge prev -> cur meets the plane, and its texture coordinate, at the same t. */
  function Intersection(prev: ClipVertex, cur: ClipVertex, t: real): ClipVertex {
    ClipVertex(Lerp3(prev.pos, cur.pos, t), LerpTex(prev.uv, cur.uv, t))
  }

  /** The signed distance is affine along an edge. */
  lemma DistanceAlongEdge(a: Vec3, b: Vec3, t: real, pl: Plane)
    ensures SignedDistance(Lerp3(a, b, t), pl)
         == SignedDistance(a, pl) + t * (SignedDistance(b, pl) - SignedDistance(a, pl))
  {
    var n := pl.normal;
    var q := pl.point;
    calc {
      SignedDistance(Lerp3(a, b, t), pl);
      (a.x + t * (b.x - a.x) - q.x) * n.x + (a.y + t * (b.y - a.y) - q.y) * n.y
        + (a.z + t * (b.z - a.z) - q.z) * n.z;
      (a.x - q.x) * n.x + (a.y - q.y) * n.y + (a.z - q.z) * n.z
        + t * (((b.x - q.x) * n.x + (b.y - q.y) * n.y + (b.z - q.z) * n.z)
               - ((a.x - q.x) * n.x + (a.y - q.y) * n.y + (a.z - q.z) * n.z));
    }
  }

  /** Distances of strictly opposite signs differ, and the inverse lerp lies strictly inside (0, 1). */
  lemma OppositeSigns(pd: real, cd: real)
    requires cd * pd < 0.0
    ensures pd - cd != 0.0
    ensures 0.0 < pd / (pd - cd) < 1.0
    ensures pd / (pd - cd) * (cd - pd) == -pd
  {
    SignsOfNegativeProduct(cd, pd);
    if pd > 0.0 {
      QuotientInside(pd, pd - cd);
    } else {
      QuotientInside(-pd, cd - pd);
      assert pd / (pd - cd) == (-pd) / (cd - pd);
    }
  }

  /** A negative product has one strictly positive and one strictly negative factor. */
  lemma SignsOfNegativeProduct(a: real, b: real)
    requires a * b < 0.0
    ensures (a > 0.0 && b < 0.0) || (a < 0.0 && b > 0.0)
  {
    if a >= 0.0 && b >= 0.0 {
      NonNegativeProduct(a, b);
    } else if a <= 0.0 && b <= 0.0 {
      NonPositiveProduct(a, b);
    }
  }

  lemma NonNegativeProduct(a: real, b: real)
    requires a >= 0.0 && b >= 0.0
    ensures a * b >= 0.0
  {
  }

  lemma NonPositiveProduct(a: real, b: real)
    requires a <= 0.0 && b <= 0.0
    ensures a * b >= 0.0
  {
    assert a * b == (-a) * (-b);
  }

  lemma QuotientInside(p: real, d: real)
    requires 0.0 < p < d
    ensures 0.0 < p / d < 1.0
    ensures p / d * d == p
  {
    var q := p / d;
    assert q * d == p;
    assert (q - 1.0) * d == p - d;
    if q >= 1.0 {
      NonNegativeProduct(q - 1.0, d);
    }
  }

  // ---------------------------------------------------------------- one plane

  /** The vertex before index k when the polygon is walked cyclically. */
  function Prev(vs: seq<ClipVertex>, k: int): ClipVertex
    requires 0 <= k < |vs|
  {
    if k == 0 then vs[|vs| - 1] else vs[k - 1]
  }

  /**
    What the walk emits for edge prev -> cur: the crossing point when the two
    distances have strictly opposite signs, then cur when it is strictly
    inside.
  */
  function Emit(prev: ClipVertex, cur: ClipVertex, pl: Plane): seq<ClipVertex> {
    EmitWith(prev, cur, SignedDistance(prev.pos, pl), SignedDistance(cur.pos, pl))
  }

  /** The two distances have strictly opposite signs. */
  predicate Straddles(pd: real, cd: real) {
    cd * pd < 0.0
  }

  /** `Emit`, given the distances pd of prev and cd of cur. */
  function EmitWith(prev: ClipVertex, cur: ClipVertex, pd: real, cd: real): seq<ClipVertex> {
    (if Straddles(pd, cd) then [Crossing(prev, cur, pd, cd)] else []) + (if cd > 0.0 then [cur] else [])
  }

  /** The crossing on edge prev -> cur, at the inverse lerp t = pd / (pd - cd). */
  function Crossing(prev: ClipVertex, cur: ClipVertex, pd: real, cd: real): ClipVertex
    requires Straddles(pd, cd)
  {
    OppositeSigns(pd, cd);
    Intersection(prev, cur, pd / (pd - cd))
  }

  /** The output after the walk has visited the first i vertices. */
  function ClipPrefix(vs: seq<ClipVertex>, pl: Plane, i: int): seq<ClipVertex>
    requires 0 <= i <= |vs|
  {
    if i == 0 then [] else ClipPrefix(vs, pl, i - 1) + Emit(Prev(vs, i - 1), vs[i - 1], pl)
  }

  /** `clip_polygon_against_plane`, as a function of the corner sequence. */
  function ClipVertices(vs: seq<ClipVertex>, pl: Plane): (r: seq<ClipVertex>)
    ensures |r| <= 2 * |vs|
  {
    ClipCountBound(vs, pl, |vs|);
    ClipPrefix(vs, pl, |vs|)
  }

  lemma {:induction false} PrefixGrows(vs: seq<ClipVertex>, pl: Plane, i: int, j: int)
    requires 0 <= i <= j <= |vs|
    ensures |ClipPrefix(vs, pl, i)| <= |ClipPrefix(vs, pl, j)|
    ensures ClipPrefix(vs, pl, j)[..|ClipPrefix(vs, pl, i)|] == ClipPrefix(vs, pl, i)
    decreases j
  {
    if i < j {
      PrefixGrows(vs, pl, i, j - 1);
      var a := ClipPrefix(vs, pl, i);
      var b := ClipPrefix(vs, pl, j - 1);
      assert ClipPrefix(vs, pl, j) == b + Emit(Prev(vs, j - 1), vs[j - 1], pl);
      assert (b + Emit(Prev(vs, j - 1), vs[j - 1], pl))[..|a|] == b[..|a|];
    }
  }

  /** Each vertex contributes at most two output vertices. */
  lemma {:induction false} ClipCountBound(vs: seq<ClipVertex>, pl: Plane, i: int)
    requires 0 <= i <= |vs|
    ensures |ClipPrefix(vs, pl, i)| <= 2 * i
  {
    if i > 0 {
      ClipCountBound(vs, pl, i - 1);
    }
  }

  /** A polygon strictly inside the plane passes unchanged: same count, same corners, same order. */
  lemma {:induction false} AllInsideUnchanged(vs: seq<ClipVertex>, pl: Plane)
    requires forall k :: 0 <= k < |vs| ==> SignedDistance(vs[k].pos, pl) > 0.0
    ensures ClipVertices(vs, pl) == vs
  {
    InsidePrefix(vs, pl, |vs|);
  }

  lemma {:induction false} InsidePrefix(vs: seq<ClipVertex>, pl: Plane, i: int)
    requires 0 <= i <= |vs|
    requires forall k :: 0 <= k < |vs| ==> SignedDistance(vs[k].pos, pl) > 0.0
    ensures ClipPrefix(vs, pl, i) == vs[..i]
  {
    if i > 0 {
      InsidePrefix(vs, pl, i - 1);
      var cd := SignedDistance(vs[i - 1].pos, pl);
      var pd := SignedDistance(Prev(vs, i - 1).pos, pl);
      ProductPositive(cd, pd);
      assert Emit(Prev(vs, i - 1), vs[i - 1], pl) == [vs[i - 1]];
      assert vs[..i] == vs[..i - 1] + [vs[i - 1]];
    }
  }

  /** A polygon strictly outside the plane is clipped away entirely. */
  lemma {:induction false} AllOutsideEmpty(vs: seq<ClipVertex>, pl: Plane)
    requires forall k :: 0 <= k < |vs| ==> SignedDistance(vs[k].pos, pl) < 0.0
    ensures ClipVertices(vs, pl) == []
  {
    OutsidePrefix(vs, pl, |vs|);
  }

  lemma {:induction false} OutsidePrefix(vs: seq<ClipVertex>, pl: Plane, i: int)
    requires 0 <= i <= |vs|
    requires forall k :: 0 <= k < |vs| ==> SignedDistance(vs[k].pos, pl) < 0.0
    ensures ClipPrefix(vs, pl, i) == []
  {
    if i > 0 {
      OutsidePrefix(vs, pl, i - 1);
      var cd := SignedDistance(vs[i - 1].pos, pl);
      var pd := SignedDistance(Prev(vs, i - 1).pos, pl);
      ProductPositive(-cd, -pd);
      assert (-cd) * (-pd) == cd * pd;
      assert Emit(Prev(vs, i - 1), vs[i - 1], pl) == [];
    }
  }

  /** A corner exactly on the plane is neither kept nor the end of a crossing edge. */
  lemma OnPlaneEmitsNothing(prev: ClipVertex, cur: ClipVertex, pl: Plane)
    requires SignedDistance(cur.pos, pl) == 0.0
    ensures Emit(prev, cur, pl) == []
    ensures SignedDistance(prev.pos, pl) <= 0.0 ==> Emit(cur, prev, pl) == []
  {
  }

  /**
    A crossing is emitted only for strictly opposite signs; its parameter t
    lies in (0, 1), the point it yields is on the plane, and its texture
    coordinate is interpolated with the same t.
  */
  lemma {:induction false} CrossingOnPlane(prev: ClipVertex, cur: ClipVertex, pl: Plane)
    ensures var pd := SignedDistance(prev.pos, pl);
      var cd := SignedDistance(cur.pos, pl);
      var e := Emit(prev, cur, pl);
      && (cd * pd >= 0.0 ==> e == (if cd > 0.0 then [cur] else []))
      && (cd * pd < 0.0 ==>
            var t := pd / (pd - cd);
            && 0.0 < t < 1.0
            && e[0] == ClipVertex(Lerp3(prev.pos, cur.pos, t), LerpTex(prev.uv, cur.uv, t))
            && SignedDistance(e[0].pos, pl) == 0.0)
  {
    var pd := SignedDistance(prev.pos, pl);
    var cd := SignedDistance(cur.pos, pl);
    if cd * pd < 0.0 {
      OppositeSigns(pd, cd);
      var t := pd / (pd - cd);
      DistanceAlongEdge(prev.pos, cur.pos, t, pl);
    }
  }

  // ---------------------------------------------------------------- all planes

  /** Clip against each plane of `planes` in turn. */
  function ClipThrough(vs: seq<ClipVertex>, planes: seq<Plane>): seq<ClipVertex>
    decreases |planes|
  {
    if planes == [] then vs else ClipThrough(ClipVertices(vs, planes[0]), planes[1..])
  }

  /** Every intermediate polygon of `ClipThrough` fits in the polygon arrays. */
  predicate FitsThrough(vs: seq<ClipVertex>, planes: seq<Plane>)
    decreases |planes|
  {
    |vs| <= MaxVertices && (planes != [] ==> FitsThrough(ClipVertices(vs, planes[0]), planes[1..]))
  }

  /** The frustum planes in the order `clip_polygon` applies them. */
  function ClipOrder(ps: seq<Plane>): seq<Plane>
    requires |ps| == 6
  {
    [ps[LeftPlane], ps[RightPlane], ps[TopPlane], ps[BottomPlane], ps[NearPlane], ps[FarPlane]]
  }

  /** One plane of `ClipThrough`: what remains to be clipped, and that it still fits. */
  lemma ClipThroughStep(vs: seq<ClipVertex>, planes: seq<Plane>)
    requires planes != [] && FitsThrough(vs, planes)
    ensures |ClipVertices(vs, planes[0])| <= MaxVertices
    ensures FitsThrough(ClipVertices(vs, planes[0]), planes[1..])
    ensures ClipThrough(vs, planes) == ClipThrough(ClipVertices(vs, planes[0]), planes[1..])
  {
  }

  /** A polygon strictly inside every plane comes through all of them unchanged. */
  lemma {:induction false} InsideAllUnchanged(vs: seq<ClipVertex>, planes: seq<Plane>)
    requires forall k, j :: 0 <= k < |vs| && 0 <= j < |planes| ==> SignedDistance(vs[k].pos, planes[j]) > 0.0
    ensures ClipThrough(vs, planes) == vs
    decreases |planes|
  {
    if planes != [] {
      AllInsideUnchanged(vs, planes[0]);
      InsideAllUnchanged(vs, planes[1..]);
    }
  }

  // ---------------------------------------------------------------- triangulation

  /** Number of fan triangles for n corners; fewer than three corners give none. */
  function TriangleCount(n: int): int {
    if n < 3 then 0 else n - 2
  }

  /** A polygon that fits the arrays never yields more than MaxVertices - 2 triangles. */
  lemma TriangleCountBounded(n: int)
    requires 0 <= n <= MaxVertices
    ensures 0 <= TriangleCount(n) <= MaxVertices - 2
    ensures n >= 3 ==> TriangleCount(n) + 2 == n
  {
  }

  /**
    The loop bound of `triangles_from_polygon` as written: `num_vertices - 2`
    compared against a 64-bit `size_t` index, so a negative value wraps.
  */
  function LoopBoundAsWritten(n: int): int
    requires n >= 0
  {
    if n == 0 then 0 else (n - 2) % 0x1_0000_0000_0000_0000
  }

  /** Corner indices of fan triangle i. */
  function FanIndices(i: int): set<int> {
    {0, i + 1, i + 2}
  }

  /** Every corner of a polygon with at least three corners belongs to some fan triangle. */
  lemma FanCoversCorners(n: int, k: int)
    requires 3 <= n && 0 <= k < n
    ensures exists i :: 0 <= i < TriangleCount(n) && k in FanIndices(i)
  {
    var i := if k == 0 then 0 else if k == n - 1 then k - 2 else k - 1;
    assert k in FanIndices(i);
  }

  /** Triangle i of the fan over `vs`, replacing only the corners of `old`. */
  function FanTriangle(old_: Triangle, vs: seq<ClipVertex>, i: int): (t: Triangle)
    requires 0 <= i && i + 2 < |vs|
    ensures t.a.w == 1.0 && t.b.w == 1.0 && t.c.w == 1.0
    ensures Vec3FromVec4(t.a) == vs[0].pos && Vec3FromVec4(t.b) == vs[i + 1].pos
         && Vec3FromVec4(t.c) == vs[i + 2].pos
    ensures t.aUv == vs[0].uv && t.bUv == vs[i + 1].uv && t.cUv == vs[i + 2].uv
    ensures t.color == old_.color && t.lightIntensity == old_.lightIntensity
  {
    old_.(a := Vec4FromVec3(vs[0].pos), b := Vec4FromVec3(vs[i + 1].pos), c := Vec4FromVec3(vs[i + 2].pos),
          aUv := vs[0].uv, bUv := vs[i + 1].uv, cUv := vs[i + 2].uv)
  }

  // ---------------------------------------------------------------- the polygon

  /** Pairs positions with texture coordinates. */
  function Corners(ps: seq<Vec3>, ts: seq<Tex2>): (vs: seq<ClipVertex>)
    requires |ps| == |ts|
    ensures |vs| == |ps|
    ensures forall k :: 0 <= k < |vs| ==> vs[k].pos == ps[k] && vs[k].uv == ts[k]
  {
    seq(|ps|, k requires 0 <= k < |ps| => ClipVertex(ps[k], ts[k]))
  }

  class Polygon {
    var vertices: array<Vec3>
    var texcoords: array<Tex2>
    var numVertices: int

    ghost predicate Valid()
      reads this
    {
      vertices.Length == MaxVertices && texcoords.Length == MaxVertices && 0 <= numVertices <= MaxVertices
    }

    /** The corners currently in the polygon, in order. */
    function Contents(): seq<ClipVertex>
      reads this, vertices, texcoords
      requires Valid()
    {
      Corners(vertices[..numVertices], texcoords[..numVertices])
    }

    /** `create_polygon_from_triangle`. */
    constructor FromTriangle(v0: Vec3, v1: Vec3, v2: Vec3, t0: Tex2, t1: Tex2, t2: Tex2)
      ensures Valid() && fresh(vertices) && fresh(texcoords)
      ensures numVertices == 3
      ensures Contents() == [ClipVertex(v0, t0), ClipVertex(v1, t1), ClipVertex(v2, t2)]
    {
      var vs := new Vec3[MaxVertices](_ => Vec3(0.0, 0.0, 0.0));
      var ts := new Tex2[MaxVertices](_ => Tex2(0.0, 0.0));
      vs[0], vs[1], vs[2] := v0, v1, v2;
      ts[0], ts[1], ts[2] := t0, t1, t2;
      vertices, texcoords, numVertices := vs, ts, 3;
    }

    /**
      `clip_polygon_against_plane`: the result is collected in local arrays
      of the same capacity, then copied back over the polygon.  The source
      does not check that capacity, so the caller must guarantee it.
    */
    method ClipAgainstPlane(pl: Plane)
      requires Valid()
      requires |ClipVertices(Contents(), pl)| <= MaxVertices
      modifies this, vertices, texcoords
      ensures Valid() && vertices == old(vertices) && texcoords == old(texcoords)
      ensures Contents() == ClipVertices(old(Contents()), pl)
    {
      ghost var out := ClipVertices(Contents(), pl);
      var insideV, insideT, numInside := Walk(pl);
      numVertices := numInside;
      var j := 0;
      while j < numInside
        modifies vertices, texcoords
        invariant 0 <= j <= numInside
        invariant forall k :: 0 <= k < j ==> vertices[k] == out[k].pos && texcoords[k] == out[k].uv
      {
        vertices[j] := insideV[j];
        texcoords[j] := insideT[j];
        j := j + 1;
      }
      SameCorners(vertices[..numVertices], texcoords[..numVertices], out);
    }

    /**
      The walk of `clip_polygon_against_plane` over the edges previous ->
      current, starting from the edge that closes the polygon.
    */
    method Walk(pl: Plane) returns (insideV: array<Vec3>, insideT: array<Tex2>, numInside: int)
      requires Valid()
      requires |ClipVertices(Contents(), pl)| <= MaxVertices
      ensures fresh(insideV) && fresh(insideT)
      ensures insideV.Length == MaxVertices && insideT.Length == MaxVertices
      ensures Stored(insideV, insideT, numInside, ClipVertices(Contents(), pl))
    {
      var n := numVertices;
      ghost var vs := Contents();
      insideV := new Vec3[MaxVertices](_ => Vec3(0.0, 0.0, 0.0));
      insideT := new Tex2[MaxVertices](_ => Tex2(0.0, 0.0));
      numInside := 0;
      ghost var out: seq<ClipVertex> := [];
      var prevIndex := n - 1;
      var prevDot := if n > 0 then SignedDistance(vertices[n - 1], pl) else 0.0;
      var i := 0;
      while i < n
        invariant 0 <= i <= n
        invariant out == ClipPrefix(vs, pl, i) && |out| <= MaxVertices
        invariant Stored(insideV, insideT, numInside, out)
        invariant i < n ==> prevIndex == (if i == 0 then n - 1 else i - 1)
        invariant i < n ==> prevDot == SignedDistance(vertices[prevIndex], pl)
      {
        PrefixGrows(vs, pl, i + 1, n);
        WalkStep(vertices[..n], texcoords[..n], pl, i, prevIndex);
        var curDot;
        numInside, curDot := Step(pl, vertices[prevIndex], texcoords[prevIndex], vertices[i], texcoords[i], prevDot,
                                  insideV, insideT, numInside, out);
        out := ClipPrefix(vs, pl, i + 1);
        prevDot := curDot;
        prevIndex := i;
        i := i + 1;
      }
    }


    /** `clip_polygon`: the six frustum planes in order left, right, top, bottom, near, far. */
    method ClipPolygon(frustum: Frustum)
      requires Valid() && frustum.planes.Length == 6
      requires FitsThrough(Contents(), ClipOrder(frustum.planes[..]))
      modifies this, vertices, texcoords
      ensures Valid() && vertices == old(vertices) && texcoords == old(texcoords)
      ensures Contents() == ClipThrough(old(Contents()), ClipOrder(frustum.planes[..]))
    {
      ghost var rest := ClipOrder(frustum.planes[..]);
      assert rest[0] == frustum.planes[LeftPlane];
      ClipThroughStep(Contents(), rest);
      ClipAgainstPlane(frustum.planes[LeftPlane]);
      rest := rest[1..];
      assert rest[0] == frustum.planes[RightPlane];
      ClipThroughStep(Contents(), rest);
      ClipAgainstPlane(frustum.planes[RightPlane]);
      rest := rest[1..];
      assert rest[0] == frustum.planes[TopPlane];
      ClipThroughStep(Contents(), rest);
      ClipAgainstPlane(frustum.planes[TopPlane]);
      rest := rest[1..];
      assert rest[0] == frustum.planes[BottomPlane];
      ClipThroughStep(Contents(), rest);
      ClipAgainstPlane(frustum.planes[BottomPlane]);
      rest := rest[1..];
      assert rest[0] == frustum.planes[NearPlane];
      ClipThroughStep(Contents(), rest);
      ClipAgainstPlane(frustum.planes[NearPlane]);
      rest := rest[1..];
      assert rest[0] == frustum.planes[FarPlane];
      ClipThroughStep(Contents(), rest);
      ClipAgainstPlane(frustum.planes[FarPlane]);
      rest := rest[1..];
      assert rest == [];
    }

    /**
      `triangles_from_polygon`: triangle i of the fan is corners 0, i + 1 and
      i + 2 with their texture coordinates and w = 1; the other fields of the
      caller's triangles are left alone.  Fewer than three corners give no
      triangle (see `LoopBoundAsWritten` for a single corner in the source).
    */
    method TrianglesFromPolygon(triangles: array<Triangle>) returns (count: int)
      requires Valid()
      requires TriangleCount(numVertices) <= triangles.Length
      modifies triangles
      ensures count == TriangleCount(numVertices)
      ensures forall i :: 0 <= i < count ==> triangles[i] == FanTriangle(old(triangles[i]), Contents(), i)
      ensures forall i :: count <= i < triangles.Length ==> triangles[i] == old(triangles[i])
    {
      if numVertices < 3 {
        return 0;
      }
      count := numVertices - 2;
      var i := 0;
      while i < count
        invariant 0 <= i <= count
        invariant forall k :: 0 <= k < i ==> triangles[k] == FanTriangle(old(triangles[k]), Contents(), k)
        invariant forall k :: i <= k < triangles.Length ==> triangles[k] == old(triangles[k])
      {
        triangles[i] := triangles[i].(a := Vec4FromVec3(vertices[0]), b := Vec4FromVec3(vertices[i + 1]),
                                      c := Vec4FromVec3(vertices[i + 2]), aUv := texcoords[0],
                                      bUv := texcoords[i + 1], cUv := texcoords[i + 2]);
        i := i + 1;
      }
    }
  }

  /** One step of the walk over the corners paired from `ps` and `ts`. */
  lemma WalkStep(ps: seq<Vec3>, ts: seq<Tex2>, pl: Plane, i: int, prevIndex: int)
    requires |ps| == |ts| && 0 <= i < |ps| && prevIndex == (if i == 0 then |ps| - 1 else i - 1)
    ensures ClipPrefix(Corners(ps, ts), pl, i + 1)
         == ClipPrefix(Corners(ps, ts), pl, i) + Emit(ClipVertex(ps[prevIndex], ts[prevIndex]), ClipVertex(ps[i], ts[i]), pl)
  {
    var vs := Corners(ps, ts);
    assert Prev(vs, i) == ClipVertex(ps[prevIndex], ts[prevIndex]);
    assert vs[i] == ClipVertex(ps[i], ts[i]);
  }

  /** Pairing positions and texture coordinates that match `out` corner by corner gives `out`. */
  lemma SameCorners(ps: seq<Vec3>, ts: seq<Tex2>, out: seq<ClipVertex>)
    requires |ps| == |ts| == |out|
    requires forall k :: 0 <= k < |out| ==> ps[k] == out[k].pos && ts[k] == out[k].uv
    ensures Corners(ps, ts) == out
  {
  }

  /**
    One edge of the walk in `clip_polygon_against_plane`, from the previous
    corner (at distance `prevDot`) to the current one: pushes the crossing, if
    any, then the current corner if it is strictly inside.
  */
  method Step(pl: Plane, prevPos: Vec3, prevUv: Tex2, curPos: Vec3, curUv: Tex2, prevDot: real,
              insideV: array<Vec3>, insideT: array<Tex2>, numInside: int, ghost out: seq<ClipVertex>)
    returns (numInside': int, curDot: real)
    requires prevDot == SignedDistance(prevPos, pl)
    requires Stored(insideV, insideT, numInside, out)
    requires numInside + |Emit(ClipVertex(prevPos, prevUv), ClipVertex(curPos, curUv), pl)| <= MaxVertices
    requires insideV.Length == MaxVertices && insideT.Length == MaxVertices
    modifies insideV, insideT
    ensures curDot == SignedDistance(curPos, pl)
    ensures Stored(insideV, insideT, numInside', out + Emit(ClipVertex(prevPos, prevUv), ClipVertex(curPos, curUv), pl))
  {
    ghost var prev := ClipVertex(prevPos, prevUv);
    ghost var cur := ClipVertex(curPos, curUv);
    curDot := SignedDistance(curPos, pl);
    ghost var acc := out;
    numInside' := numInside;
    if curDot * prevDot < 0.0 {
      OppositeSigns(prevDot, curDot);
      var t := prevDot / (prevDot - curDot);
      numInside' := Push(insideV, insideT, numInside', acc, Crossing(prev, cur, prevDot, curDot),
                         Lerp3(prevPos, curPos, t), LerpTex(prevUv, curUv, t));
      acc := acc + [Crossing(prev, cur, prevDot, curDot)];
    }
    if curDot > 0.0 {
      numInside' := Push(insideV, insideT, numInside', acc, cur, curPos, curUv);
      acc := acc + [cur];
    }
    assert acc == out + EmitWith(prev, cur, prevDot, curDot);
  }

  /** The first `count` cells of the two arrays hold the corners `out`. */
  ghost predicate Stored(vs: array<Vec3>, ts: array<Tex2>, count: int, out: seq<ClipVertex>)
    reads vs, ts
  {
    count == |out| <= vs.Length && count <= ts.Length
    && forall k :: 0 <= k < count ==> vs[k] == out[k].pos && ts[k] == out[k].uv
  }

  /** Appends one corner to the local "inside" arrays. */
  method Push(vs: array<Vec3>, ts: array<Tex2>, count: int, ghost out: seq<ClipVertex>, ghost c: ClipVertex,
              p: Vec3, t: Tex2)
    returns (count': int)
    requires Stored(vs, ts, count, out) && count < vs.Length && count < ts.Length
    requires p == c.pos && t == c.uv
    modifies vs, ts
    ensures count' == count + 1 && Stored(vs, ts, count', out + [c])
  {
    vs[count] := p;
    ts[count] := t;
    count' := count + 1;
  }

  // ---------------------------------------------------------------- a single corner left over

  /**
    A triangle with one edge lying on the plane and its third corner strictly
    inside clips to that single corner: no edge straddles the plane and only
    one corner is strictly inside.
  */
  lemma {:induction false} EdgeOnPlaneLeavesOneCorner(tri: seq<ClipVertex>, pl: Plane)
    requires |tri| == 3
    requires SignedDistance(tri[0].pos, pl) > 0.0
    requires SignedDistance(tri[1].pos, pl) == 0.0 && SignedDistance(tri[2].pos, pl) == 0.0
    ensures ClipVertices(tri, pl) == [tri[0]]
  {
    assert Emit(Prev(tri, 0), tri[0], pl) == [tri[0]];
    assert Emit(Prev(tri, 1), tri[1], pl) == [];
    assert Emit(Prev(tri, 2), tri[2], pl) == [];
    assert ClipPrefix(tri, pl, 1) == [tri[0]];
    assert ClipPrefix(tri, pl, 2) == [tri[0]];
    assert ClipPrefix(tri, pl, 3) == [tri[0]];
  }

  /** The plane z = 0 facing +z. */
  function GroundPlane(): Plane {
    Plane(Vec3(0.0, 0.0, 0.0), Vec3(0.0, 0.0, 1.0))
  }

  lemma DistanceToGround(p: Vec3)
    ensures SignedDistance(p, GroundPlane()) == p.z
  {
  }

  /**
    Such a triangle exists: corner (0, 0, 1) is in front of the plane z = 0
    and the edge from (0, 1, 0) to (1, 0, 0) lies on it.
  */
  lemma EdgeOnPlaneExample()
    ensures SignedDistance(Vec3(0.0, 0.0, 1.0), GroundPlane()) > 0.0
    ensures SignedDistance(Vec3(0.0, 1.0, 0.0), GroundPlane()) == 0.0
    ensures SignedDistance(Vec3(1.0, 0.0, 0.0), GroundPlane()) == 0.0
  {
    DistanceToGround(Vec3(0.0, 0.0, 1.0));
    DistanceToGround(Vec3(0.0, 1.0, 0.0));
    DistanceToGround(Vec3(1.0, 0.0, 0.0));
  }

  /**
    After such a clip, fan triangulation in the source counts
    num_vertices - 2 = -1 triangles and its 64-bit loop bound wraps to
    2^64 - 1, far past the triangle array; the model gives no triangle.
  */
  lemma {:induction false} SingleCornerWraps(tri: seq<ClipVertex>, pl: Plane)
    requires |tri| == 3
    requires SignedDistance(tri[0].pos, pl) > 0.0
    requires SignedDistance(tri[1].pos, pl) == 0.0 && SignedDistance(tri[2].pos, pl) == 0.0
    ensures |ClipVertices(tri, pl)| == 1
    ensures LoopBoundAsWritten(|ClipVertices(tri, pl)|) == 0xFFFF_FFFF_FFFF_FFFF > MaxVertices
    ensures TriangleCount(|ClipVertices(tri, pl)|) == 0
  {
    EdgeOnPlaneLeavesOneCorner(tri, pl);
  }

  /**
    A triangle with its first corner strictly outside and the other two
    strictly inside becomes a quadrilateral: the crossing on the closing edge,
    the crossing on the first edge, then the two inside corners.
  */
  lemma {:induction false} OneCornerOutsideMakesQuad(tri: seq<ClipVertex>, pl: Plane)
    requires |tri| == 3
    requires SignedDistance(tri[0].pos, pl) < 0.0
    requires SignedDistance(tri[1].pos, pl) > 0.0 && SignedDistance(tri[2].pos, pl) > 0.0
    ensures var out := ClipVertices(tri, pl);
      && |out| == 4 && out[2] == tri[1] && out[3] == tri[2]
      && SignedDistance(out[0].pos, pl) == 0.0 && SignedDistance(out[1].pos, pl) == 0.0
  {
    var d0 := SignedDistance(tri[0].pos, pl);
    var d1 := SignedDistance(tri[1].pos, pl);
    var d2 := SignedDistance(tri[2].pos, pl);
    ProductPositive(d1, d2);
    ProductPositive(-d0, d2);
    ProductPositive(d1, -d0);
    assert (-d0) * d2 == -(d0 * d2);
    assert d1 * (-d0) == -(d1 * d0);
    CrossingOnPlane(tri[2], tri[0], pl);
    CrossingOnPlane(tri[0], tri[1], pl);
    var e0 := Emit(tri[2], tri[0], pl);
    var e1 := Emit(tri[0], tri[1], pl);
    assert |e0| == 1 && |e1| == 2 && e1[1] == tri[1];
    assert Emit(tri[1], tri[2], pl) == [tri[2]];
    assert ClipPrefix(tri, pl, 1) == e0;
    assert ClipPrefix(tri, pl, 2) == e0 + e1;
    assert ClipPrefix(tri, pl, 3) == e0 + e1 + [tri[2]];
  }

  /**
    A triangle with only its second corner strictly outside becomes the
    first corner, the crossing on the first edge, the crossing on the second
    edge, then the third corner.
  */
  lemma {:induction false} SecondCornerOutsideMakesQuad(tri: seq<ClipVertex>, pl: Plane)
    requires |tri| == 3
    requires SignedDistance(tri[1].pos, pl) < 0.0
    requires SignedDistance(tri[0].pos, pl) > 0.0 && SignedDistance(tri[2].pos, pl) > 0.0
    ensures var out := ClipVertices(tri, pl);
      && |out| == 4 && out[0] == tri[0] && out[3] == tri[2]
      && SignedDistance(out[1].pos, pl) == 0.0 && SignedDistance(out[2].pos, pl) == 0.0
  {
    var d0 := SignedDistance(tri[0].pos, pl);
    var d1 := SignedDistance(tri[1].pos, pl);
    var d2 := SignedDistance(tri[2].pos, pl);
    ProductPositive(d0, d2);
    ProductPositive(-d1, d0);
    ProductPositive(d2, -d1);
    assert (-d1) * d0 == -(d1 * d0);
    assert d2 * (-d1) == -(d2 * d1);
    CrossingOnPlane(tri[0], tri[1], pl);
    CrossingOnPlane(tri[1], tri[2], pl);
    var e1 := Emit(tri[0], tri[1], pl);
    var e2 := Emit(tri[1], tri[2], pl);
    assert Emit(tri[2], tri[0], pl) == [tri[0]];
    assert |e1| == 1 && |e2| == 2 && e2[1] == tri[2];
    assert ClipPrefix(tri, pl, 1) == [tri[0]];
    assert ClipPrefix(tri, pl, 2) == [tri[0]] + e1;
    assert ClipPrefix(tri, pl, 3) == [tri[0]] + e1 + e2;
  }

  /**
    A triangle with only its third corner strictly outside becomes the
    crossing on the closing edge, the first two corners, then the crossing on
    the second edge.
  */
  lemma {:induction false} ThirdCornerOutsideMakesQuad(tri: seq<ClipVertex>, pl: Plane)
    requires |tri| == 3
    requires SignedDistance(tri[2].pos, pl) < 0.0
    requires SignedDistance(tri[0].pos, pl) > 0.0 && SignedDistance(tri[1].pos, pl) > 0.0
    ensures var out := ClipVertices(tri, pl);
      && |out| == 4 && out[1] == tri[0] && out[2] == tri[1]
      && SignedDistance(out[0].pos, pl) == 0.0 && SignedDistance(out[3].pos, pl) == 0.0
  {
    var d0 := SignedDistance(tri[0].pos, pl);
    var d1 := SignedDistance(tri[1].pos, pl);
    var d2 := SignedDistance(tri[2].pos, pl);
    ProductPositive(d1, d0);
    ProductPositive(d0, -d2);
    ProductPositive(-d2, d1);
    assert d0 * (-d2) == -(d0 * d2);
    assert (-d2) * d1 == -(d2 * d1);
    CrossingOnPlane(tri[2], tri[0], pl);
    CrossingOnPlane(tri[1], tri[2], pl);
    var e0 := Emit(tri[2], tri[0], pl);
    var e2 := Emit(tri[1], tri[2], pl);
    assert |e0| == 2 && e0[1] == tri[0];
    assert Emit(tri[0], tri[1], pl) == [tri[1]];
    assert |e2| == 1;
    assert ClipPrefix(tri, pl, 1) == e0;
    assert ClipPrefix(tri, pl, 2) == e0 + [tri[1]];
    assert ClipPrefix(tri, pl, 3) == e0 + [tri[1]] + e2;
  }
}
