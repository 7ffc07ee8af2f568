/*
  The mesh store of src/mesh.c: the built-in cube tables, the loader that
  rebuilds the global mesh from them, the line dispatch of the OBJ loader
  (with the numbers on each line already read), and the cycle through the
  bundled model names.
*/
module Mesh {
  import opened Vector
  import opened Color

  /** `face_t`: three vertex indices, their texture coordinates and a colour. */
  datatype Face = Face(a: int, b: int, c: int, aUv: Tex2, bUv: Tex2, cUv: Tex2, color: Color)

  const White: Color := 0xFFFFFFFF

  /** The colour the OBJ loader gives every face. */
  const ObjFaceColor: Color := 0xFFEEEEEE

  /** `cube_vertices`. */
  const CubeVertices: seq<Vec3> := [
    Vec3(-1.0, -1.0, -1.0), Vec3(-1.0, 1.0, -1.0), Vec3(1.0, 1.0, -1.0), Vec3(1.0, -1.0, -1.0),
    Vec3(1.0, 1.0, 1.0), Vec3(1.0, -1.0, 1.0), Vec3(-1.0, 1.0, 1.0), Vec3(-1.0, -1.0, 1.0)
  ]

  /** The two triangles of one cube side share the corner pattern of the tables. */
  function CubeSide(p: int, q: int, r: int, s: int): seq<Face> {
    [Face(p, q, r, Tex2(0.0, 0.0), Tex2(0.0, 1.0), Tex2(1.0, 1.0), White),
     Face(p, r, s, Tex2(0.0, 0.0), Tex2(1.0, 1.0), Tex2(1.0, 0.0), White)]
  }

  /** `cube_faces`: front, right, back, left, top and bottom, with 1-based vertex indices. */
  const CubeFaces: seq<Face> :=
    CubeSide(1, 2, 3, 4) + CubeSide(4, 3, 5, 6) + CubeSide(6, 5, 7, 8) +
    CubeSide(8, 7, 2, 1) + CubeSide(2, 7, 5, 3) + CubeSide(6, 8, 1, 4)

  /** A face whose 1-based indices name vertices of a table of n. */
  predicate IndicesWithin(f: Face, n: int) {
    1 <= f.a <= n && 1 <= f.b <= n && 1 <= f.c <= n
  }

  /** The cube has 8 vertices and 12 faces, and every face index is a 1-based index into the 8. */
  lemma CubeTablesWellFormed()
    ensures |CubeVertices| == 8 && |CubeFaces| == 12
    ensures forall k :: 0 <= k < |CubeFaces| ==> IndicesWithin(CubeFaces[k], |CubeVertices|)
  {
  }

  // ---------------------------------------------------------------------------
  // OBJ lines
  // ---------------------------------------------------------------------------

  /** The numbers `sscanf` reads from an "f a/ta/_ b/tb/_ c/tc/_" line. */
  datatype Corners = Corners(a: int, ta: int, b: int, tb: int, c: int, tc: int)

  /**
    One line of an OBJ file: its text, and the values `sscanf` would read
    from it as a vertex, a texture coordinate or a face line.
  */
  datatype Line = Line(text: string, vertex: Vec3, texCoord: Tex2, corners: Corners)

  /** `strncmp(text, prefix, |prefix|) == 0` on a NUL-terminated line. */
  predicate HasPrefix(text: string, prefix: string) {
    |prefix| <= |text| && text[..|prefix|] == prefix
  }

  datatype Kind = VertexLine | TexCoordLine | FaceLine | OtherLine

  /** No line starts with two of the three prefixes. */
  lemma PrefixesExclusive(text: string)
    ensures !(HasPrefix(text, "v ") && HasPrefix(text, "vt "))
    ensures !(HasPrefix(text, "f ") && (HasPrefix(text, "v ") || HasPrefix(text, "vt ")))
  {
    if HasPrefix(text, "vt ") {
      assert text[1] == "vt "[1];
    }
    if HasPrefix(text, "f ") {
      assert text[0] == "f "[0];
    }
    if HasPrefix(text, "v ") {
      assert text[0] == "v "[0];
    }
  }

  /** The loader's dispatch: "v ", then "vt ", then "f "; anything else is skipped. */
  function KindOf(text: string): (k: Kind)
    ensures k == VertexLine <==> HasPrefix(text, "v ")
    ensures k == TexCoordLine <==> HasPrefix(text, "vt ")
    ensures k == FaceLine <==> HasPrefix(text, "f ")
  {
    PrefixesExclusive(text);
    if HasPrefix(text, "v ") then VertexLine
    else if HasPrefix(text, "vt ") then TexCoordLine
    else if HasPrefix(text, "f ") then FaceLine
    else OtherLine
  }

  /** The vertices the lines define, in file order. */
  function ObjVertices(lines: seq<Line>): seq<Vec3> {
    if |lines| == 0 then []
    else
      var p, l := lines[..|lines| - 1], lines[|lines| - 1];
      ObjVertices(p) + if KindOf(l.text) == VertexLine then [l.vertex] else []
  }

  /** The texture coordinates the lines define, in file order. */
  function ObjTexCoords(lines: seq<Line>): seq<Tex2> {
    if |lines| == 0 then []
    else
      var p, l := lines[..|lines| - 1], lines[|lines| - 1];
      ObjTexCoords(p) + if KindOf(l.text) == TexCoordLine then [l.texCoord] else []
  }

  /** The face lines' numbers, in file order. */
  function ObjCorners(lines: seq<Line>): seq<Corners> {
    if |lines| == 0 then []
    else
      var p, l := lines[..|lines| - 1], lines[|lines| - 1];
      ObjCorners(p) + if KindOf(l.text) == FaceLine then [l.corners] else []
  }

  /** Every face line's texture indices name, 1-based, a texture coordinate defined above it. */
  predicate TexIndicesValid(lines: seq<Line>) {
    forall i :: 0 <= i < |lines| && KindOf(lines[i].text) == FaceLine ==>
      var n := |ObjTexCoords(lines[..i])|;
      1 <= lines[i].corners.ta <= n && 1 <= lines[i].corners.tb <= n && 1 <= lines[i].corners.tc <= n
  }

  /**
    The face built from a face line: indices kept as written (1-based, as
    the cube tables and the frame update expect), the uvs read at
    index - 1, a fixed colour.
  */
  function ObjFace(k: Corners, texCoords: seq<Tex2>): (f: Face)
    requires 1 <= k.ta <= |texCoords| && 1 <= k.tb <= |texCoords| && 1 <= k.tc <= |texCoords|
    ensures f.a == k.a && f.b == k.b && f.c == k.c && f.color == ObjFaceColor
    ensures f.aUv == texCoords[k.ta - 1] && f.bUv == texCoords[k.tb - 1] && f.cUv == texCoords[k.tc - 1]
  {
    Face(k.a, k.b, k.c, texCoords[k.ta - 1], texCoords[k.tb - 1], texCoords[k.tc - 1], ObjFaceColor)
  }

  lemma PrefixOfPrefix(lines: seq<Line>, i: int)
    requires 0 <= i < |lines|
    ensures lines[..|lines| - 1][..i] == lines[..i]
  {
  }

  lemma TexIndicesValidPrefix(lines: seq<Line>)
    requires |lines| > 0 && TexIndicesValid(lines)
    ensures TexIndicesValid(lines[..|lines| - 1])
  {
    var p := lines[..|lines| - 1];
    forall i | 0 <= i < |p| && KindOf(p[i].text) == FaceLine
      ensures var n := |ObjTexCoords(p[..i])|;
        1 <= p[i].corners.ta <= n && 1 <= p[i].corners.tb <= n && 1 <= p[i].corners.tc <= n
    {
      PrefixOfPrefix(lines, i);
    }
  }

  /** The faces the lines define, as the loader stores them, with the corrected indices. */
  function ObjFaces(lines: seq<Line>): seq<Face>
    requires TexIndicesValid(lines)
  {
    if |lines| == 0 then []
    else
      var p, l := lines[..|lines| - 1], lines[|lines| - 1];
      TexIndicesValidPrefix(lines);
      assert lines[..|lines| - 1] == p;
      ObjFaces(p) + (if KindOf(l.text) == FaceLine then [ObjFace(l.corners, ObjTexCoords(p))] else [])
  }

  /**
    The stored faces are the face lines, one for one and in order, each
    with the indices on its line, the colour 0xFFEEEEEE and the uvs read
    at its texture indices minus one.
  */
  lemma {:induction false} ObjFacesFollowLines(lines: seq<Line>)
    requires TexIndicesValid(lines)
    ensures |ObjFaces(lines)| == |ObjCorners(lines)|
    ensures forall k :: 0 <= k < |ObjFaces(lines)| ==>
      ObjFaces(lines)[k].a == ObjCorners(lines)[k].a &&
      ObjFaces(lines)[k].b == ObjCorners(lines)[k].b &&
      ObjFaces(lines)[k].c == ObjCorners(lines)[k].c &&
      ObjFaces(lines)[k].color == ObjFaceColor
    ensures forall k :: 0 <= k < |ObjFaces(lines)| ==> ReadsTexCoords(ObjFaces(lines)[k], ObjCorners(lines)[k], ObjTexCoords(lines))
  {
    if |lines| > 0 {
      var p, l := lines[..|lines| - 1], lines[|lines| - 1];
      TexIndicesValidPrefix(lines);
      ObjFacesFollowLines(p);
      var tp, tl := ObjTexCoords(p), ObjTexCoords(lines);
      assert tl == tp + if KindOf(l.text) == TexCoordLine then [l.texCoord] else [];
      forall k | 0 <= k < |ObjFaces(p)|
        ensures ReadsTexCoords(ObjFaces(p)[k], ObjCorners(p)[k], tl)
      {
        KeepsTexCoords(ObjFaces(p)[k], ObjCorners(p)[k], tp, tl);
      }
      assert ObjCorners(lines) == ObjCorners(p) + if KindOf(l.text) == FaceLine then [l.corners] else [];
      if KindOf(l.text) == FaceLine {
        assert ObjFaces(lines) == ObjFaces(p) + [ObjFace(l.corners, tp)];
        assert lines[..|lines| - 1] == p;
        KeepsTexCoords(ObjFace(l.corners, tp), l.corners, tp, tl);
      } else {
        assert ObjFaces(lines) == ObjFaces(p);
      }
    }
  }

  /** The face's uvs are the texture coordinates at its 1-based texture indices. */
  predicate ReadsTexCoords(f: Face, k: Corners, texCoords: seq<Tex2>) {
    1 <= k.ta <= |texCoords| && 1 <= k.tb <= |texCoords| && 1 <= k.tc <= |texCoords| &&
    f.aUv == texCoords[k.ta - 1] && f.bUv == texCoords[k.tb - 1] && f.cUv == texCoords[k.tc - 1]
  }

  /** Texture coordinates defined later do not change what an earlier face read. */
  lemma KeepsTexCoords(f: Face, k: Corners, texCoords: seq<Tex2>, more: seq<Tex2>)
    requires ReadsTexCoords(f, k, texCoords) && |texCoords| <= |more| && more[..|texCoords|] == texCoords
    ensures ReadsTexCoords(f, k, more)
  {
    assert more[k.ta - 1] == texCoords[k.ta - 1];
    assert more[k.tb - 1] == texCoords[k.tb - 1];
    assert more[k.tc - 1] == texCoords[k.tc - 1];
  }

  /** Lines that are not "v ", "vt " or "f " lines change nothing. */
  lemma {:induction false} OtherLinesIgnored(lines: seq<Line>, l: Line)
    requires KindOf(l.text) == OtherLine && TexIndicesValid(lines) && TexIndicesValid(lines + [l])
    ensures ObjVertices(lines + [l]) == ObjVertices(lines) && ObjTexCoords(lines + [l]) == ObjTexCoords(lines)
    ensures ObjFaces(lines + [l]) == ObjFaces(lines)
  {
    assert (lines + [l])[..|lines + [l]| - 1] == lines;
  }

  // ---------------------------------------------------------------------------
  // The index problem between the loader and the frame update
  // ---------------------------------------------------------------------------

  /** The vertex slot the frame update reads for a stored index: `mesh.vertices[index - 1]`. */
  function FetchSlot(stored: int): int {
    stored - 1
  }

  /** The face the loader builds as written: every index stored as value - 1. */
  function ObjFaceAsWritten(k: Corners, texCoords: seq<Tex2>): (f: Face)
    requires 1 <= k.ta <= |texCoords| && 1 <= k.tb <= |texCoords| && 1 <= k.tc <= |texCoords|
    ensures f.a + 1 == k.a && f.b + 1 == k.b && f.c + 1 == k.c && f.color == ObjFaceColor
  {
    Face(k.a - 1, k.b - 1, k.c - 1, texCoords[k.ta - 1], texCoords[k.tb - 1], texCoords[k.tc - 1], ObjFaceColor)
  }

  /**
    The loader as written subtracts one and the frame update subtracts one
    again: a face is read from slots value - 2, so a face naming vertex 1
    (the first vertex of every OBJ file) is read from slot -1, and one
    naming only vertices 1..n never reaches vertex n.
  */
  lemma ObjFaceFetchedOneTooLow(k: Corners, texCoords: seq<Tex2>, n: int)
    requires 1 <= k.ta <= |texCoords| && 1 <= k.tb <= |texCoords| && 1 <= k.tc <= |texCoords|
    requires 1 <= k.a <= n && 1 <= k.b <= n && 1 <= k.c <= n
    ensures var f := ObjFaceAsWritten(k, texCoords);
      FetchSlot(f.a) == k.a - 2 && FetchSlot(f.b) == k.b - 2 && FetchSlot(f.c) == k.c - 2 &&
      FetchSlot(f.a) < n - 1 && (k.a == 1 ==> FetchSlot(f.a) == -1 && !IndicesWithin(f, n))
  {
  }

  /**
    With the corrected loader, a file whose face lines name only vertices
    1..n gives faces that the frame update fetches from slots 0..n-1.
  */
  lemma {:induction false} ObjFacesFetchInRange(lines: seq<Line>, n: int)
    requires TexIndicesValid(lines)
    requires forall k :: 0 <= k < |ObjCorners(lines)| ==>
      1 <= ObjCorners(lines)[k].a <= n && 1 <= ObjCorners(lines)[k].b <= n && 1 <= ObjCorners(lines)[k].c <= n
    ensures forall k :: 0 <= k < |ObjFaces(lines)| ==> IndicesWithin(ObjFaces(lines)[k], n)
    ensures forall k :: 0 <= k < |ObjFaces(lines)| ==>
      0 <= FetchSlot(ObjFaces(lines)[k].a) < n && 0 <= FetchSlot(ObjFaces(lines)[k].b) < n &&
      0 <= FetchSlot(ObjFaces(lines)[k].c) < n
  {
    ObjFacesFollowLines(lines);
  }

  // ---------------------------------------------------------------------------
  // The global mesh
  // ---------------------------------------------------------------------------

  /** The global `mesh`: its vertex and face lists and its rotation. */
  class MeshData {
    var vertices: seq<Vec3>
    var faces: seq<Face>
    var rotation: Vec3

    /** The initial mesh: no vertices, no faces, no rotation. */
    constructor ()
      ensures vertices == [] && faces == [] && rotation == Vec3(0.0, 0.0, 0.0)
    {
      vertices, faces := [], [];
      rotation := Vec3(0.0, 0.0, 0.0);
    }

    /** `load_cube_mesh_data`: the lists are freed and refilled with exactly the cube tables, in order. */
    method LoadCube()
      modifies this
      ensures vertices == CubeVertices && faces == CubeFaces && rotation == old(rotation)
    {
      vertices, faces := [], [];
      var i := 0;
      while i < |CubeVertices|
        invariant 0 <= i <= |CubeVertices| && vertices == CubeVertices[..i]
        invariant faces == [] && rotation == old(rotation)
      {
        vertices := vertices + [CubeVertices[i]];
        i := i + 1;
      }
      assert vertices == CubeVertices[..|CubeVertices|];
      i := 0;
      while i < |CubeFaces|
        invariant 0 <= i <= |CubeFaces| && faces == CubeFaces[..i] && vertices == CubeVertices
        invariant rotation == old(rotation)
      {
        faces := faces + [CubeFaces[i]];
        i := i + 1;
      }
      assert faces == CubeFaces[..|CubeFaces|];
    }

    /**
      The line loop of `load_obj_file_data`: the lists are freed, then each
      "v " line appends a vertex, each "vt " line a texture coordinate to a
      local list, each "f " line a face (its indices kept 1-based, see
      ObjFaceAsWritten for the loader's own rebasing); other lines are skipped.
    */
    method LoadObj(lines: seq<Line>)
      requires TexIndicesValid(lines)
      modifies this
      ensures vertices == ObjVertices(lines) && faces == ObjFaces(lines) && rotation == old(rotation)
    {
      vertices, faces := [], [];
      var texCoords: seq<Tex2> := [];
      var i := 0;
      while i < |lines|
        invariant 0 <= i <= |lines| && TexIndicesValid(lines[..i])
        invariant vertices == ObjVertices(lines[..i]) && texCoords == ObjTexCoords(lines[..i])
        invariant faces == ObjFaces(lines[..i]) && rotation == old(rotation)
      {
        var line := lines[i];
        assert lines[..i + 1][..i] == lines[..i] && lines[..i + 1][i] == line;
        assert TexIndicesValid(lines[..i + 1]) by {
          forall m | 0 <= m < i + 1
            ensures lines[..i + 1][..m] == lines[..m]
          {
          }
        }
        if HasPrefix(line.text, "v ") {
          vertices := vertices + [line.vertex];
        } else if HasPrefix(line.text, "vt ") {
          texCoords := texCoords + [line.texCoord];
        } else if HasPrefix(line.text, "f ") {
          faces := faces + [ObjFace(line.corners, texCoords)];
        }
        i := i + 1;
      }
      assert lines[..|lines|] == lines;
    }
  }

  // ---------------------------------------------------------------------------
  // The model cycle
  // ---------------------------------------------------------------------------

  datatype Option<T> = None | Some(value: T)

  /** `model_paths`: nine names and the NULL that ends the list. */
  const ModelPaths: seq<Option<string>> := [
    Some("cube"), Some("crab"), Some("drone"), Some("efa"), Some("f117"),
    Some("f22"), Some("flat_vase"), Some("quad"), Some("sphere"), None
  ]

  /** The number of models in the cycle. */
  const ModelCount := 9

  /** The slot a load starts from: back to 0 on the NULL. */
  function Used(i: int): (u: int)
    requires 0 <= i < |ModelPaths|
    ensures 0 <= u < ModelCount && ModelPaths[u].Some?
    ensures ModelPaths[i].Some? ==> u == i
  {
    if ModelPaths[i].None? then 0 else i
  }

  /** The index after k loads from a start of 0. */
  function IndexAfter(k: nat): (i: int)
    ensures 0 <= i < |ModelPaths|
  {
    if k == 0 then 0 else Used(IndexAfter(k - 1)) + 1
  }

  /** The k-th load (from 0) uses the name in slot k mod 9: the loader cycles through the nine names in order. */
  lemma {:induction false} CycleVisitsInOrder(k: nat)
    ensures Used(IndexAfter(k)) == k % ModelCount
    ensures k > 0 ==> IndexAfter(k) == (k - 1) % ModelCount + 1
  {
    if k > 0 {
      CycleVisitsInOrder(k - 1);
    }
  }

  /** The global `current_model_index`. */
  class ModelCycle {
    var current: int

    ghost predicate Valid()
      reads this
    {
      0 <= current < |ModelPaths|
    }

    constructor ()
      ensures Valid() && current == 0
    {
      current := 0;
    }

    /**
      `load_next_obj_file_data`: back to the first name on the NULL, then the
      name in the current slot is the one loaded, then the index moves on.
      The files themselves are not read here.
    */
    method LoadNext() returns (name: string)
      requires Valid()
      modifies this
      ensures Valid()
      ensures Some(name) == ModelPaths[Used(old(current))] && current == Used(old(current)) + 1
    {
      if ModelPaths[current].None? {
        current := 0;
      }
      name := ModelPaths[current].value;
      current := current + 1;
    }
  }
}
