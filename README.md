# pikuma-3d renderer core in Dafny

A model of the core of the pikuma-3d software renderer, with proofs. The renderer is a small C program. Each frame it:

- rotates a mesh;
- culls back faces;
- projects the faces to the screen and sorts them by depth;
- clips polygons against the view frustum;
- rasterises triangles into a colour buffer and a depth buffer.

The model follows the C sources file by file. Each Dafny module is named after the C file it models:

| module | source | form |
|---|---|---|
| `Vector` | src/vector.c | 2-, 3- and 4-component vectors as datatypes; the operations are functions |
| `Color` | src/light.c | a `uint32_t` colour as an integer below 2^32, split into four 8-bit channels |
| `Light` | src/light.c | `update_color_intensity` as a function |
| `Matrix` | src/matrix.c | 4x4 matrices as a datatype of four rows; the builders are functions and `mat4_mul_mat4` is a method with nested loops |
| `Config` | src/config.c | the `draw_config` bit mask as a class with a `bv32` field, one method per operation |
| `Display` | src/display.c | the colour buffer, the depth buffer, the window size and the texture size as a class `Canvas`; the pixel, grid, rectangle and clear loops as methods |
| `Clipping` | src/clipping.c | the frustum planes, `float_lerp`, and a class `Polygon` whose fixed-size vertex and texture-coordinate arrays are clipped in place; fan triangulation into the caller's array |
| `Triangle` | src/triangle.c | barycentric weights, the three-swap vertex sort, depth-tested pixel writes, texel indexing, and the scanline loops of the z-buffered and textured triangle fills |
| `Mesh` | src/mesh.c | the cube tables, OBJ line dispatch, the global mesh as a class `MeshData`, and the model-file cycle as a class `ModelCycle` |
| `Frame` | src/main.c | the per-frame `update`: transform, cull, project, centre, then the exchange sort by depth |

Conventions:

- C `float` is modelled as `real`.
- A float-to-int conversion is `Trunc`, which truncates toward zero.
- Colour channels are extracted with division and remainder by powers of 256.
- `sin`, `cos`, `tan` and `sqrt` are not computed. They are parameters: values such as `(s, c)` pairs, or functions `real -> real`. Where a proof needs a property of them, the contract states it as a hypothesis (for example s² + c² = 1).
- A precondition is added wherever the C code would divide by zero or index out of bounds without a check. The "Left out" section lists each one, with what the C code does instead.

## Model

| member | source | states |
|---|---|---|
| Vector.Vec2Div | src/vector.c:31-38 | division by 0 gives the zero vector; otherwise multiplying the result back by s gives v |
| Vector.Vec3Div | src/vector.c:86-94 | division by 0 gives the zero vector; otherwise multiplying the result back by s gives v |
| Vector.Vec2Normalized | src/vector.c:45-54 | for a non-zero length, the normalised vector times the length is the original vector |
| Vector.Vec3Normalized | src/vector.c:110-120 | for a non-zero length, the normalised vector times the length is the original vector |
| Vector.Vec2NormalizedIsUnit | src/vector.c:6-8 | when sqrt returns the true length, the normalised vector has unit length |
| Vector.Vec3NormalizedIsUnit | src/vector.c:58-60 | when sqrt returns the true length, the normalised vector has unit length |
| Vector.Vec2SubAddRoundTrip | src/vector.c:10-22 | (a - b) + b == a |
| Vector.Vec3SubAddRoundTrip | src/vector.c:62-76 | (a - b) + b == a |
| Vector.Vec2DotSymmetric | src/vector.c:40-43 | the dot product is symmetric |
| Vector.Vec3DotSymmetric | src/vector.c:104-108 | the dot product is symmetric |
| Vector.CrossProperties | src/vector.c:96-108 | a x b is orthogonal to both a and b, and b x a == -(a x b) |
| Vector.Vec2AddSubMulLaws | src/vector.c:10-29 | `vec2_add` is commutative and associative with the zero vector as neutral element; a - a is zero; `vec2_mul` distributes over add and sub, and scale 1 keeps the vector |
| Vector.Vec2DotLinear | src/vector.c:10-43 | `vec2_dot` is linear in its first operand: (a + b) . c, (a - b) . c and (s a) . c are the sum, the difference and s times the dot products |
| Vector.Vec3AddSubMulLaws | src/vector.c:62-84 | `vec3_add` is commutative and associative with the zero vector as neutral element; a - a is zero; `vec3_mul` distributes over add and sub, and scale 1 keeps the vector |
| Vector.Vec3DotLinear | src/vector.c:62-108 | `vec3_dot` is linear in its first operand: (a + b) . c, (a - b) . c and (s a) . c are the sum, the difference and s times the dot products |
| Vector.CrossLinear | src/vector.c:62-102 | `vec3_cross` is linear in its first operand over add, sub and mul; a x a is zero; the x axis crossed with the y axis is the z axis |
| Vector.RotateX | src/vector.c:122-128 | x is kept; with a true (sin, cos) pair the length is kept |
| Vector.RotateY | src/vector.c:130-136 | y is kept; with a true (sin, cos) pair the length is kept |
| Vector.RotateZ | src/vector.c:138-144 | z is kept; with a true (sin, cos) pair the length is kept |
| Vector.Vec4FromVec3 | src/vector.c:147-154 | the result has w == 1 |
| Vector.Vec4RoundTrip | src/vector.c:147-162 | vec3_from_vec4(vec4_from_vec3(v)) == v |
| Color.Pack | src/light.c:16 | the packed word's alpha, red, green and blue channels are exactly the four arguments, so the shifted fields do not overlap |
| Color.PackChannels | src/light.c:11-16 | extracting the four channels and packing them again gives the original colour |
| Light.ClampIntensity | src/light.c:9-10 | the clamped intensity lies in [0, 1] and equals the input when the input is already in range |
| Light.ScaleChannel | src/light.c:11-14 | a scaled channel is at most the input channel; scale 1 keeps it and scale 0 clears it |
| Light.UpdateColorIntensity | src/light.c:8-17 | every channel, alpha included, is the truncated product with the clamped intensity; intensity >= 1 returns the colour unchanged and intensity <= 0 returns 0 |
| Light.IntensityNeverBrightens | src/light.c:9-16 | no output channel exceeds the matching input channel |
| Light.IntensityMonotone | src/light.c:9-14 | every channel is non-decreasing in the intensity |
| Matrix.Identity | src/matrix.c:4-11 | the identity times any vector is that vector |
| Matrix.MakeScale | src/matrix.c:13-20 | the product scales x, y and z by sx, sy and sz and keeps w |
| Matrix.MakeTranslation | src/matrix.c:22-36 | the product adds (tx, ty, tz) times w and keeps w, so a point with w = 1 is moved by the offset |
| Matrix.MakeRotationX | src/matrix.c:38-47 | the product is the vector rotation about x of (x, y, z), with w kept |
| Matrix.MakeRotationY | src/matrix.c:49-58 | the product is the vector rotation about y with the opposite sine, with w kept |
| Matrix.MakeRotationZ | src/matrix.c:60-69 | the product is the vector rotation about z of (x, y, z), with w kept |
| Matrix.MakePerspective | src/matrix.c:71-82 | the output w is the input z; the z row is (0, 0, 1 - znear, -2 znear), which is what the unparenthesised expressions compute |
| Matrix.MakePerspectiveIntended | src/matrix.c:71-82 | the output w is the input z; the z row is (0, 0, zfar/(zfar-znear), -znear zfar/(zfar-znear)) |
| Matrix.MulVec4Project | src/matrix.c:84-93 | when the product's w is 0 the product is returned unchanged; otherwise x, y and z are divided by w and w is kept |
| Matrix.MulVec4Laws | src/matrix.c:95-102 | component i of `mat4_mul_vec4` is the sum over j of m[i][j] times component j of v; the product is linear in the vector: m (s u + t v) == s (m u) + t (m v) |
| Matrix.MulMat4 | src/matrix.c:104-113 | the nested i/j loop computes the matrix product |
| Matrix.IdentityNeutral | src/matrix.c:4-11 | the identity is a left and a right neutral element of the matrix product |
| Matrix.ProductComposes | src/matrix.c:95-113 | (a b) v == a (b v) |
| Matrix.PerspectiveNearDepthAsWritten | src/matrix.c:71-93 | as written, a point on the near plane gets depth -1 - znear after the divide |
| Matrix.PerspectiveIntendedDepthRange | src/matrix.c:71-93 | with the intended parentheses, the near plane maps to depth 0 and the far plane to depth 1 |
| Config.Bit | src/config.c:10-24 | each mode's bit is non-zero |
| Config.BitsDisjoint | src/config.c:10-24 | distinct modes have disjoint bits |
| Config.InitialModes | src/config.c:4-8 | initially wireframe, vertex points, solid and culling are set, and textured is clear |
| Config.Enable | src/config.c:10-14 | OR-ing in the mode's bit sets the mode |
| Config.Disable | src/config.c:15-19 | AND-ing with the complement of the mode's bit clears the mode |
| Config.Toggle | src/config.c:20-24 | XOR-ing with the mode's bit flips the mode |
| Config.EnableKeepsOthers | src/config.c:10-14 | enabling a mode leaves every other mode as it was |
| Config.DisableKeepsOthers | src/config.c:15-19 | disabling a mode leaves every other mode as it was |
| Config.ToggleKeepsOthers | src/config.c:20-24 | toggling a mode leaves every other mode as it was |
| Config.ToggleTwice | src/config.c:20-24 | toggling a mode twice restores the whole configuration |
| Config.EnableIdempotent | src/config.c:10-14 | enabling a mode twice is the same as enabling it once |
| Config.DisableIdempotent | src/config.c:15-19 | disabling a mode twice is the same as disabling it once |
| Config.DrawConfig.constructor | src/config.c:4-8 | the initial configuration, with solid and textured not both set |
| Config.DrawConfig.EnableWireframe | src/config.c:10 | sets only the wireframe bit and keeps solid/textured exclusive |
| Config.DrawConfig.EnableVertexPoint | src/config.c:11 | sets only the vertex-point bit and keeps solid/textured exclusive |
| Config.DrawConfig.EnableSolid | src/config.c:12 | sets solid and clears textured |
| Config.DrawConfig.EnableTextured | src/config.c:13 | sets textured and clears solid |
| Config.DrawConfig.EnableBackfaceCulling | src/config.c:14 | sets only the culling bit and keeps solid/textured exclusive |
| Config.DrawConfig.DisableWireframe | src/config.c:15 | clears only the wireframe bit |
| Config.DrawConfig.DisableVertexPoint | src/config.c:16 | clears only the vertex-point bit |
| Config.DrawConfig.DisableSolid | src/config.c:17 | clears solid, which establishes solid/textured exclusion from any state |
| Config.DrawConfig.DisableTextured | src/config.c:18 | clears textured, which establishes solid/textured exclusion from any state |
| Config.DrawConfig.DisableBackfaceCulling | src/config.c:19 | clears only the culling bit |
| Config.DrawConfig.ToggleWireframe | src/config.c:20 | flips only the wireframe bit |
| Config.DrawConfig.ToggleVertexPoint | src/config.c:21 | flips only the vertex-point bit |
| Config.DrawConfig.ToggleSolid | src/config.c:22 | flips solid and always clears textured |
| Config.DrawConfig.ToggleTextured | src/config.c:23 | flips textured and always clears solid |
| Config.DrawConfig.ToggleBackfaceCulling | src/config.c:24 | flips only the culling bit |
| Config.DrawConfig.IsEnabled | src/config.c:25-28 | true exactly when the mode's bit is set |
| Display.Ramp | src/display.c:77-78 | the truncated `0xFF * (x / w)` channel is 0 at x = 0 and stays below 255 |
| Display.GridPixel | src/display.c:76-80 | a grid pixel has alpha 0xFF and blue 0; red ramps with the column and green with the row |
| Display.ClearedPixel | src/display.c:114-122 | a pixel becomes 0xFF333333 exactly when its column or row is a multiple of 10 (or the colour already is that grey); otherwise it gets the colour |
| Display.Canvas.constructor | src/main.c:24 | the `calloc` of the setup: a w x h colour buffer of zeros, and a depth buffer of the same size |
| Display.Canvas.DrawPixel | src/display.c:60-66 | a pixel right of or below the window changes nothing; otherwise exactly index y * width + x gets the colour |
| Display.Canvas.DrawGrid | src/display.c:68-83 | exactly the pixels on grid lines are repainted, and nothing changes when there is no buffer |
| Display.Canvas.DrawRect | src/display.c:85-98 | exactly the pixels in columns x .. min(x + w, width) and rows y .. min(y + h, height) get the colour; nothing changes when there is no buffer |
| Display.Canvas.ClearColorBuffer | src/display.c:110-123 | every pixel holds its cleared colour; nothing changes when there is no buffer |
| Clipping.FrustumPlanes | src/clipping.c:28-65 | six planes; the four side planes pass through the origin |
| Clipping.Frustum.Init | src/clipping.c:28-65 | the global plane array holds the six planes in enum order |
| Clipping.ViewAxisInside | src/clipping.c:28-65 | the near plane admits exactly z > znear and the far plane exactly z < zfar; a point on the positive view axis is inside the four side planes |
| Clipping.FloatLerp | src/clipping.c:75-77 | t = 0 gives a and t = 1 gives b |
| Clipping.LerpBetween | src/clipping.c:75-77 | for t in [0, 1] the result lies between a and b |
| Clipping.LerpReversed | src/clipping.c:75-77 | lerp(a, b, t) == lerp(b, a, 1 - t) |
| Clipping.DistanceAlongEdge | src/clipping.c:94-110 | the signed distance to a plane is affine along an edge |
| Clipping.CrossingOnPlane | src/clipping.c:98-131 | an edge emits a crossing only for strictly opposite signs; then t lies in (0, 1), the crossing lies on the plane, and its texture coordinate uses the same t; otherwise only a strictly inside vertex is kept |
| Clipping.OnPlaneEmitsNothing | src/clipping.c:101-131 | a vertex exactly on the plane is neither kept nor produces a crossing |
| Clipping.SignedDistance | src/clipping.c:94-98 | the distance tested is the dot product with the normal minus the plane point's, so it is affine in the corner, and the plane's own point has distance 0 |
| Clipping.ClipVertices | src/clipping.c:79-147 | clipping against one plane emits at most twice as many corners as it receives |
| Clipping.ClipCountBound | src/clipping.c:96-139 | after i vertices, at most 2i vertices have been emitted |
| Clipping.PrefixGrows | src/clipping.c:96-139 | the emitted list only grows: each prefix of the walk extends the previous one |
| Clipping.AllInsideUnchanged | src/clipping.c:94-146 | when every vertex is strictly inside, clipping leaves the polygon unchanged |
| Clipping.AllOutsideEmpty | src/clipping.c:94-146 | when every vertex is strictly outside, clipping leaves no vertex |
| Clipping.OneCornerOutsideMakesQuad | src/clipping.c:94-146 | a triangle with only its first corner strictly outside becomes a quadrilateral: two crossings on the plane, then the second and third corners |
| Clipping.SecondCornerOutsideMakesQuad | src/clipping.c:94-146 | with only the second corner strictly outside: the first corner, two crossings on the plane, then the third corner |
| Clipping.ThirdCornerOutsideMakesQuad | src/clipping.c:94-146 | with only the third corner strictly outside: a crossing on the plane, the first two corners, then a second crossing on the plane |
| Clipping.Polygon.FromTriangle | src/clipping.c:67-73 | three vertices, with positions and texture coordinates equal to the arguments, in order |
| Clipping.Polygon.ClipAgainstPlane | src/clipping.c:79-147 | the polygon's contents become the clipped sequence, rewritten in place into the same arrays; requires that the result fits the capacity |
| Clipping.Polygon.Walk | src/clipping.c:87-139 | the vertex walk fills fresh inside arrays with exactly the clipped sequence |
| Clipping.Polygon.ClipPolygon | src/clipping.c:149-156 | clips against left, right, top, bottom, near and far, in that order |
| Clipping.InsideAllUnchanged | src/clipping.c:149-156 | a polygon strictly inside every plane comes through all six unchanged |
| Clipping.ClipThroughStep | src/clipping.c:149-156 | each plane step keeps the polygon within capacity when the whole chain fits |
| Clipping.TriangleCountBounded | src/clipping.c:158-175 | n >= 3 corners give n - 2 triangles, and a polygon that fits gives at most capacity - 2 |
| Clipping.FanTriangle | src/clipping.c:163-172 | fan triangle i has corners 0, i+1 and i+2, with w = 1 and the texture coordinates of those same corners, and keeps the caller's colour and light |
| Clipping.FanCoversCorners | src/clipping.c:163-172 | every corner of a polygon with at least three corners belongs to some fan triangle |
| Clipping.Polygon.TrianglesFromPolygon | src/clipping.c:158-175 | writes exactly the fan triangles 0 .. count-1 and leaves the rest of the array alone; 0 corners give 0 triangles |
| Clipping.SingleCornerWraps | src/clipping.c:158-175 | an edge lying on the plane leaves a single corner, for which the loop bound as written wraps to 2^64 - 1 |
| Clipping.EdgeOnPlaneLeavesOneCorner | src/clipping.c:98-131 | a triangle with one corner inside and the other two on the plane clips to just that corner |
| Triangle.Trunc | src/triangle.c:333-334 | the C float-to-int conversion, toward zero: the floor for non-negative values; for negative values an integer in [x, x + 1), so never below the value |
| Triangle.BarycentricWeights | src/triangle.c:24-46 | the weights sum to 1 (needs non-zero area) |
| Triangle.BarycentricAtCorners | src/triangle.c:24-46 | corner a gives (1, 0, 0), b gives (0, 1, 0) and c gives (0, 0, 1) |
| Triangle.AreaReordered | src/triangle.c:33-39 | swapping two corners negates the signed area |
| Triangle.SortByY | src/triangle.c:295-316 | the three conditional swaps give y0 <= y1 <= y2 and a reordering of the three input vertices, each vertex moving whole (x, y, z, w and uv together) |
| Triangle.ReorderingKeepsArea | src/triangle.c:395-418 | sorting keeps the area non-zero exactly when it was non-zero |
| Triangle.FlipV | src/triangle.c:421-423 | u is kept and v becomes 1 - v |
| Triangle.FlipVTwice | src/triangle.c:421-423 | flipping twice restores the coordinate |
| Triangle.DepthAtCorners | src/triangle.c:95-99 | at each corner the depth 1 - interpolated(1/w) is 1 - 1/w of that corner |
| Triangle.PerspectiveCorrectAtCorner | src/triangle.c:127-141 | at each of the three corners the interpolated 1/w is non-zero and the perspective-correct interpolation gives that corner's attribute |
| Triangle.TexelIndex | src/triangle.c:70-71 | `abs((int)(t * size)) % size` lies in [0, size) |
| Triangle.AffineTexel | src/triangle.c:55-75 | the affine texel index lies inside the texture |
| Triangle.PerspectiveTexel | src/triangle.c:127-151 | the perspective-correct texel index lies inside the texture |
| Triangle.DrawTexel | src/triangle.c:55-75 | exactly the pixel gets the texel at the affine texture coordinate; off the window nothing changes |
| Triangle.DrawTrianglePixel | src/triangle.c:77-108 | the pixel and its depth are written exactly when the new depth is below the stored one |
| Triangle.DrawTexelPerspectiveCorrect | src/triangle.c:110-157 | the depth index is taken modulo the buffer size; when the depth passes, the pixel gets the lit texel and the depth is stored, otherwise nothing changes |
| Triangle.DrawFillPixel | src/triangle.c:340-345 | pixel (x, y) of a span goes through the depth test: index y * width + x, and only it, gets the interpolated depth and the fill's colour (the flat colour, or the lit perspective-correct texel) exactly when that depth is below the stored one |
| Triangle.DepthTestedTwice | src/triangle.c:331-366 | putting a pixel through the same depth test twice (the row both halves draw) ends as one test |
| Triangle.Slope | src/triangle.c:326-329 | for dy != 0 the inverse slope times abs(dy) gives dx back; for dy = 0 it keeps its initial 0 |
| Triangle.EdgeX | src/triangle.c:333-334 | on the edge's own starting row the column is that corner's x; on any row the truncated column is within one of the exact crossing |
| Triangle.HalfSpan | src/triangle.c:333-338 | after the swap, x_start <= x_end; on row y1 one end is x1 and on row y0 one end is x0 |
| Triangle.EdgeFromLow | src/triangle.c:333-334 | the long edge's x at row y lies between its end points |
| Triangle.EdgeFromHigh | src/triangle.c:333-334 | the short edge's x, stepped from its lower end, lies between its end points |
| Triangle.DrawSpan | src/triangle.c:340-345 | exactly the pixels x_start <= x < x_end of row y go through the depth test; every other buffer index is unchanged |
| Triangle.SpanStep | src/triangle.c:340-345 | one more loop step extends the tested pixels by x and keeps the rest of the buffers |
| Triangle.DrawHalf | src/triangle.c:326-366 | exactly the pixels of the half's spans (rows y0..y1 or y1..y2, between the swapped edge columns) go through the depth test and every other pixel of the window is kept; a half of zero height changes nothing |
| Triangle.RowDone | src/triangle.c:332-345 | after row y, the rows up to y of the half are tested and every other pixel is kept |
| Triangle.HalvesMakeTriangle | src/triangle.c:326-366 | the upper half followed by the lower half tests exactly the triangle's pixels, each as if once |
| Triangle.InTriangleWithinCorners | src/triangle.c:331-366 | every pixel of the sorted triangle lies within the columns and rows of its corners |
| Triangle.FilledOnlyInBox | src/triangle.c:331-366 | filling keeps every pixel outside the corners' box |
| Triangle.FilledIsPainted | src/triangle.c:77-157 | the exact fill never raises a depth, and a pixel changes colour only where its depth fell, to a colour the fill allows |
| Triangle.DrawFilledTriangleWithZ | src/triangle.c:291-385 | after the sort by y, exactly the triangle's pixels go through the depth test with its flat colour, and pixels outside the corners' box are kept; the light intensity is not used |
| Triangle.Flipped | src/triangle.c:421-423 | a vertex keeps its position and gets its v flipped |
| Triangle.DrawTexturedTriangle | src/triangle.c:387-490 | the texture is unchanged; after the sort by y (carrying u, v) and the v flip, exactly the triangle's pixels go through the depth test with the lit perspective-correct texel, and pixels outside the corners' box are kept |
| Triangle.OneTexelPixel | src/triangle.c:275-289 | a pixel textured from a 1 x 1 texture of colour c is filled with c at the light intensity |
| Triangle.OneTexelIsFlat | src/triangle.c:275-289 | texturing with a 1 x 1 texture of colour c is the flat fill with the lit c, whatever the v coordinates |
| Triangle.DrawFilledTriangleWithZBufferHacky | src/triangle.c:275-289 | texture_width and texture_height are restored; exactly the triangle's pixels go through the depth test with the lit colour |
| Triangle.SplitX | src/triangle.c:265 | at row y0 the split point is x0 and at row y2 it is x2: the long edge's ends |
| Triangle.SplitOnLongEdge | src/triangle.c:264-265 | the split point (mx, my) is the long edge's x at row y1 |
| Triangle.SplitBetweenEnds | src/triangle.c:264-265 | the split point lies between x0 and x2 |
| Mesh.CubeTablesWellFormed | src/mesh.c:19-48 | 8 vertices and 12 faces, each face index a 1-based index into the 8 |
| Mesh.MeshData.LoadCube | src/mesh.c:51-61 | the mesh holds exactly the cube vertices and faces in table order; the rotation is unchanged |
| Mesh.KindOf | src/mesh.c:81-97 | a line is a vertex, texture or face line exactly when it has the prefix "v ", "vt " or "f " |
| Mesh.ObjFace | src/mesh.c:106-116 | the face keeps the line's vertex indices and colour 0xFFEEEEEE, and its uvs are the texture coordinates at ta - 1, tb - 1 and tc - 1 |
| Mesh.ObjFacesFollowLines | src/mesh.c:97-118 | one face per face line, in order, with the line's indices, the fixed colour, and the uvs at the line's texture indices minus one |
| Mesh.OtherLinesIgnored | src/mesh.c:78-120 | a line with none of the three prefixes changes nothing |
| Mesh.MeshData.LoadObj | src/mesh.c:63-122 | vertices, faces and the local texture list are exactly those the lines define, in file order |
| Mesh.ObjFaceAsWritten | src/mesh.c:106-116 | each stored index is one below the value on the line |
| Mesh.ObjFaceFetchedOneTooLow | src/mesh.c:109-111 | as written, a face is fetched from slot value - 2; a face naming vertex 1 is fetched from slot -1 |
| Mesh.ObjFacesFetchInRange | src/mesh.c:109-111 | with the corrected loader, faces naming vertices 1..n are fetched from slots 0..n-1 |
| Mesh.Used | src/mesh.c:140-143 | the index used always names a model, and it is the current index whenever that one is not the sentinel |
| Mesh.CycleVisitsInOrder | src/mesh.c:124-152 | the k-th load uses model k mod 9, so the nine names are visited in order, over and over |
| Mesh.ModelCycle.LoadNext | src/mesh.c:140-152 | returns the name at the index used, then advances past it |
| Frame.SortByDepth | src/main.c:203-212 | the nested compare-and-swap loop leaves the triangles in non-decreasing average depth, as a permutation of its input |
| Frame.ExchangePass | src/main.c:205-211 | pass i sorts slots 0..i and leaves the deepest triangle at slot i |
| Frame.Exchange | src/main.c:206-210 | one compare-and-swap: when slot i is shallower than slot j the two trade places, otherwise nothing changes; every other slot is kept, the multiset is kept, and slot i ends at least as deep as both entries |
| Frame.Transform | src/main.c:138-145 | rotate about x, then y, then z, then z += 5; with true (sin, cos) pairs the vertex keeps its distance from the mesh centre at (0, 0, 5) |
| Frame.Project | src/main.c:102-107 | x * z == 640 * point.x and y * z == 640 * point.y; needs z != 0 |
| Frame.ProjectAlongRay | src/main.c:102-107 | points on one ray from the camera project to the same point |
| Frame.ToScreen | src/main.c:184-185 | the projected origin, and only it, lands at the window's centre; subtracting the centre gives back the projected point |
| Frame.AheadLandsInMiddle | src/main.c:178-186 | a point straight ahead lands in the middle of the window |
| Frame.AvgDepth | src/main.c:195 | the average depth lies between the smallest and the largest z |
| Frame.FacesAwayIsPlainSign | src/main.c:151-175 | the culling test after the three normalisations is the sign of (AB x AC) . (camera - A) |
| Frame.FaceTriangle | src/main.c:177-196 | the pushed triangle carries the face's colour |
| Frame.OneTrianglePerKeptFace | src/main.c:126-200 | one triangle per face not dropped by culling; with culling off, every face gives one |
| Frame.VisibleFromKeptFaces | src/main.c:126-200 | every pushed triangle is the projection of a face that culling keeps |
| Frame.ProjectFaces | src/main.c:126-200 | the face loop pushes exactly the visible triangles, in face order |
| Frame.Update | src/main.c:120-212 | the rotation advances by 0.01 on every axis; the result is sorted by depth and a permutation of the visible triangles under the current culling mode |

## Left out

- Vector.Vec2Normalized: requires a non-zero length. `vec2_normalize` divides by the length unguarded (src/vector.c:45-49), so for a zero vector C's float division gives NaN components. Vector.Vec3Normalized requires the same, for `vec3_normalize` (src/vector.c:110-115).
- SDL plumbing is not modelled: the window, the renderer, the texture upload, input handling, `setup`, `render` and `main`. The frame delay in `update` is not modelled either. These are I/O.
- `sin`, `cos`, `tan` and `sqrt` are parameters and are not computed. Floating-point rounding is not modelled: `float` is `real`.
- File reading and `sscanf` in `load_obj_file_data` are not modelled. Lines come in already split into a `Line` record. The missing check on `fopen` and the PNG texture loading are not modelled; those are I/O.
- `draw_line`, `draw_triangle`, `fill_flat_bottom_triangle` and `fill_flat_top_triangle` are not modelled, because they only forward to `draw_line`, whose body is not part of this model. The same goes for the part of `draw_filled_triangle` after its sort. Its split point `(mx, my)` is modelled as `Triangle.SplitX`.
- `array_push`, `int_swap` and `float_swap` are not part of this model. They are taken as sequence append and value swap.
- The `z_buffer` declaration is not part of this model. It is a field of `Display.Canvas`, initialised to depth 1.0.
- src/clipping.h is not part of this model. The capacity `MAX_NUM_POLYGON_VERTICES` is taken as 10. The plane indices LEFT .. FAR are taken as 0 .. 5, in declaration order.
- `D_TEXTURED` has no value in src/config.h. It is modelled as a fifth distinct bit, 16.
- Display.Canvas.DrawPixel: requires x, y >= 0. The source does not reject negative coordinates, which would write before the buffer.
- Display.Canvas.DrawPixel: requires a colour buffer. `draw_pixel` has no NULL check, unlike `draw_grid`, `draw_rect` and `clear_color_buffer`; a write through a NULL buffer is not modelled.
- Display.Canvas.DrawGrid: requires cell_width, cell_height > 0. The source takes `x % cell_width` and `y % cell_height` unguarded, which is undefined for 0; negative cell sizes, which C's truncating `%` would accept, are not modelled. Its one caller passes 100 and 100 (src/main.c:216).
- Display.Canvas.constructor: requires a window of positive width and height. The source takes the size from the display mode and does not check it.
- Display.Canvas.DrawPixel: the message `draw_pixel` prints to stderr for a pixel right of or below the window is not modelled; that case only changes nothing.
- Display.Canvas.DrawRect: requires x, y >= 0. Its one caller passes the vertex position minus 1 (src/main.c:235-240), which is -1 for a vertex in column or row 0. The source then writes at a negative column, which lands in the previous row (or before the buffer on row 0). That write is not modelled.
- Matrix.MakePerspective: requires tan(fov / 2) != 0 and zfar != 0. The source divides by both unguarded; with float division by zero it would produce inf or NaN entries, which `real` cannot represent.
- Matrix.MakePerspectiveIntended: requires tan(fov / 2) != 0 and znear != zfar, for the same reason.
- Frame.Project: requires z != 0. The source divides by z unguarded.
- Triangle.BarycentricWeights: requires a non-zero area. The source divides by the area unguarded.
- Triangle.DrawTexelPerspectiveCorrect: requires a non-zero interpolated 1/w. The source divides by it unguarded.
- Triangle.DrawTexelPerspectiveCorrect: requires x, y >= 0, non-zero w at the corners, a non-zero area, texture_width and texture_height > 0, and a texture of texture_width * texture_height texels. The source takes `% texture_width` and `% texture_height` and indexes `texture` unchecked (src/triangle.c:143-152), and divides by the area and by each w. The same texture preconditions are on Triangle.DrawTexturedTriangle, and through it on Triangle.DrawFilledTriangleWithZBufferHacky (which sets the size to 1 x 1 itself).
- Triangle.DrawTexel: requires x, y >= 0, a non-zero area, texture_width and texture_height > 0, and a texture of texture_width * texture_height texels. The source checks none of these (src/triangle.c:55-75).
- Triangle.TexelIndex: requires size > 0, for the same `%` by the texture size. Triangle.AffineTexel and Triangle.PerspectiveTexel carry the same requirement on both sizes.
- Triangle.DrawTrianglePixel: requires x, y >= 0 and non-zero w at the corners and a non-zero area. The source divides by them unguarded.
- Triangle.DrawTrianglePixel: requires the depth index to lie inside the buffer. The source does not check it.
- Triangle.DrawTexturedTriangle: requires the texture not to be the colour buffer. Aliasing between them is not modelled.
- Triangle.DrawHalf: requires all three vertices to lie on the screen, so every span column lies inside the window. What the source does with a column outside it is not modelled, and it differs from writer to writer:
  - `draw_pixel` skips x >= win_width and leaves the colour buffer unchanged, but it does not check negative columns (src/display.c:60-66).
  - `draw_triangle_pixel` tests and writes the depth at `win_width * y + x` unchecked (src/triangle.c:100-106). A column past the right edge is a pixel of the next row, which lies outside the buffer only on the last row.
  - `draw_texel_perspective_correct` takes that index modulo win_width * win_height (src/triangle.c:149-154). A column past the edge wraps to another pixel's depth; a negative index stays negative under C's `%`.

  The same precondition is on Triangle.DrawFilledTriangleWithZ, Triangle.DrawTexturedTriangle and Triangle.DrawFilledTriangleWithZBufferHacky.
- Triangle.DrawFilledTriangleWithZ: requires DepthDefined: wherever the triangle has a pixel, its corners have non-zero screen area and non-zero w. The source divides by the area and by w unguarded, which in float gives inf or NaN depths; a degenerate triangle with no pixel at all is allowed.
- Triangle.DrawTexturedTriangle: requires PerspectiveDefined: as DepthDefined, and moreover a non-zero interpolated 1/w on every pixel of the triangle, which the source divides by.
- Triangle.DrawFilledTriangleWithZBufferHacky: requires PerspectiveDefined, as it calls Triangle.DrawTexturedTriangle.
- Clipping.Polygon.ClipAgainstPlane: requires the clipped polygon to fit the capacity. The source does not check it.
- Clipping.Polygon.ClipPolygon: requires the polygon to fit the capacity after each of the six planes, for the same reason.
- Clipping.Polygon.TrianglesFromPolygon: requires the caller's array to hold all num_vertices - 2 triangles. The source writes `triangles[i]` unchecked (src/clipping.c:163-174).
- Clipping.Polygon.Walk: on a polygon with no vertices the source reads `vertices[-1]` before the loop, which then does not run; the model uses the distance 0.0 there instead of reading out of bounds. The result, an empty polygon, is the same.
- Clipping.Polygon.TrianglesFromPolygon: gives no triangle for one or two corners. The source's behaviour there is the finding below.
- Frame.Update: requires every face's indices to lie in range and every transformed z to be non-zero. When culling is on, it also requires the three normalised lengths to be non-zero. The source checks none of these.
- Frame.SortByDepth: the list of projected triangles is a `seq` value that the loop reassigns, not the source's growable array. Aliasing of that array is not captured.
- Frame.Update: the frame-delay wait and the reset of the triangle list are not modelled.
- Mesh.MeshData.LoadObj: stores the corrected 1-based indices (see Findings). The as-written rebasing is Mesh.ObjFaceAsWritten.
- Mesh.MeshData.LoadObj: requires TexIndicesValid: every texture index on a face line names one of the `vt` lines read before it. The source reads `tex_coords[tex_index - 1]` unchecked (src/mesh.c:109-111); an index out of range reads outside the array. Mesh.ObjFace has the same precondition.

## Findings

| source | as written | input that shows it | evidently intended | confidence | as-written member | corrected member |
|---|---|---|---|---|---|---|
| src/matrix.c:74-75 | `zfar / zfar - znear` and `-znear * zfar / zfar - znear` parse as `1 - znear` and `-2 znear` | any znear > 0: a point on the near plane gets depth -1 - znear instead of 0 | `zfar / (zfar - znear)` and `-znear * zfar / (zfar - znear)`, mapping near to 0 and far to 1 | not executed; precedence of the C expression | Matrix.PerspectiveNearDepthAsWritten | Matrix.PerspectiveIntendedDepthRange |
| src/clipping.c:163 | `i < polygon->num_vertices - 2` compares a `size_t` with an `int` that is -1 for one corner | a triangle with one corner inside a plane and the other two exactly on it clips to one corner; the loop bound becomes 2^64 - 1 | no triangle for fewer than three corners | not executed; follows from the usual arithmetic conversions | Clipping.SingleCornerWraps | Clipping.TriangleCountBounded |
| src/mesh.c:109-111 | OBJ face indices are stored as value - 1, and src/main.c:130-132 subtracts 1 again | any OBJ face naming vertex 1 is fetched from slot -1 | keep the indices 1-based, as the cube tables do | not executed; the shipped setup loads an OBJ model | Mesh.ObjFaceFetchedOneTooLow | Mesh.ObjFacesFetchInRange |
