# simple3d core in Dafny

This project models the core of simple3d, a small software 3D renderer written in Java.
It covers the geometry the renderer is built on:

- `Vector3D`: a homogeneous point or direction with x, y, z, w, updated in place.
- `Matrix4x4`: a 4x4 matrix over a `double[4][4]`, with its transforms, `pointAt` and `quickInverse`.
- `Color`: a colour and its `#RRGGBB` text.
- `Polyface3D`: a polygon with a normal, plus its classification against a plane and its split by a plane.
- `BSPNode`: the binary space partitioning tree, its cost-driven build and its back-to-front traversal.
- `Mesh`:
  - the orientation, manifold and connectivity checks;
  - the index part of `sanityCheck`;
  - the built-in shapes;
  - `extrudePolygonMesh`.
- `Engine3D`:
  - the mesh table and the camera position and its movement;
  - the collection of world-space faces and their colours in `setupScene`, and the BSP build that follows it;
  - near-plane clipping, `transformAndScreenMap`, and `printOnce`.

Modelling conventions:

- A Java `double` is a Dafny `real`. Every statement is about exact arithmetic.
- `Math.sqrt` is a parameter `sqrt: real -> real`. Lemmas that need a true square root say so with `IsSqrt`.
- Values a method only reads are Dafny values (`Vec4`, `Face`, `Mesh`, `seq`).
- Objects whose fields are updated in place are classes: `Vector3D`, `Matrix4x4` over an `array2<real>`, `Engine3D` and the message log.
- Java exceptions and `null` results are `Result` and `Option` values. Each error case of the source has its own error constructor.
- Java `int` arithmetic is written out where it can wrap: `Meshes.Int32`, and the extrusion's `idx + n`.
- `BSPNode` is generic over the polygon type:
  - plane classification, the coplanar tie-break, splitting and the camera test are parameters;
  - `Engine` instantiates them with the `Polyface3D` operations and proves that these satisfy the tree's invariant.

The modules follow the source files:

| file | module | models |
|---|---|---|
| `wrappers.dfy` | `Wrappers` | `Option`, `Result` |
| `arith.dfy` | `Arithmetic` | nonlinear helper lemmas |
| `vector.dfy` | `Vectors` | `Vector3D.java` |
| `matrix.dfy` | `Matrices` | `Matrix4x4.java` |
| `color.dfy` | `Colors` | `Color.java` |
| `polyface.dfy` | `Polyfaces` | `Polyface3D.java` |
| `bsp.dfy` | `Bsp` | `BSPNode.java` |
| `mesh.dfy` | `Meshes` | `Mesh.java`: checks, connectivity, `sanityCheck` |
| `shapes.dfy` | `Shapes` | `Mesh.java`: `getShapeInstance` and the `create*` generators |
| `extrude.dfy` | `Extrusion` | `Mesh.java`: `extrudePolygonMesh` |
| `engine.dfy` | `Engine` | `Engine3D.java` |

## Model

| member | source | states |
|---|---|---|
| Vectors.DotSymmetric | simple3d/Vector3D.java:127-129 | the dot product is symmetric and ignores the w of both operands |
| Vectors.SqMag | simple3d/Vector3D.java:131-133 | the squared magnitude is the vector's dot product with itself |
| Vectors.Cross | simple3d/Vector3D.java:135-140 | the cross product is a point (w = 1) orthogonal to both operands |
| Vectors.Normalized | simple3d/Vector3D.java:112-125 | normalising keeps w and leaves a zero-length vector unchanged |
| Vectors.NormalizedIsUnit | simple3d/Vector3D.java:112-125 | with a true square root, a non-zero vector normalises to squared length 1 |
| Vectors.UnitLength | simple3d/Vector3D.java:117-125 | dividing x, y, z by a length whose square is the squared magnitude gives squared length 1 |
| Vectors.DotScaledZero | simple3d/Vector3D.java:95-101 | scaling a vector keeps it orthogonal to any vector it was orthogonal to |
| Vectors.NormalizedOrthogonal | simple3d/Vector3D.java:117-125 | normalising keeps orthogonality |
| Vectors.SqMagScaled | simple3d/Vector3D.java:95-101 | scaling by s multiplies the squared magnitude by s * s |
| Vectors.Vector3D.constructor | simple3d/Vector3D.java:39-44 | the three-argument constructor builds a point: the given x, y, z and w = 1 |
| Vectors.Vector3D.Homogeneous | simple3d/Vector3D.java:46-51 | the four-argument constructor stores all four components as given |
| Vectors.Vector3D.Set | simple3d/Vector3D.java:53-59 | set(x, y, z) stores the components and resets w to 1 |
| Vectors.Vector3D.SetFrom | simple3d/Vector3D.java:61-67 | set(other) copies all four components, w included |
| Vectors.Vector3D.Add | simple3d/Vector3D.java:70-75 | in-place addition of x, y, z from the old values, also when other is this; w unchanged |
| Vectors.Vector3D.Subtract | simple3d/Vector3D.java:78-83 | in-place subtraction of x, y, z, also when other is this; w unchanged |
| Vectors.Vector3D.SubtractInto | simple3d/Vector3D.java:86-92 | result = this - other with result.w = this.w; an operand distinct from result is untouched |
| Vectors.Vector3D.Multiply | simple3d/Vector3D.java:95-101 | scales x, y, z in place and keeps w |
| Vectors.Vector3D.Divide | simple3d/Vector3D.java:104-110 | divides x, y, z by a non-zero scalar and keeps w; multiplying back gives the old vector |
| Vectors.Vector3D.Normalize | simple3d/Vector3D.java:112-125 | the new value is the normalised old value; a zero-length vector stays as it is |
| Vectors.Vector3D.DotWith | simple3d/Vector3D.java:127-129 | dot equals the symmetric dot product of the two values |
| Vectors.Vector3D.SquaredMagnitude | simple3d/Vector3D.java:131-133 | squaredMagnitude is the dot product with itself and is never negative |
| Vectors.Vector3D.CrossWith | simple3d/Vector3D.java:135-140 | cross returns a fresh point orthogonal to both operands |
| Vectors.Vector3D.Clone | simple3d/Vector3D.java:143-145 | clone returns a fresh vector with the same four components |
| Matrices.IdentityIsIdentity | simple3d/Matrix4x4.java:62-68 | the identity passes the isIdentity test, and it is the only matrix that does |
| Matrices.MulIdentity | simple3d/Matrix4x4.java:161-173 | the identity is a unit on both sides of the matrix product |
| Matrices.TranslationMoves | simple3d/Matrix4x4.java:70-76 | applyTranslation on an identity gives the translation; a point (w = 1) moves by (x, y, z), a direction (w = 0) does not, and w is kept |
| Matrices.ScalingScales | simple3d/Matrix4x4.java:78-84 | applyScale on an identity gives the scaling; each coordinate is scaled by its factor and w is kept |
| Matrices.QuickInverseIsInverse | simple3d/Matrix4x4.java:218-234 | for a rigid matrix (orthonormal rotation rows, last column (0, 0, 0, 1)), a . quickInverse(a) is the identity |
| Matrices.ProjectionCarriesDepth | simple3d/Matrix4x4.java:133-144 | a projected point's w is its depth z and its z becomes z - 1; this is the w the near-plane clipper compares |
| Matrices.RejectionOrthogonal | simple3d/Matrix4x4.java:197-203 | up minus its projection onto the unit forward vector is orthogonal to forward |
| Matrices.AxesOrthonormal | simple3d/Matrix4x4.java:188-203 | pointAt's forward and new up are unit vectors at right angles, given a camera not at its target and an up not parallel to the view |
| Matrices.GramSchmidtStep | simple3d/Matrix4x4.java:197-203 | removing the part along a unit f and normalising gives a unit vector orthogonal to f |
| Matrices.PointAtIsRigid | simple3d/Matrix4x4.java:188-213 | under the same conditions pointAt builds a rigid matrix, so quickInverse yields the true view matrix |
| Matrices.FrameRigid | simple3d/Matrix4x4.java:205-212 | unit, orthogonal up and forward with right = up x forward make a rigid frame over any position |
| Matrices.Matrix4x4.constructor | simple3d/Matrix4x4.java:37-41 | a new matrix holds sixteen zeros |
| Matrices.Matrix4x4.CreateIdentity | simple3d/Matrix4x4.java:43-50 | createIdentity returns a fresh identity matrix, which passes isIdentity |
| Matrices.Matrix4x4.SetIdentity | simple3d/Matrix4x4.java:52-60 | setIdentity overwrites every entry with the identity's |
| Matrices.Matrix4x4.IsIdentity | simple3d/Matrix4x4.java:62-68 | true exactly when every entry matches the identity, i.e. iff the matrix is the identity |
| Matrices.Matrix4x4.MultiplyVector | simple3d/Matrix4x4.java:147-158 | result = v . M computed from the old v, so result may be v itself |
| Matrices.Matrix4x4.Multiply | simple3d/Matrix4x4.java:161-173 | result = this . other from the old entries, also when result is this or other |
| Matrices.Matrix4x4.ProductTable | simple3d/Matrix4x4.java:163-169 | the temporary buffer holds every row-by-column product |
| Matrices.Matrix4x4.CopyFrom | simple3d/Matrix4x4.java:170-172 | the row copies bring every buffer entry into the matrix |
| Matrices.Matrix4x4.ApplyTranslation | simple3d/Matrix4x4.java:70-76 | the matrix becomes old . T(x, y, z) |
| Matrices.Matrix4x4.ApplyScale | simple3d/Matrix4x4.java:78-84 | the matrix becomes old . S(sx, sy, sz) |
| Matrices.Matrix4x4.TransformInPlace | simple3d/Matrix4x4.java:178-182 | every vertex becomes its old value times the matrix, for distinct vertex objects |
| Matrices.Matrix4x4.CreateProjection | simple3d/Matrix4x4.java:133-144 | the result is cleared and holds the projection: the five set entries, zeros elsewhere |
| Matrices.Matrix4x4.NewProjection | simple3d/Matrix4x4.java:126-130 | a fresh matrix holding the projection |
| Matrices.Matrix4x4.PointAt | simple3d/Matrix4x4.java:188-213 | the result is the camera frame: right, up, forward rows, last column (0, 0, 0, 1), position in row 3 |
| Matrices.Matrix4x4.QuickInverse | simple3d/Matrix4x4.java:218-234 | the result is the quick inverse of the old entries, also when result is this |
| Matrices.Matrix4x4.QuickInverted | simple3d/Matrix4x4.java:237-241 | a fresh matrix holding the quick inverse |
| Colors.Low8 | simple3d/Color.java:81-84 | `x & 0xFF` is a byte, and is x itself for a byte |
| Colors.Packed | simple3d/Color.java:81-83 | the combined value (r << 16 | g << 8 | b) is a 24-bit number |
| Colors.HexDigits | simple3d/Color.java:83 | exactly k upper-case hex digits |
| Colors.ToString | simple3d/Color.java:81-84 | toString is '#' followed by six upper-case hex digits |
| Colors.ToStringUsesLowBytes | simple3d/Color.java:81-84 | only the low 8 bits of each component reach the text |
| Colors.Trim | simple3d/Color.java:74 | trim never lengthens, and a non-empty result has no blank at either end |
| Colors.TrimUnblanked | simple3d/Color.java:74 | a text with no blank at either end is its own trim |
| Colors.TrimLeft | simple3d/Color.java:74 | the left trim is a suffix that starts with a non-blank, if anything is left |
| Colors.TrimRight | simple3d/Color.java:74 | the right trim is a prefix that ends with a non-blank, if anything is left |
| Colors.TrimLeftBlanks | simple3d/Color.java:74 | leading blanks do not change the left trim |
| Colors.TrimRightBlanks | simple3d/Color.java:74 | trailing blanks do not change the right trim |
| Colors.ParseHexInt | simple3d/Color.java:74 | `Integer.parseInt(s, 16)`: a success fits in an int, the only failure is a number format error, unsigned text is non-negative |
| Colors.Unpack | simple3d/Color.java:76-78 | the parser's three components are bytes |
| Colors.Parse | simple3d/Color.java:67-79 | every parsed colour has components in [0, 255] |
| Colors.HexRoundTrip | simple3d/Color.java:83 | the k hex digits of n read back as n modulo 16^k |
| Colors.UnpackPacked | simple3d/Color.java:76-82 | unpacking the combined 24-bit value gives the low bytes of the three components |
| Colors.DigitsParse | simple3d/Color.java:74 | six hex digits of a 24-bit value parse back to that value |
| Colors.ToStringDigits | simple3d/Color.java:81-84 | toString's digits follow the '#', and it starts and ends with a non-blank |
| Colors.ParseTrimmed | simple3d/Color.java:73-79 | a text with nothing to trim is read from its second character on |
| Colors.ParseToString | simple3d/Color.java:67-84 | parse(toString(c)) succeeds and recovers the low byte of each component |
| Colors.ParseToStringExact | simple3d/Color.java:67-84 | for components in [0, 255] the round trip is exact |
| Colors.ParseIgnoresBlanks | simple3d/Color.java:73-74 | surrounding blanks do not change what parse returns |
| Colors.ParseDropsFirstCharacter | simple3d/Color.java:74 | parse never checks for '#': any first character is dropped |
| Colors.ParseBlank | simple3d/Color.java:74 | a blank text makes substring(1) throw |
| Colors.ParseNegative | simple3d/Color.java:74-78 | a negative number is read in two's complement: "#-1" is white |
| Polyfaces.Code | simple3d/Polyface3D.java:46-49 | classification codes are 0 to 3 |
| Polyfaces.CodesDistinct | simple3d/Polyface3D.java:46-49 | the four codes are distinct |
| Polyfaces.RawNormal | simple3d/Polyface3D.java:84-96 | the unnormalised normal has w = 1 and is orthogonal to the edges v1 - v0 and v2 - v0 |
| Polyfaces.NewPolyface | simple3d/Polyface3D.java:38-42 | the constructor keeps the vertices and the colour, and the normal has w = 1 |
| Polyfaces.NormalOrthogonalToEdges | simple3d/Polyface3D.java:84-99 | the stored (normalised) normal is orthogonal to the first two edges |
| Polyfaces.Distances | simple3d/Polyface3D.java:57-66 | one signed distance to the splitter's plane per vertex |
| Polyfaces.CountFrontPositive | simple3d/Polyface3D.java:59-73 | numFront > 0 iff some vertex is more than EPSILON in front |
| Polyfaces.CountBackPositive | simple3d/Polyface3D.java:59-73 | numBack > 0 iff some vertex is more than EPSILON behind |
| Polyfaces.ClassOfCases | simple3d/Polyface3D.java:75-78 | FRONT, BACK, COPLANAR and SPANNING, each iff its condition on the distances |
| Polyfaces.ClassOfOrderFree | simple3d/Polyface3D.java:56-79 | classify does not depend on the order of the vertices |
| Polyfaces.Classify | simple3d/Polyface3D.java:56-79 | the counting loop returns the classification, a code in 0..3 |
| Polyfaces.TriangleCoplanarWithItself | simple3d/Polyface3D.java:56-99 | a triangle classified against itself is COPLANAR |
| Polyfaces.SignedDistLerp | simple3d/Polyface3D.java:226-233 | the signed distance is affine along a segment |
| Polyfaces.IntersectPlane | simple3d/Polyface3D.java:200-234 | null iff the segment is nearly parallel or t is within EPSILON of an end; otherwise the interpolated point at t |
| Polyfaces.IntersectionOnPlane | simple3d/Polyface3D.java:200-234 | the point intersectPlane returns lies exactly on the plane |
| Polyfaces.SplitFace | simple3d/Polyface3D.java:183-189 | a piece is made iff its side collected at least three vertices; it has those vertices and x's colour |
| Polyfaces.Split | simple3d/Polyface3D.java:140-190 | split appends those pieces: at most one to each list, nothing else changes |
| Polyfaces.SplitEdge | simple3d/Polyface3D.java:146-180 | one edge's body adds exactly the vertices of the walk's step to each side |
| Polyfaces.ClassificationSides | simple3d/Polyface3D.java:56-79 | FRONT means not behind, BACK means not ahead, COPLANAR both (within EPSILON) |
| Polyfaces.FrontStepOwnSide | simple3d/Polyface3D.java:157-180 | one edge adds at most two vertices to the front list, none of them behind the plane |
| Polyfaces.BackStepOwnSide | simple3d/Polyface3D.java:157-180 | one edge adds at most two vertices to the back list, none of them ahead of the plane |
| Polyfaces.StepInheritsAtLeast | simple3d/Polyface3D.java:163-179 | what one edge adds keeps any lower distance bound both ends have for another plane |
| Polyfaces.StepInheritsAtMost | simple3d/Polyface3D.java:163-179 | the same for an upper bound |
| Polyfaces.FrontWalkOwnSide | simple3d/Polyface3D.java:145-181 | the front vertex list lies on the front side and has at most two vertices per edge |
| Polyfaces.BackWalkOwnSide | simple3d/Polyface3D.java:145-181 | the back vertex list lies on the back side and has at most two vertices per edge |
| Polyfaces.WalkInheritsAtLeast | simple3d/Polyface3D.java:145-181 | both vertex lists keep a lower distance bound the input has for another plane |
| Polyfaces.WalkInheritsAtMost | simple3d/Polyface3D.java:145-181 | both vertex lists keep an upper distance bound the input has for another plane |
| Polyfaces.SplitSound | simple3d/Polyface3D.java:140-190 | the front piece is not behind the splitter and the back piece is not ahead of it |
| Polyfaces.SplitHereditary | simple3d/Polyface3D.java:140-190 | both pieces keep whatever side of any other plane the split polygon was on |
| Polyfaces.SplitSizes | simple3d/Polyface3D.java:145-181 | each side gets at most twice as many vertices as the polygon has |
| Polyfaces.FrontWalkKeepsAll | simple3d/Polyface3D.java:145-181 | with no vertex behind, the front walk keeps every vertex, in order |
| Polyfaces.BackWalkKeepsAll | simple3d/Polyface3D.java:145-181 | with no vertex ahead, the back walk keeps every vertex, in order |
| Polyfaces.SplitOneSided | simple3d/Polyface3D.java:140-190 | a polygon wholly on one side comes back unchanged on that side |
| Bsp.DepthAtMostSize | simple3d/BSPNode.java:74-80 | deepness is at most size, and at least 1 for a node |
| Bsp.MembersSize | simple3d/BSPNode.java:74-76 | size counts exactly the splitters stored in the tree |
| Bsp.CountsPartition | simple3d/BSPNode.java:52-65 | every polygon but the candidate falls in exactly one of the four counts |
| Bsp.CostBounds | simple3d/BSPNode.java:67-71 | the cost lies in [0, 11 (n - 1)] |
| Bsp.CoplanarIgnored | simple3d/BSPNode.java:62-64 | adding a polygon coplanar with the candidate does not change its cost |
| Bsp.CalculateCost | simple3d/BSPNode.java:47-72 | the counting loop returns the balance and split penalty of the candidate |
| Bsp.Step | simple3d/BSPNode.java:94-95 | the sampling stride lies in [1, n] and is 1 when the list has at most MAX_CANDIDATES polygons |
| Bsp.AllCandidatesWhenSmall | simple3d/BSPNode.java:94-97 | with at most MAX_CANDIDATES polygons every polygon is a candidate |
| Bsp.ScanChoosesBest | simple3d/BSPNode.java:97-106 | the scan ends with the earliest candidate of least cost |
| Bsp.ChooseIsBest | simple3d/BSPNode.java:91-110 | a non-empty list always gets a splitter: a sampled candidate of least cost, earlier than any other of that cost |
| Bsp.ChooseSplitter | simple3d/BSPNode.java:91-106 | the candidate loop returns that splitter |
| Bsp.PartitionUpTo | simple3d/BSPNode.java:116-138 | after k polygons, each list has at most one entry per polygon other than the splitter |
| Bsp.Partition | simple3d/BSPNode.java:116-138 | the partition loop returns the front and back lists of the whole list |
| Bsp.PartitionStep | simple3d/BSPNode.java:119-134 | a polygon that is not SPANNING goes to exactly one list, or to none if it is the splitter |
| Bsp.PartitionNoSpanning | simple3d/BSPNode.java:116-138 | without SPANNING polygons, the lists and the splitter hold exactly the polygons seen so far |
| Bsp.PartitionKeepsPolygons | simple3d/BSPNode.java:116-138 | without SPANNING pairs, lists plus splitter are the input as a multiset, and the lists again have no SPANNING pair |
| Bsp.Build | simple3d/BSPNode.java:85-145 | build returns the recursively built tree (Empty for null) |
| Bsp.BuildRoot | simple3d/BSPNode.java:85-113 | an empty list gives null; otherwise a node whose splitter is the chosen candidate |
| Bsp.BuildKeepsPolygons | simple3d/BSPNode.java:85-145 | without SPANNING pairs the tree holds exactly the input polygons, so size() is the list length |
| Bsp.PartitionSides | simple3d/BSPNode.java:116-138 | with sound classify and split, front entries are not behind and back entries not ahead of the splitter |
| Bsp.PartitionInherits | simple3d/BSPNode.java:116-138 | any side of another plane that all inputs share holds for both lists |
| Bsp.BuildInherits | simple3d/BSPNode.java:85-145 | every polygon in a built tree keeps a side of a plane that all inputs share |
| Bsp.BuildPartitioned | simple3d/BSPNode.java:85-145 | build produces a BSP tree: at every node the front subtree is not behind and the back subtree is not ahead of the splitter |
| Bsp.Traverse | simple3d/BSPNode.java:152-168 | traverse appends the tree's drawing order and keeps what drawList held |
| Bsp.OrderIsPermutation | simple3d/BSPNode.java:152-168 | traversal draws every stored polygon exactly once |
| Bsp.OrderCameraIndependent | simple3d/BSPNode.java:152-168 | any two camera positions draw the same polygons |
| Bsp.PainterOrder | simple3d/BSPNode.java:152-168 | in a BSP tree, what is drawn before a splitter is on its far side from the camera and what is drawn after it on the camera's side |
| Meshes.PolyEdges | simple3d/Mesh.java:169-176 | one edge per index, starting with last -> first |
| Meshes.EdgesInRange | simple3d/Mesh.java:165-176 | the edges of in-range polygons join in-range vertices |
| Meshes.CodeAsWrittenCollides | simple3d/Mesh.java:171 | with 65537 vertices the 32-bit codes of 0 -> 65536 and 65536 -> 0 are equal |
| Meshes.CodeDecodes | simple3d/Mesh.java:171 | the exact code prev + vidx * n decodes back into the edge |
| Meshes.CodeInjective | simple3d/Mesh.java:171 | the exact code is injective on edges within [0, n) |
| Meshes.CodeAsWrittenForSmallMeshes | simple3d/Mesh.java:171 | the 32-bit code equals the exact one while n <= 46340 |
| Meshes.DistinctCodesIff | simple3d/Mesh.java:165-179 | for in-range edges, distinct codes iff no directed edge repeats |
| Meshes.SegmentsDistinct | simple3d/Mesh.java:165-179 | the segment-set walk gets through iff no code repeats, and then it holds all the codes |
| Meshes.AddPolygonCodes | simple3d/Mesh.java:169-176 | the inner loop over one polygon fails exactly when the walk meets a repeated code |
| Meshes.NoneAfterRepeat | simple3d/Mesh.java:172-173 | once a code repeats the answer is false whatever follows |
| Meshes.CheckCorrectness | simple3d/Mesh.java:165-179 | checkCorrectness is true iff no edge code repeats |
| Meshes.TogglePolygon | simple3d/Mesh.java:186-196 | the inner loop toggles each edge of one polygon |
| Meshes.ToggleEdge | simple3d/Mesh.java:188-194 | an edge cancels its stored reverse, or is stored itself |
| Meshes.CheckManifold | simple3d/Mesh.java:182-199 | checkManifold is true iff the toggled segment set ends empty |
| Meshes.TogglesAreUnmatched | simple3d/Mesh.java:182-199 | with no repeated directed edge, the final set is exactly the codes of edges whose reverse is missing |
| Meshes.UnmatchedEmpty | simple3d/Mesh.java:198 | no unmatched edge iff every edge joins two vertices and has its reverse |
| Meshes.ManifoldIff | simple3d/Mesh.java:182-199 | for a mesh passing checkCorrectness, checkManifold holds iff every directed edge is matched by its reverse: a closed surface |
| Meshes.Singletons | simple3d/Mesh.java:206-208 | each vertex starts in its own group |
| Meshes.MergeBounded | simple3d/Mesh.java:213-228 | a merge keeps every label in [0, own index] and never raises one |
| Meshes.RelabelBounded | simple3d/Mesh.java:210-231 | the same for all edges |
| Meshes.Changes | simple3d/Mesh.java:232-239 | at most k - 1 label changes among the first k vertices |
| Meshes.UnconnectedPartsBounds | simple3d/Mesh.java:202-241 | 0 below two vertices; otherwise at most n - 1, and exactly n - 1 with no polygons |
| Meshes.UnconnectedLabels | simple3d/Mesh.java:206-231 | labels stay in [0, own index], never increase, and vertex 0 stays in group 0 |
| Meshes.RelabelPolygon | simple3d/Mesh.java:211-230 | the inner loop merges the groups along every edge of one polygon |
| Meshes.MergeEdge | simple3d/Mesh.java:213-228 | one edge moves the larger group to the smaller label, a singleton alone or a whole group |
| Meshes.CountChanges | simple3d/Mesh.java:232-239 | the final loop counts the label changes along the vertex indices |
| Meshes.GetNumberUnconnectedParts | simple3d/Mesh.java:202-241 | getNumberUnconnectedParts returns the label-change count of the merged groups |
| Meshes.ScanIndexesIff | simple3d/Mesh.java:256-263 | the index walk passes iff every remaining index is in [0, n); an index error names an index of the polygon that is >= n |
| Meshes.CheckPolygonIff | simple3d/Mesh.java:253-259 | a polygon passes iff it has at least three indices, all in range; errors report the offending count or index |
| Meshes.SanityIndexesIff | simple3d/Mesh.java:252-259 | the index part of sanityCheck passes iff every polygon has at least three in-range indices; an error names a real offender |
| Meshes.WellIndexedPasses | simple3d/Mesh.java:252-259 | a well-indexed mesh passes, and its polygons are non-empty and in range |
| Meshes.SanityCheck | simple3d/Mesh.java:252-259 | the loop reports the first arity or index error, or none |
| Shapes.CubeEdges | simple3d/Mesh.java:342-347 | the cube's 24 directed edges, polygon by polygon |
| Shapes.PyramidEdges | simple3d/Mesh.java:314-323 | the pyramid's 16 directed edges |
| Shapes.CubeIsClosed | simple3d/Mesh.java:329-351 | the cube passes checkCorrectness and checkManifold |
| Shapes.PyramidIsClosed | simple3d/Mesh.java:302-327 | the pyramid passes checkCorrectness and checkManifold |
| Shapes.SquareEdges | simple3d/Mesh.java:483-497 | the square's four directed edges |
| Shapes.SquareIsOpen | simple3d/Mesh.java:483-497 | the square passes checkCorrectness but not checkManifold |
| Shapes.CreateCone | simple3d/Mesh.java:353-385 | createCone returns the cone topology, or the N < 4 error |
| Shapes.ConeShape | simple3d/Mesh.java:353-385 | the cone has N + 1 vertices, the base then one triangle (i, apex, i + 1 mod N) per side, all indices in range |
| Shapes.CreateCylinder | simple3d/Mesh.java:387-427 | createCylinder returns the cylinder topology, or the N < 4 error |
| Shapes.ConePolygonsLayout | simple3d/Mesh.java:370-382 | the cone polygons are the base ring and one side triangle per base vertex |
| Shapes.ConeWellIndexed | simple3d/Mesh.java:353-385 | for N >= 4 every cone index lies in [0, N + 1) |
| Shapes.CylinderNext | simple3d/Mesh.java:420-421 | the corners (2i + 3) mod 2N and (2i + 2) mod 2N are the top and bottom vertex of the next angle |
| Shapes.CylinderPolygonsLayout | simple3d/Mesh.java:405-424 | the cylinder polygons are the bottom ring, the top ring and one quad per angle |
| Shapes.CylinderWellIndexed | simple3d/Mesh.java:387-427 | every cylinder index lies in [0, 2N) |
| Shapes.CylinderShape | simple3d/Mesh.java:387-427 | the cylinder has 2N vertices, bottom and top rings and N side quads, all indices in range |
| Shapes.SphereVertexCount | simple3d/Mesh.java:432-433 | N * N / 2 - N + 2 is the two poles plus 2 * N4 - 1 rings of N vertices |
| Shapes.AddSphereCap | simple3d/Mesh.java:451-458 | the upper-cap loop appends the N pole triangles |
| Shapes.AddSphereBand | simple3d/Mesh.java:460-467 | a band loop appends N quads between two rings |
| Shapes.AddSpherePole | simple3d/Mesh.java:472-478 | the lower-pole loop appends N triangles around the last vertex |
| Shapes.SphereLatitudes | simple3d/Mesh.java:441-469 | the latitude loop appends the cap and the bands, and fills the vertices up to the lower pole |
| Shapes.CreateSphere | simple3d/Mesh.java:429-481 | createSphere returns the sphere topology, or the N4 < 1 error |
| Shapes.SphereShape | simple3d/Mesh.java:429-481 | the sphere has N * N / 2 - N + 2 vertices and N * N / 2 polygons, all indices in range |
| Shapes.RegularPolygonSize | simple3d/Mesh.java:500-504 | an accepted N is at least 3 |
| Shapes.CreateRegularPolygon | simple3d/Mesh.java:499-524 | createRegularPolygon returns the polygon topology or the argument error |
| Shapes.RegularPolygonShape | simple3d/Mesh.java:499-524 | built iff N is present, a number, an exact int and at least 3; then N vertices and one polygon visiting them in order |
| Shapes.ShapeNamedIff | simple3d/Mesh.java:135-141 | Shape.valueOf finds exactly the enum constants' names |
| Shapes.GetShapeInstance | simple3d/Mesh.java:150-162 | a regular polygon is built from its arguments; the other shapes are the fixed instances |
| Shapes.FixedInstancesWellIndexed | simple3d/Mesh.java:153-161 | every fixed instance is built, with every index in range |
| Shapes.InstancesPass | simple3d/Mesh.java:150-162 | every shape instance that is built passes sanityCheck's index tests |
| Shapes.SquareWellIndexed | simple3d/Mesh.java:483-497 | the square table has every index in [0, 4) |
| Shapes.CubeWellIndexed | simple3d/Mesh.java:329-351 | the cube table has every index in [0, 8) |
| Shapes.PyramidWellIndexed | simple3d/Mesh.java:302-327 | the pyramid table has every index in [0, 5) |
| Shapes.SphereInstance | simple3d/Mesh.java:156 | the fixed sphere (N4 = 4) is built and well indexed, whatever the arguments |
| Shapes.CylinderInstance | simple3d/Mesh.java:157 | the fixed cylinder (N = 16) is built and well indexed |
| Shapes.ConeInstance | simple3d/Mesh.java:158 | the fixed cone (N = 16) is built and well indexed |
| Extrusion.CopyVertices | simple3d/Mesh.java:76-79 | the new array has 2n slots, the source vertices in the lower half and null above |
| Extrusion.FillCap | simple3d/Mesh.java:94-100 | the cap loop shifts every index by n and stores the displaced vertices in the upper half |
| Extrusion.AddWalls | simple3d/Mesh.java:107-117 | the wall loop appends one quad per base edge |
| Extrusion.Flip | simple3d/Mesh.java:120-123 | the flipped base lists the first n indices in reverse |
| Extrusion.ExtrudePolygonMesh | simple3d/Mesh.java:74-130 | extrudePolygonMesh returns the prism or the exception it throws |
| Extrusion.Int32Exact | simple3d/Mesh.java:96 | the int addition is exact when the sum fits |
| Extrusion.CapInRange | simple3d/Mesh.java:94-101 | with the base in range, the cap's indices are idx + n and lie in [0, 2n) |
| Extrusion.WallsInRange | simple3d/Mesh.java:107-117 | with the base in range, every wall is a quad with indices in [0, 2n) |
| Extrusion.FlippedInRange | simple3d/Mesh.java:120-127 | with the base in range, the flipped base is well indexed |
| Extrusion.PrismWellIndexed | simple3d/Mesh.java:74-130 | with the base in range, the prism passes sanityCheck's index tests |
| Extrusion.BaseFromWalls | simple3d/Mesh.java:94-117 | in-range cap and walls force the base indices into [0, n) |
| Extrusion.CapForcesBase | simple3d/Mesh.java:96 | an index in [0, 2n) whose 32-bit sum with n is also in [0, 2n) is below n |
| Extrusion.Int32WrapsOnce | simple3d/Mesh.java:96 | an int sum between 2^31 and 3 * 2^31 wraps once to the negative side |
| Extrusion.PrismWellIndexedOnlyIf | simple3d/Mesh.java:74-130 | a prism that passes has a base of at least three indices, all addressing source vertices |
| Extrusion.ExtrudedOkIff | simple3d/Mesh.java:74-130 | succeeds iff there is one polygon, 3 <= n < 2^30 vertices and the base indices address source vertices |
| Extrusion.DisplacementNormal | simple3d/Mesh.java:87-91 | the displacement is orthogonal to E01 and E12 and, for non-collinear corners, has length abs(distance) |
| Extrusion.ExtrudedVertices | simple3d/Mesh.java:76-100 | the prism's vertices are the source vertices, then each moved by that displacement |
| Extrusion.WallsLayout | simple3d/Mesh.java:107-117 | wall i is (idx[i], idx[i + 1], cap[i + 1], cap[i]) in the base's colour |
| Extrusion.PrismLayoutHolds | simple3d/Mesh.java:93-127 | the prism is the cap, the walls and the reversed base, all in the base's colour |
| Extrusion.ExtrudedPolygons | simple3d/Mesh.java:93-129 | an extruded mesh's polygons follow that layout |
| Engine.Clamp01 | simple3d/Engine3D.java:488 | the clamp lands in [0, 1] and leaves a parameter already there unchanged |
| Engine.IntersectNearPlane | simple3d/Engine3D.java:474-496 | null iff the w values differ by at most EPSILON; otherwise the point has w = Z_NEAR |
| Engine.CrossingIsExact | simple3d/Engine3D.java:474-496 | on an edge crossing the near plane the clamp never acts: the result is the segment's point with w = Z_NEAR |
| Engine.Clipped | simple3d/Engine3D.java:461-465 | a clipped polygon that is returned has at least three vertices |
| Engine.ClipPolygonAgainstPlane | simple3d/Engine3D.java:429-466 | the clipping loop returns the clipped polygon, or null |
| Engine.ClipEdgeVertices | simple3d/Engine3D.java:434-457 | one edge adds the vertices of its case: v2, the crossing, both, or nothing |
| Engine.ClipBound | simple3d/Engine3D.java:429-466 | the result has between 3 and twice the input's vertex count |
| Engine.ClipResultInside | simple3d/Engine3D.java:429-466 | every vertex of a clipped polygon is an inside input vertex or a point on the near plane, so in front of it |
| Engine.ClipAllOutside | simple3d/Engine3D.java:429-466 | a polygon wholly behind the near plane is clipped away |
| Engine.ClipAllInside | simple3d/Engine3D.java:429-466 | a polygon wholly in front comes back rotated left by one, or null below three vertices |
| Engine.ScreenPointBounds | simple3d/Engine3D.java:405-413 | normalised coordinates in [-1, 1] land on the screen, with y turned upside down |
| Engine.ValidityCheckRedundant | simple3d/Engine3D.java:396-419 | the w <= 0 check never rejects: a polygon projects iff it survives clipping, keeping its vertex count |
| Engine.ScreenMap | simple3d/Engine3D.java:396-414 | valid iff every w > 0, and then every vertex is mapped to the screen |
| Engine.TransformAndScreenMap | simple3d/Engine3D.java:377-420 | the projected screen polygon, or null |
| Engine.MovedWhen | simple3d/Engine3D.java:243-260 | UP and DOWN always move the camera, LEFT and RIGHT only without shift, and w never changes |
| Engine.ShiftMovesVertically | simple3d/Engine3D.java:244-250 | with shift, UP and DOWN change only y, by the speed |
| Engine.OppositeUndoes | simple3d/Engine3D.java:243-260 | a move followed by the opposite move at the same yaw and speed returns to the start |
| Engine.ResolveMesh | simple3d/Engine3D.java:135 | a mesh id resolves iff it is in the table, to that mesh |
| Engine.ResolvedMeshHasId | simple3d/Engine3D.java:115-121 | in a table kept by addMesh (each mesh filed under its own id), a node's mesh id resolves to a mesh carrying that id |
| Engine.FaceColor | simple3d/Engine3D.java:143-148 | the node colour without an index, the list entry for an index in range, GRAY otherwise; a negative index into a present list throws |
| Engine.PolygonFace | simple3d/Engine3D.java:137-152 | a face is built iff the indices are in range, the colour resolves and there are at least three vertices; its vertices are moved to world space |
| Engine.PolygonFaceVertices | simple3d/Engine3D.java:138-141 | each face vertex is its mesh vertex times the world matrix |
| Engine.NodeFacesShape | simple3d/Engine3D.java:137-153 | a node yields one face per polygon, in order, iff every polygon yields one |
| Engine.SceneFacesCount | simple3d/Engine3D.java:133-154 | the scene has exactly one face per (node, polygon) pair |
| Engine.NodeSucceeds | simple3d/Engine3D.java:135-153 | a ready node yields its faces without an exception |
| Engine.SceneFacesSucceed | simple3d/Engine3D.java:133-154 | setupScene collects its faces without an exception when every node is ready |
| Engine.ShapeNodeWellIndexed | simple3d/Engine3D.java:135 | a shape node whose arguments are accepted gets a well-indexed mesh |
| Engine.PolyfaceSidesSound | simple3d/Engine3D.java:156 | classify and split of Polyface3D meet the BSP tree's side conditions |
| Engine.SceneTreePartitioned | simple3d/Engine3D.java:156 | the scene's BSP tree is a true BSP tree for the polygons' planes |
| Engine.SceneDrawOrder | simple3d/Engine3D.java:192 | traversal from a camera draws every face once; behind-first order holds at the root splitter |
| Engine.Engine3D.constructor | simple3d/Engine3D.java:69-96 | a new engine has no meshes, no nodes, no camera and no tree |
| Engine.Engine3D.SetCameraPos | simple3d/Engine3D.java:102-104 | stores the camera object, nothing else changes |
| Engine.Engine3D.AddSceneNode | simple3d/Engine3D.java:110-112 | adding to getSceneNodes() appends the node to the engine's own list |
| Engine.Engine3D.AddMesh | simple3d/Engine3D.java:115-121 | true iff the id is new, and then the mesh is filed under it; otherwise the table is unchanged |
| Engine.Engine3D.UpdateCamera | simple3d/Engine3D.java:234-261 | true iff the key moves the camera, and the position becomes the moved one; otherwise it stays |
| Engine.Engine3D.SetupScene | simple3d/Engine3D.java:126-162 | the collected faces, and on success the tree built from them; on an exception the old tree stays |
| Engine.CollectSceneFaces | simple3d/Engine3D.java:133-154 | the loop over the nodes returns the scene's faces or the first exception |
| Engine.AddNodeFaces | simple3d/Engine3D.java:134-154 | one node's faces are appended, or its exception ends the loop |
| Engine.CollectNode | simple3d/Engine3D.java:135-153 | resolves a node's mesh and collects its faces |
| Engine.CollectNodeFaces | simple3d/Engine3D.java:137-153 | the loop over one mesh's polygons returns their faces or the first exception |
| Engine.WorldFace | simple3d/Engine3D.java:138-152 | one polygon's vertices are copied, transformed and coloured into a face |
| Engine.MessageLog.PrintOnce | simple3d/Engine3D.java:498-503 | a new message is appended with a newline and remembered; a known one changes nothing; each message is printed once |
| Engine.MessageLog.constructor | simple3d/Engine3D.java:513-514 | getInfo starts with an empty message set and an empty text |

## Left out

- Rendering (`render3D`), flat shading, the light, file import and export, JSON `load`/`save` of every class, `getInfo`'s scene walk and the statistics printing. These are I/O, drawing callbacks and timing.
- Trigonometry. This covers `applyRotationX/Y/Z`, `createRotationY`, `tan` in `createProjection`, and the cos/sin coordinates of the cone, cylinder, sphere and regular polygon:
  - `createProjection` takes `fovRad = 1 / tan(fov / 2)` as given;
  - `updateCamera` takes the yaw-rotated forward and right axes as parameters;
  - setupScene gets shape instances with coordinates through a function parameter (`Engine.Instances`);
  - the shape generators model the vertex count and the index tables, not the coordinates.
- The projection-matrix statement in setupScene. It feeds only rendering.
- `Polyface3D.isConvex`. It only prints a warning in setupScene.
- The floating-point parts of `sanityCheck`: the near consecutive vertices, collinear and non-planar tests.
- The cache of fixed shape instances. The model returns equal values, not one shared object.
- The String overloads of `getShapeInstance` beyond `Shape.valueOf` (`Shapes.ShapeNamed`). They parse JSON text.
- IEEE-754 double rounding, infinities and NaN.
- Vectors.Vector3D.Divide: requires a non-zero divisor, because a zero divisor gives IEEE infinities, which have no real counterpart.
- Partial application of setupScene's colour lookup: a negative index is modelled as the exception Java throws.
- Vertex arrays that clipping and screen mapping produce are modelled as sequences of values. Aliasing between the clipped array and the input vector objects is not modelled.
- Engine.ScreenMap: does not state what the vertices before the failing one hold when the check fails. The source returns null then, and the model's result does not depend on them.
- Meshes.CheckCorrectness, Meshes.CheckManifold: require every polygon to have an index. Java throws on an empty index array, and createMesh's sanityCheck rules that out.
- Meshes.GetNumberUnconnectedParts: requires every index to be in range. An out-of-range index makes `groups.get` return null and Java throw; sanityCheck rules that out.
- Shapes.SphereVertexCount: computed exactly. With N = 4 * N4, `N * N` first exceeds 2^31 - 1 at N = 46344, i.e. for N4 >= 11586 (46340 * 46340 = 2147395600 still fits). The instance uses N4 = 4.
- Bsp.BuildKeepsPolygons: stated only when no pair of polygons is SPANNING. A split adds pieces, so sizes are not preserved in general.
- Engine.SceneDrawOrder: states the painter's order at the root only. Bsp.PainterOrder applies at every node of the partitioned tree.
- Extrusion.ExtrudePolygonMesh: takes `distance` as a plain number. Java's parameter is a boxed `Double`, so a null argument throws `NullPointerException` where it is unboxed (Mesh.java:74, 91); that path is not modelled.
- Whether the extruded prism is a closed surface (checkManifold) is not proved; its layout is.
- Colors.ParseHexInt: accepts the ASCII hex digits 0-9, a-f and A-F only. Java's `Character.digit(ch, 16)`, which `Integer.parseInt(s, 16)` uses, also accepts every other Unicode decimal digit and the fullwidth letters A-F and a-f (for example "\uFF11" reads as 1 in Java and is an error here).
- Colors.Parse: works on strings as sequences of Unicode scalar values, not of UTF-16 code units as a Java `String` is, and inherits the ASCII-only digits of Colors.ParseHexInt. A colour text with a non-ASCII digit, or with a character outside the Basic Multilingual Plane, can parse differently from Java.
- Colors.ParseDropsFirstCharacter: `substring(1)` drops one UTF-16 code unit in Java; the model drops one Unicode scalar. They differ when the first character is outside the Basic Multilingual Plane: Java leaves a lone low surrogate, which makes `parseInt` throw, while the model reads the rest.

## Findings

| source | as written | input that shows it | evidently intended | confidence | as-written member | corrected member |
|---|---|---|---|---|---|---|
| simple3d/Mesh.java:171 | `int segment = prev + vidx * n_vertices` wraps in 32-bit arithmetic, so different edges can share a code (also at lines 188 and 192) | a mesh with 65537 vertices: edges 0 -> 65536 and 65536 -> 0 both get code 65536 | one code per directed edge (a `long` product) | not executed | Meshes.CodeAsWrittenCollides | Meshes.CodeInjective |

The rest of the model uses the exact code `Meshes.Code`. `Meshes.CodeAsWrittenForSmallMeshes` shows it agrees with the 32-bit code while `n <= 46340`.
