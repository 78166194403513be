# Airplane geometry of CG2023 homework 1

The homework draws a small airplane with legacy OpenGL immediate mode. The airplane has three parts:

- a cylinder body (`draw_cylinder`);
- two cuboid wings (`draw_rectangle`);
- a tetrahedral tail (`draw_triangle`).

Each `render_*` routine places its part under the model-view matrix with
`glPushMatrix`, `glTranslatef`, optionally `glRotatef`, and `glPopMatrix`.
`keyCallback` closes the window on ESC and ignores held-key repeats.

This Dafny project models that code and proves what it draws.

- **Immediate mode** (`Immediate`). The draw routines are modelled as the exact sequence of `glBegin` / `glNormal3f` / `glVertex3f` / `glEnd` calls they issue. A small machine runs that sequence the way sections 2.6 and 2.7 of the OpenGL 2.1 specification describe. It tracks the current normal and the open primitive. Every vertex records the normal that is current when it is issued, and `glEnd` closes a batch. A misplaced `glBegin`, `glEnd` or `glVertex` is an error.
- **Shapes** (`Cylinder`, `Cuboid`, `Tail`). For each shape, the batches the machine emits are characterised:
  - vertex positions, normals and counts;
  - how the side, caps and faces fit together;
  - for the cuboid, winding and mirror symmetry.
- **Placement** (`Transform`, `Airplane`).
  - `glTranslatef` and `glRotatef` post-multiply the current matrix (section 2.11.2 of the OpenGL 2.1 specification). So the call issued last acts on a vertex first.
  - `glPushMatrix` / `glPopMatrix` restore the matrix, so the three parts are placed independently of each other.
  - The world positions of the body caps, wings and tail are computed.
- **Keys** (`Input`). `keyCallback` is modelled as a function of the close flag, and its effect over any sequence of key events is characterised.

The matrix the render loop has loaded before the parts (the camera's) is a parameter `view`. The proofs show it only acts after each part's own transform.

The values of `cos`, `sin` and `M_PI` are a `Trig` parameter and are never interpreted. Only `glRotatef(-90, 1, 0, 0)` is evaluated, with its exact cosine 0 and sine -1. All arithmetic is on exact reals.

## Model

| member | source | states |
|---|---|---|
| Immediate.Step | Homeworks/HW1/CG2023-HW1/src/main.cpp:102-116 | one GL call fails exactly when `glBegin` is nested or `glEnd`/`glVertex` comes outside a pair; otherwise the emitted batches only grow |
| Immediate.Run | Homeworks/HW1/CG2023-HW1/src/main.cpp:102-116 | running a call stream never removes an emitted batch |
| Immediate.RunAppend | Homeworks/HW1/CG2023-HW1/src/main.cpp:102-138 | running two call streams one after the other is running their concatenation |
| Immediate.RunEmit | Homeworks/HW1/CG2023-HW1/src/main.cpp:121-126 | a run of `glVertex3f` calls records each point, in order, under the normal current before the run |
| Immediate.RunGroup | Homeworks/HW1/CG2023-HW1/src/main.cpp:108-114 | a `glNormal3f` followed by vertices records those vertices under that normal and leaves it current |
| Immediate.RunGroups | Homeworks/HW1/CG2023-HW1/src/main.cpp:162-202 | a sequence of normal-and-vertices groups records every group's vertices under its own normal and leaves the last group's normal current |
| Immediate.RunBlock | Homeworks/HW1/CG2023-HW1/src/main.cpp:160-204 | a `glBegin` … `glEnd` pair outside any other pair appends exactly one batch of the given mode holding all the groups' vertices |
| Immediate.RunTwoBlocks | Homeworks/HW1/CG2023-HW1/src/main.cpp:102-127 | two glBegin … glEnd pairs in a row append their two batches in order and leave the second pair's last normal current |
| Immediate.RunThreeBlocks | Homeworks/HW1/CG2023-HW1/src/main.cpp:102-138 | three pairs in a row append their three batches in order |
| Immediate.BlockLength | Homeworks/HW1/CG2023-HW1/src/main.cpp:102-116 | a `glBegin` … `glEnd` pair holds one call per group, one per recorded vertex, and its begin and end |
| Immediate.UniformLayout | Homeworks/HW1/CG2023-HW1/src/main.cpp:160-204 | when every group has the same number of points, vertex j of group f lands at index f·arity + j, under group f's normal |
| Immediate.Emit | Homeworks/HW1/CG2023-HW1/src/main.cpp:121-126 | one `glVertex3f` call per point, in order |
| Cylinder.LoopCountMatches | Homeworks/HW1/CG2023-HW1/src/main.cpp:103-136 | testing the loop condition step by step from counter i counts exactly max(bound - i, 0) bodies, so the side loop (`i <= segments`) runs segments + 1 times and each cap loop (`i < segments`) segments times, none for a negative count |
| Cylinder.DrawCylinder | Homeworks/HW1/CG2023-HW1/src/main.cpp:97-139 | the call stream opens with `glBegin(GL_QUAD_STRIP)`, closes with `glEnd`, and has one normal and two vertices per side step, one normal per cap and one vertex per cap point, and the three pairs' begin and end calls: 5·segments + 11 calls for a positive count |
| Cylinder.DrawCylinderRuns | Homeworks/HW1/CG2023-HW1/src/main.cpp:97-139 | `draw_cylinder` issues a well-formed call stream: it appends the side strip, the top cap and the bottom cap, and leaves the normal at (0, -1, 0) |
| Cylinder.CylinderSide | Homeworks/HW1/CG2023-HW1/src/main.cpp:102-116 | the side is one `GL_QUAD_STRIP` of segments + 1 steps for a non-negative count (none for a negative one). Step i emits a bottom and a top vertex at angle i·2π/segments on the rim, at y = -height/2 and height/2, both under the radial normal (x, 0, z) |
| Cylinder.SideLayout | Homeworks/HW1/CG2023-HW1/src/main.cpp:103-115 | side step i records the bottom and then the top rim point of angle i, both under the rim point at height 0 |
| Cylinder.CylinderCaps | Homeworks/HW1/CG2023-HW1/src/main.cpp:118-138 | each cap is one `GL_POLYGON` of segments vertices for a non-negative count (none for a negative one). The top cap is under (0, 1, 0), the bottom cap under (0, -1, 0). Cap vertex i coincides with the side strip's top or bottom vertex i |
| Cylinder.CylinderVertexCount | Homeworks/HW1/CG2023-HW1/src/main.cpp:103-136 | a positive segment count emits 4·segments + 2 vertices in all; a negative one emits none |
| Cylinder.RingCloses | Homeworks/HW1/CG2023-HW1/src/main.cpp:99-104 | the last side step's angle is exactly one full turn (2π) past the first |
| Cylinder.SideSeamCloses | Homeworks/HW1/CG2023-HW1/src/main.cpp:103-114 | when cos and sin repeat after 2π, the strip's last quad ends on the first pair of vertices, so the side is closed |
| Cylinder.SideNormalAt | Homeworks/HW1/CG2023-HW1/src/main.cpp:105-108 | the normal of side vertex k is the rim point of step k/2 at height 0 |
| Cylinder.SideNormalLength | Homeworks/HW1/CG2023-HW1/src/main.cpp:105-108 | every side normal has length equal to the radius, not 1, so `GL_NORMALIZE` is what makes the lighting right |
| Cuboid.DrawRectangle | Homeworks/HW1/CG2023-HW1/src/main.cpp:153-205 | `draw_rectangle` issues 32 calls: `glBegin(GL_QUADS)`, six normals with four corners each, `glEnd` |
| Cuboid.DrawRectangleRuns | Homeworks/HW1/CG2023-HW1/src/main.cpp:153-205 | `draw_rectangle` emits one `GL_QUADS` batch and leaves the normal at (0, -1, 0) |
| Cuboid.Layout | Homeworks/HW1/CG2023-HW1/src/main.cpp:160-204 | the batch has 24 vertices: corner j of face f at index 4f + j, under face f's normal |
| Cuboid.FaceCorners | Homeworks/HW1/CG2023-HW1/src/main.cpp:162-202 | every corner of every face is a box corner (±length/2, ±height/2, ±width/2) lying on the face its normal names |
| Cuboid.CuboidShape | Homeworks/HW1/CG2023-HW1/src/main.cpp:160-204 | all four vertices of a quad share one normal, every vertex lies on the face its axis-unit normal names, and different faces have different normals |
| Cuboid.NormalsDistinct | Homeworks/HW1/CG2023-HW1/src/main.cpp:163-198 | the six face normals are pairwise different |
| Cuboid.CuboidOutward | Homeworks/HW1/CG2023-HW1/src/main.cpp:160-204 | for non-negative sizes every face normal points outward: no vertex of the box lies further along it than the face itself |
| Cuboid.CuboidWinding | Homeworks/HW1/CG2023-HW1/src/main.cpp:162-202 | for positive sizes the front, right and top quads wind counter-clockwise seen from outside, and the back, left and bottom quads wind clockwise |
| Cuboid.MirrorIndex | Homeworks/HW1/CG2023-HW1/src/main.cpp:176-188 | the index pairing of mirrored vertices stays within the 24 vertices |
| Cuboid.MirrorIndexInvolution | Homeworks/HW1/CG2023-HW1/src/main.cpp:176-188 | pairing a vertex with its mirror twice returns the vertex |
| Cuboid.CuboidMirror | Homeworks/HW1/CG2023-HW1/src/main.cpp:160-204 | the cuboid is its own mirror image in the plane x = 0: vertex MirrorIndex(k) is vertex k with position and normal reflected |
| Cuboid.MirrorAt | Homeworks/HW1/CG2023-HW1/src/main.cpp:160-204 | reflecting any one vertex in x = 0 gives the vertex emitted at its mirror index, normal included |
| Cuboid.MirrorNormals | Homeworks/HW1/CG2023-HW1/src/main.cpp:163-198 | the face a vertex's mirror belongs to carries the reflected face normal |
| Cuboid.MirrorFrontBack | Homeworks/HW1/CG2023-HW1/src/main.cpp:162-174 | the front and back faces each reflect onto themselves in x = 0, with corners 0/1 and 2/3 swapped |
| Cuboid.MirrorRightLeft | Homeworks/HW1/CG2023-HW1/src/main.cpp:176-188 | the right and left faces reflect onto each other, corner for corner |
| Cuboid.MirrorTopBottom | Homeworks/HW1/CG2023-HW1/src/main.cpp:190-202 | the top and bottom faces each reflect onto themselves, with corners 0/1 and 2/3 swapped |
| Tail.DrawTriangle | Homeworks/HW1/CG2023-HW1/src/main.cpp:227-253 | `draw_triangle` issues 18 calls: `glBegin(GL_TRIANGLES)`, four normals with three corners each, `glEnd` |
| Tail.DrawTriangleRuns | Homeworks/HW1/CG2023-HW1/src/main.cpp:227-253 | `draw_triangle` emits one `GL_TRIANGLES` batch and leaves the normal at (0, 0, 1) |
| Tail.AllFaces | Homeworks/HW1/CG2023-HW1/src/main.cpp:228-252 | the batch has 12 vertices: corner j of triangle f at index 3f + j, under face f's normal |
| Tail.TailShape | Homeworks/HW1/CG2023-HW1/src/main.cpp:228-252 | every tail vertex is under the normal (0, 0, 1) and at one of the four points: apex, the two ends of the bottom edge, or the keel |
| Tail.TailClosed | Homeworks/HW1/CG2023-HW1/src/main.cpp:228-252 | for a non-zero bottom edge and height1, the four points are distinct, each triangle has three distinct corners, no two triangles have the same corners, and every pair of points is an edge of exactly two triangles: the faces close up like a tetrahedron's |
| Tail.TailSolid | Homeworks/HW1/CG2023-HW1/src/main.cpp:228-252 | with a non-zero bottom edge, height1 and height2 every triangle has a non-zero area vector, so none is flat and the four faces bound a solid |
| Tail.TailFlatWithoutKeel | Homeworks/HW1/CG2023-HW1/src/main.cpp:246-251 | with height2 = 0 the keel is the midpoint of the bottom edge and the last triangle is flat (zero area vector) |
| Tail.TailShading | Homeworks/HW1/CG2023-HW1/src/main.cpp:228-252 | the shared normal (0, 0, 1) is perpendicular to the base triangle and, for a positive height1, points away from the apex. On each of the other three triangles the first edge climbs height1 along it, so for a non-zero height1 only the base is perpendicular to the normal |
| Transform.MatMulActs | Homeworks/HW1/CG2023-HW1/src/main.cpp:144-145 | the product of two matrices acts as the right factor followed by the left |
| Transform.ComposeActs | Homeworks/HW1/CG2023-HW1/src/main.cpp:144-145 | composing two affine maps acts as the right one followed by the left, on points and on normals |
| Transform.OpMatrixActs | Homeworks/HW1/CG2023-HW1/src/main.cpp:144-145 | the matrices `glTranslatef` and `glRotatef` (axis x) multiply in agree with translation by the offset and with the Rodrigues rotation about (1, 0, 0) |
| Transform.RotationRigid | Homeworks/HW1/CG2023-HW1/src/main.cpp:145 | a rotation about x with cos² + sin² = 1 fixes x and keeps the distance from the x axis |
| Transform.LastIssuedActsFirst | Homeworks/HW1/CG2023-HW1/src/main.cpp:143-145 | post-multiplying each call's matrix onto the current one places a point by applying the last-issued call first and the current matrix last |
| Transform.OpMatrixTurns | Homeworks/HW1/CG2023-HW1/src/main.cpp:144-145 | a translation leaves normals alone and a rotation turns them as it turns points |
| Transform.LastIssuedTurnsFirst | Homeworks/HW1/CG2023-HW1/src/main.cpp:143-145 | the same order holds for normals, which only the linear parts move |
| Transform.TranslationMatrix | Homeworks/HW1/CG2023-HW1/src/main.cpp:210 | a translation issued on the identity yields the pure offset |
| Transform.ViewActsLast | Homeworks/HW1/CG2023-HW1/src/main.cpp:143-145 | the matrix current before a part's calls acts after the part's own transform, on points and on normals |
| Transform.StackStep | Homeworks/HW1/CG2023-HW1/src/main.cpp:143-150 | a stack call fails exactly on an empty stack or on popping the last matrix; otherwise push and multiply leave a non-empty stack |
| Transform.RunStackAppend | Homeworks/HW1/CG2023-HW1/src/main.cpp:141-151 | running two stack-call sequences one after the other is running their concatenation |
| Transform.RunMuls | Homeworks/HW1/CG2023-HW1/src/main.cpp:144-145 | a run of matrix calls changes only the top of the stack, to the loaded matrix |
| Transform.BracketRestores | Homeworks/HW1/CG2023-HW1/src/main.cpp:143-150 | inside a `glPushMatrix` … `glPopMatrix` bracket the top is the calls loaded onto the previous top, and after the bracket the stack is exactly as before |
| Airplane.RenderBody | Homeworks/HW1/CG2023-HW1/src/main.cpp:141-151 | `render_body` draws a 65-step quad strip of 130 vertices and two 64-vertex polygon caps |
| Airplane.RenderWings | Homeworks/HW1/CG2023-HW1/src/main.cpp:207-225 | `render_wings` draws two 24-vertex `GL_QUADS` batches |
| Airplane.RenderTail | Homeworks/HW1/CG2023-HW1/src/main.cpp:255-276 | `render_tail` draws one batch of four triangles (12 vertices) |
| Airplane.PartsIndependent | Homeworks/HW1/CG2023-HW1/src/main.cpp:377-379 | under the render loop's matrix, each part's bracket sees the loop's matrix with only its own calls loaded, and the four brackets leave the stack as they found it |
| Airplane.DrawsEmitParts | Homeworks/HW1/CG2023-HW1/src/main.cpp:148 | with the arguments the render routines pass, each draw routine runs from outside any pair and emits exactly the part's batches |
| Airplane.QuarterTurn | Homeworks/HW1/CG2023-HW1/src/main.cpp:145 | `glRotatef(-90, 1, 0, 0)` sends (x, y, z) to (x, z, -y) |
| Airplane.BodyPlacement | Homeworks/HW1/CG2023-HW1/src/main.cpp:143-145 | the body's matrix sends a local point (x, y, z) to (x, z + 0.5, -y) and a normal to (x, z, -y) |
| Airplane.BodyCalls | Homeworks/HW1/CG2023-HW1/src/main.cpp:144-145 | applying the body's calls last-issued first gives the same map |
| Airplane.TranslationPlaces | Homeworks/HW1/CG2023-HW1/src/main.cpp:210 | a lone `glTranslatef(d)` shifts points by d and leaves normals alone |
| Airplane.BodyCaps | Homeworks/HW1/CG2023-HW1/src/main.cpp:141-151 | the body has three batches with 64-vertex caps. The top cap lies in z = -2 under (0, 0, -1), the bottom cap in z = 2 under (0, 0, 1). The cap centres land at (0, 0.5, -2) and (0, 0.5, 2) |
| Airplane.CapVertexPlaced | Homeworks/HW1/CG2023-HW1/src/main.cpp:143-148 | any one placed cap vertex lies in its cap's plane under its cap's normal |
| Airplane.TranslatedPart | Homeworks/HW1/CG2023-HW1/src/main.cpp:209-215 | a one-batch part under a single translation is its batch with every vertex shifted |
| Airplane.RightWingTranslated | Homeworks/HW1/CG2023-HW1/src/main.cpp:209-215 | the right wing is the cuboid shifted by (2, 0.5, 0) |
| Airplane.LeftWingTranslated | Homeworks/HW1/CG2023-HW1/src/main.cpp:218-224 | the left wing is the cuboid shifted by (-2, 0.5, 0) |
| Airplane.WingsUnderIdentity | Homeworks/HW1/CG2023-HW1/src/main.cpp:207-225 | under the identity, `render_wings` draws the cuboid shifted by (2, 0.5, 0) and then the cuboid shifted by (-2, 0.5, 0) |
| Airplane.TailTranslated | Homeworks/HW1/CG2023-HW1/src/main.cpp:255-276 | the tail is the tetrahedron shifted by (0, 0.5, 2) |
| Airplane.TailMeetsBody | Homeworks/HW1/CG2023-HW1/src/main.cpp:144-145 | the tail's apex and the centre of the body's bottom cap land on the same point, (0, 0.5, 2) |
| Airplane.TailNormals | Homeworks/HW1/CG2023-HW1/src/main.cpp:255-276 | all 12 placed tail vertices keep the normal (0, 0, 1) |
| Airplane.WingExtents | Homeworks/HW1/CG2023-HW1/src/main.cpp:207-225 | every right-wing vertex is a corner of the box [0, 4] × [0.25, 0.75] × [-0.5, 0.5] and every left-wing vertex a corner of [-4, 0] × [0.25, 0.75] × [-0.5, 0.5]; opposite corners of each box are drawn, so the wings span exactly those boxes |
| Airplane.WingsMeet | Homeworks/HW1/CG2023-HW1/src/main.cpp:207-225 | the right wing's left face and the left wing's right face are the same four points in the plane x = 0, so the wings meet under the body's axis |
| Airplane.WingsMirror | Homeworks/HW1/CG2023-HW1/src/main.cpp:207-225 | the left wing is the right wing's mirror image in the plane x = 0, vertex by vertex |
| Airplane.OrderMatters | Homeworks/HW1/CG2023-HW1/src/main.cpp:144-145 | as issued, the body's origin lands at (0, 0.5, 0); with the two calls swapped it would land at (0, 0, -0.5) |
| Airplane.ViewActsOnParts | Homeworks/HW1/CG2023-HW1/src/main.cpp:377-379 | every part drawn under the loop's matrix is the part placed under the identity, then moved by that matrix |
| Input.KeyCallback | Homeworks/HW1/CG2023-HW1/src/main.cpp:37-46 | a repeat leaves the close flag unchanged; ESC pressed or released sets it; any other key leaves it unchanged |
| Input.Replay | Homeworks/HW1/CG2023-HW1/src/main.cpp:37-46 | over a sequence of events the close flag, once set, stays set, and events none of which is ESC pressed or released leave it as it was |
| Input.ReplayCloses | Homeworks/HW1/CG2023-HW1/src/main.cpp:37-46 | after any sequence of key events the window is due to close exactly when it already was or one event was ESC pressed or released |
| Input.RepeatsIgnored | Homeworks/HW1/CG2023-HW1/src/main.cpp:39-40 | dropping every repeat event from a sequence does not change the outcome |
| Input.WithoutRepeats | Homeworks/HW1/CG2023-HW1/src/main.cpp:39-40 | an event is kept exactly when it is in the input and is not a repeat; the result is no longer than the input |
| Input.WithoutRepeatsAppend | Homeworks/HW1/CG2023-HW1/src/main.cpp:39-40 | filtering a concatenation is concatenating the filtered parts, so the kept events stay in their original order |

## Left out

- Camera: the view matrix the render loop loads before the parts is the parameter `view`. camera.h is not part of this model.
- resizeCallback, OpenGLContext, window creation, initOpenGL and the render loop itself: these are I/O and platform code.
- light(), colours (`glColor3f`) and the `GL_NORMALIZE` toggles: these affect shading, not geometry. The GL's renormalisation of normals is not modelled. `Cylinder.SideNormalLength` states why it matters.
- The white ground board at main.cpp:348-358: it is not part of the airplane.
- Floating point: all arithmetic is on exact reals. `cos`, `sin` and `M_PI` are the uninterpreted `Trig` parameter. The angle is not rounded through `float`.
- `Transform.OpMatrixActs`: `glRotatef` is modelled only about the axis (1, 0, 0), with its cosine and sine given directly. Every rotation in the code uses that axis, and the angle-to-cosine step is part of the floating-point gap above.
- `glScalef` and a general 4×4 matrix: only translations and rotations reach the parts. Normals are moved by the linear part, which equals the inverse transpose for these rigid maps.
- `Transform.ViewActsLast` and `Airplane.ViewActsOnParts`: their normal clauses move normals by the camera matrix's linear part. The GL moves normals by the inverse transpose, and the two agree only when that linear part is orthogonal. The model assumes a rigid camera matrix (a look-at view) and does not state what a scaling or skewing camera would do to the normals.
- `Cylinder.CylinderVertexCount` and `Cylinder.LoopCountMatches`: The model's integers are unbounded, while the source's `int` is 32 bits. For `segments == 2147483647` the side loop's test `i <= segments` never fails and `i++` overflows, which is undefined behaviour. The model does not cover that count.
- The model-view stack depth limit (`GL_STACK_OVERFLOW`): every bracket pushes one level onto a stack the loop keeps shallow. Underflow is modelled.
- `Cylinder.DrawCylinderRuns`: `segments == 0` divides by zero in the source, so the cylinder lemmas require a non-zero count. Negative counts are modelled and draw nothing.
- The TODO#4 key handling (SPACE, LEFT, RIGHT) and the flight update: the source leaves them unimplemented.

## Notes on the geometry

Some facts about what the code draws are easy to get wrong when reading it.

- **Cap centres.** The body is rotated about x before it is drawn, so the caps land at (0, 0.5, -2) and (0, 0.5, 2), not above and below the body (`Airplane.BodyCaps`). The airplane lies along z.
- **Cuboid winding.** The front, right and top faces wind counter-clockwise seen from outside. The back, left and bottom faces wind clockwise (`Cuboid.CuboidWinding`).
- **Tail normals.** All four tail faces carry the normal (0, 0, 1), which for a non-zero height1 is perpendicular only to the base triangle (`Tail.TailShading`).
- **Segment count.** `draw_cylinder` has no guard on the segment count. A negative count draws nothing and zero divides by zero (`Cylinder.CylinderVertexCount`).
