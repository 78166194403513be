/** render_body, render_wings and render_tail: each part's batches, drawn in
    the part's own frame, placed by the translate and rotate calls its render
    routine issues inside a glPushMatrix / glPopMatrix bracket. */
module Airplane {
  import opened Vectors
  import opened Optional
  import opened Immediate
  import opened Transform
  import Cylinder
  import Cuboid
  import Tail

  /** CIRCLE_SEGMENT: the body's number of side steps. */
  const CircleSegment := 64

  /** glRotatef(-90, 1, 0, 0), with the exact cosine 0 and sine -1. */
  const QuarterTurnDown := RotateX(0.0, -1.0)

  const BodyOps := [Translate(Vec3(0.0, 0.5, 0.0)), QuarterTurnDown]
  const RightWingOffset := Vec3(2.0, 0.5, 0.0)
  const LeftWingOffset := Vec3(-2.0, 0.5, 0.0)
  const TailOffset := Vec3(0.0, 0.5, 2.0)
  const RightWingOps := [Translate(RightWingOffset)]
  const LeftWingOps := [Translate(LeftWingOffset)]
  const TailOps := [Translate(TailOffset)]

  /** draw_cylinder(0.5, 4, CIRCLE_SEGMENT), draw_rectangle(4, 1, 0.5) and
      draw_triangle(2, 1, 0.5). */
  const BodyArgs := Cylinder.Params(0.5, 4.0, CircleSegment)
  const WingArgs := Cuboid.Params(4.0, 1.0, 0.5)
  const TailArgs := Tail.Params(2.0, 1.0, 0.5)

  /** A vertex moved by the matrix current while it was drawn. */
  function PlaceVertex(a: Affine, v: Vertex): Vertex {
    Vertex(Turn(a, v.normal), Apply(a, v.position))
  }

  function PlaceBatch(a: Affine, b: Batch): (r: Batch)
    ensures r.mode == b.mode && |r.vertices| == |b.vertices|
    ensures forall k :: 0 <= k < |b.vertices| ==> r.vertices[k] == PlaceVertex(a, b.vertices[k])
  {
    Batch(b.mode, seq(|b.vertices|, k requires 0 <= k < |b.vertices| => PlaceVertex(a, b.vertices[k])))
  }

  function PlaceAll(a: Affine, bs: seq<Batch>): (r: seq<Batch>)
    ensures |r| == |bs|
    ensures forall i :: 0 <= i < |bs| ==> r[i] == PlaceBatch(a, bs[i])
  {
    seq(|bs|, i requires 0 <= i < |bs| => PlaceBatch(a, bs[i]))
  }

  /** One part: the calls its render routine issues between push and pop,
      and the batches its draw routine emits in the part's own frame. */
  datatype Part = Part(ops: seq<Op>, batches: seq<Batch>)

  /** The part as drawn under the matrix `view` (the camera's, loaded by the
      render loop before the parts). */
  function Placed(view: Affine, part: Part): seq<Batch> {
    PlaceAll(Load(view, part.ops), part.batches)
  }

  function Body(trig: Cylinder.Trig): Part {
    Part(BodyOps, Cylinder.CylinderBatches(BodyArgs, trig))
  }

  function RightWing(): Part {
    Part(RightWingOps, [Batch(Quads, Cuboid.CuboidVertices(WingArgs))])
  }

  function LeftWing(): Part {
    Part(LeftWingOps, [Batch(Quads, Cuboid.CuboidVertices(WingArgs))])
  }

  function TailPart(): Part {
    Part(TailOps, [Batch(Triangles, Tail.TailVertices(TailArgs))])
  }

  /** render_body: a 65-step quad strip (130 vertices, the seam drawn twice)
      and two 64-vertex polygon caps. */
  function RenderBody(view: Affine, trig: Cylinder.Trig): (r: seq<Batch>)
    ensures |r| == 3
    ensures r[0].mode == QuadStrip && |r[0].vertices| == 2 * (CircleSegment + 1)
    ensures r[1].mode == Polygon && |r[1].vertices| == CircleSegment
    ensures r[2].mode == Polygon && |r[2].vertices| == CircleSegment
  {
    Cylinder.CylinderCaps(BodyArgs, trig);
    Placed(view, Body(trig))
  }

  /** render_wings: two 24-vertex quad batches, the right wing's first. */
  function RenderWings(view: Affine): (r: seq<Batch>)
    ensures |r| == 2
    ensures r[0].mode == Quads && |r[0].vertices| == 24
    ensures r[1].mode == Quads && |r[1].vertices| == 24
  {
    Cuboid.FaceAt(WingArgs, 0);
    Placed(view, RightWing()) + Placed(view, LeftWing())
  }

  /** render_tail: one batch of four triangles. */
  function RenderTail(view: Affine): (r: seq<Batch>)
    ensures |r| == 1 && r[0].mode == Triangles && |r[0].vertices| == 12
  {
    Tail.AllFaces(TailArgs);
    Placed(view, TailPart())
  }

  /** The matrix-stack calls of render_body, render_wings and render_tail,
      in the order the render loop makes them. */
  function RenderStack(): seq<StackCall> {
    Bracket(BodyOps) + Bracket(RightWingOps) + Bracket(LeftWingOps) + Bracket(TailOps)
  }

  /** Each part draws under the loop's matrix with only its own calls
      multiplied in, and after the three routines the stack is as before:
      no part's placement leaks into the next. */
  lemma PartsIndependent(view: Affine)
    ensures RunStack([view], [Push] + Muls(BodyOps)) == Some([view, Load(view, BodyOps)])
    ensures RunStack([view], [Push] + Muls(RightWingOps)) == Some([view, Load(view, RightWingOps)])
    ensures RunStack([view], [Push] + Muls(LeftWingOps)) == Some([view, Load(view, LeftWingOps)])
    ensures RunStack([view], [Push] + Muls(TailOps)) == Some([view, Load(view, TailOps)])
    ensures RunStack([view], RenderStack()) == Some([view])
  {
    var st := [view];
    assert st[|st| - 1] == view;
    assert forall a: Affine :: st + [a] == [view, a];
    BracketRestores(st, BodyOps);
    BracketRestores(st, RightWingOps);
    BracketRestores(st, LeftWingOps);
    BracketRestores(st, TailOps);
    var a, b, c, d := Bracket(BodyOps), Bracket(RightWingOps), Bracket(LeftWingOps), Bracket(TailOps);
    RunStackAppend(st, a, b);
    RunStackAppend(st, a + b, c);
    RunStackAppend(st, a + b + c, d);
  }

  /** From outside any glBegin/glEnd pair, the three draw routines emit
      exactly the batches the parts place: one cylinder's three, then one
      cuboid per wing, then the tail's. */
  lemma DrawsEmitParts(m: Machine, trig: Cylinder.Trig)
    requires Idle(m)
    ensures Run(m, Cylinder.DrawCylinder(BodyArgs, trig)).Some?
    ensures Run(m, Cylinder.DrawCylinder(BodyArgs, trig)).value.emitted == m.emitted + Body(trig).batches
    ensures Run(m, Cuboid.DrawRectangle(WingArgs)).Some?
    ensures Run(m, Cuboid.DrawRectangle(WingArgs)).value.emitted == m.emitted + RightWing().batches
    ensures Run(m, Tail.DrawTriangle(TailArgs)).Some?
    ensures Run(m, Tail.DrawTriangle(TailArgs)).value.emitted == m.emitted + TailPart().batches
  {
    Cylinder.DrawCylinderRuns(m, BodyArgs, trig);
    Cuboid.DrawRectangleRuns(m, WingArgs);
    Tail.DrawTriangleRuns(m, TailArgs);
  }

  /** glRotatef(-90, 1, 0, 0) turns (x, y, z) to (x, z, -y). */
  lemma QuarterTurn(p: Vec3)
    ensures Act(QuarterTurnDown, p) == Vec3(p.x, p.z, -p.y)
    ensures Spin(QuarterTurnDown, p) == Vec3(p.x, p.z, -p.y)
  {
  }

  /** The body's calls: a local point (x, y, z) lands at (x, z + 0.5, -y),
      and a local direction (x, y, z) turns to (x, z, -y): the cylinder's y
      axis is laid along -z, its centre lifted to height 0.5. */
  lemma BodyPlacement(p: Vec3)
    ensures Apply(Load(Identity, BodyOps), p) == Vec3(p.x, p.z + 0.5, -p.y)
    ensures Turn(Load(Identity, BodyOps), p) == Vec3(p.x, p.z, -p.y)
  {
    LastIssuedActsFirst(Identity, BodyOps, p);
    LastIssuedTurnsFirst(Identity, BodyOps, p);
    BodyCalls(p);
    IdentityFixes(Transformed(BodyOps, p));
    IdentityFixes(Turned(BodyOps, p));
  }

  lemma BodyCalls(p: Vec3)
    ensures Transformed(BodyOps, p) == Vec3(p.x, p.z + 0.5, -p.y)
    ensures Turned(BodyOps, p) == Vec3(p.x, p.z, -p.y)
  {
    TwoCalls(BodyOps[0], QuarterTurnDown, p);
    QuarterTurn(p);
  }

  /** One translation moves points by its offset and leaves directions alone. */
  lemma TranslationPlaces(d: Vec3, p: Vec3)
    ensures Apply(Load(Identity, [Translate(d)]), p) == Add(p, d)
    ensures Turn(Load(Identity, [Translate(d)]), p) == p
  {
    LastIssuedActsFirst(Identity, [Translate(d)], p);
    LastIssuedTurnsFirst(Identity, [Translate(d)], p);
    OneCall(Translate(d), p);
    IdentityFixes(Add(p, d));
    IdentityFixes(p);
  }

  /** Placing a part keeps its batches, their modes and their sizes, and
      moves every vertex by the part's matrix. */
  lemma PlacedShape(view: Affine, part: Part)
    ensures |Placed(view, part)| == |part.batches|
    ensures forall i :: 0 <= i < |part.batches| ==>
              && Placed(view, part)[i].mode == part.batches[i].mode
              && |Placed(view, part)[i].vertices| == |part.batches[i].vertices|
  {
  }

  lemma PlacedAt(view: Affine, part: Part, i: int, k: int)
    requires 0 <= i < |part.batches| && 0 <= k < |part.batches[i].vertices|
    ensures |Placed(view, part)| == |part.batches|
    ensures |Placed(view, part)[i].vertices| == |part.batches[i].vertices|
    ensures Placed(view, part)[i].vertices[k] == PlaceVertex(Load(view, part.ops), part.batches[i].vertices[k])
  {
  }

  /** The body's top cap ends up facing -z in the plane z = -2 and the bottom
      cap facing +z in the plane z = 2; their centres (0, 2, 0) and (0, -2, 0)
      land at (0, 0.5, -2) and (0, 0.5, 2). */
  lemma BodyCaps(trig: Cylinder.Trig)
    ensures var b := RenderBody(Identity, trig);
            && |b| == 3
            && |b[1].vertices| == |b[2].vertices| == CircleSegment
    ensures var b := RenderBody(Identity, trig);
            forall i :: 0 <= i < |b[1].vertices| ==>
              b[1].vertices[i].position.z == -2.0 && b[1].vertices[i].normal == Vec3(0.0, 0.0, -1.0)
    ensures var b := RenderBody(Identity, trig);
            forall i :: 0 <= i < |b[2].vertices| ==>
              b[2].vertices[i].position.z == 2.0 && b[2].vertices[i].normal == Vec3(0.0, 0.0, 1.0)
    ensures Apply(Load(Identity, BodyOps), Vec3(0.0, 2.0, 0.0)) == Vec3(0.0, 0.5, -2.0)
    ensures Apply(Load(Identity, BodyOps), Vec3(0.0, -2.0, 0.0)) == Vec3(0.0, 0.5, 2.0)
  {
    var part := Body(trig);
    var b := RenderBody(Identity, trig);
    Cylinder.CylinderCaps(BodyArgs, trig);
    PlacedShape(Identity, part);
    forall i | 0 <= i < |b[1].vertices|
      ensures b[1].vertices[i].position.z == -2.0 && b[1].vertices[i].normal == Vec3(0.0, 0.0, -1.0)
    {
      CapVertexPlaced(trig, 1, i);
    }
    forall i | 0 <= i < |b[2].vertices|
      ensures b[2].vertices[i].position.z == 2.0 && b[2].vertices[i].normal == Vec3(0.0, 0.0, 1.0)
    {
      CapVertexPlaced(trig, 2, i);
    }
    BodyPlacement(Vec3(0.0, 2.0, 0.0));
    BodyPlacement(Vec3(0.0, -2.0, 0.0));
  }

  /** Cap vertex i of batch 1 (top) or 2 (bottom), placed. */
  lemma CapVertexPlaced(trig: Cylinder.Trig, cap: int, i: int)
    requires cap == 1 || cap == 2
    requires 0 <= i < CircleSegment
    ensures |RenderBody(Identity, trig)| == 3
    ensures |RenderBody(Identity, trig)[cap].vertices| == CircleSegment
    ensures var v := RenderBody(Identity, trig)[cap].vertices[i];
            && v.position.z == (if cap == 1 then -2.0 else 2.0)
            && v.normal == Vec3(0.0, 0.0, if cap == 1 then -1.0 else 1.0)
  {
    var part := Body(trig);
    var local := part.batches;
    Cylinder.CylinderCaps(BodyArgs, trig);
    PlacedAt(Identity, part, cap, i);
    var w := local[cap].vertices[i];
    assert w.position.y == (if cap == 1 then 2.0 else -2.0);
    assert w.normal == Vec3(0.0, if cap == 1 then 1.0 else -1.0, 0.0);
    BodyPlacement(w.position);
    BodyPlacement(w.normal);
  }

  /** A vertex moved by an offset, its normal kept. */
  function Shift(v: Vertex, d: Vec3): Vertex {
    Vertex(v.normal, Add(v.position, d))
  }

  function ShiftAll(vs: seq<Vertex>, d: Vec3): (r: seq<Vertex>)
    ensures |r| == |vs|
    ensures forall k :: 0 <= k < |vs| ==> r[k] == Shift(vs[k], d)
  {
    seq(|vs|, k requires 0 <= k < |vs| => Shift(vs[k], d))
  }

  /** Placing under a pure shift moves every vertex by the offset. */
  lemma ShiftBatch(d: Vec3, b: Batch)
    ensures PlaceBatch(Affine(IdentityMat, d), b) == Batch(b.mode, ShiftAll(b.vertices, d))
  {
    var r := PlaceBatch(Affine(IdentityMat, d), b);
    forall k | 0 <= k < |b.vertices|
      ensures r.vertices[k] == Shift(b.vertices[k], d)
    {
      var v := b.vertices[k];
      assert MulVec(IdentityMat, v.normal) == v.normal;
      assert MulVec(IdentityMat, v.position) == v.position;
    }
    assert r.vertices == ShiftAll(b.vertices, d);
  }

  /** A part placed by a single glTranslatef, under the identity, is its one
      batch shifted by the offset. */
  lemma TranslatedPart(d: Vec3, mode: Topology, vs: seq<Vertex>)
    ensures Placed(Identity, Part([Translate(d)], [Batch(mode, vs)])) == [Batch(mode, ShiftAll(vs, d))]
  {
    var part := Part([Translate(d)], [Batch(mode, vs)]);
    TranslationMatrix(d);
    PlacedUnder(Identity, part, Affine(IdentityMat, d));
    ShiftBatch(d, Batch(mode, vs));
    SingleBatch(Affine(IdentityMat, d), Batch(mode, vs));
  }

  lemma PlacedUnder(view: Affine, part: Part, a: Affine)
    requires Load(view, part.ops) == a
    ensures Placed(view, part) == PlaceAll(a, part.batches)
  {
  }

  lemma SingleBatch(a: Affine, b: Batch)
    ensures PlaceAll(a, [b]) == [PlaceBatch(a, b)]
  {
  }

  function RightWingVertices(): seq<Vertex> {
    ShiftAll(Cuboid.CuboidVertices(WingArgs), RightWingOffset)
  }

  function LeftWingVertices(): seq<Vertex> {
    ShiftAll(Cuboid.CuboidVertices(WingArgs), LeftWingOffset)
  }

  function TailWorldVertices(): seq<Vertex> {
    ShiftAll(Tail.TailVertices(TailArgs), TailOffset)
  }

  /** Each wing, under the identity, is the cuboid shifted by (2, 0.5, 0)
      or by (-2, 0.5, 0). */
  lemma RightWingTranslated()
    ensures Placed(Identity, RightWing()) == [Batch(Quads, RightWingVertices())]
  {
    TranslatedPart(RightWingOffset, Quads, Cuboid.CuboidVertices(WingArgs));
  }

  lemma LeftWingTranslated()
    ensures Placed(Identity, LeftWing()) == [Batch(Quads, LeftWingVertices())]
  {
    TranslatedPart(LeftWingOffset, Quads, Cuboid.CuboidVertices(WingArgs));
  }

  /** render_wings draws the right wing, then the left. */
  lemma WingsInOrder(view: Affine)
    ensures RenderWings(view) == Placed(view, RightWing()) + Placed(view, LeftWing())
  {
  }

  /** render_wings, under the identity, draws the right wing's box and then
      the left wing's. */
  lemma WingsUnderIdentity()
    ensures |RenderWings(Identity)| == 2
    ensures RenderWings(Identity)[0] == Batch(Quads, RightWingVertices())
    ensures RenderWings(Identity)[1] == Batch(Quads, LeftWingVertices())
  {
    WingsInOrder(Identity);
    RightWingTranslated();
    LeftWingTranslated();
  }

  /** render_tail, under the identity, draws the tetrahedron shifted by
      (0, 0.5, 2). */
  lemma TailTranslated()
    ensures RenderTail(Identity) == [Batch(Triangles, TailWorldVertices())]
  {
    TranslatedPart(TailOffset, Triangles, Tail.TailVertices(TailArgs));
  }

  /** The tail's apex lands on the centre of the body's bottom cap. */
  lemma TailMeetsBody()
    ensures Apply(Load(Identity, TailOps), Tail.Apex(TailArgs))
         == Apply(Load(Identity, BodyOps), Vec3(0.0, -BodyArgs.height / 2.0, 0.0))
         == Vec3(0.0, 0.5, 2.0)
  {
    TranslationPlaces(TailOffset, Tail.Apex(TailArgs));
    BodyPlacement(Vec3(0.0, -2.0, 0.0));
  }

  /** Every placed tail normal equals the bottom cap's placed normal
      (0, 0, 1): the tail is lit like the end of the body it sits on. */
  lemma TailNormals()
    ensures RenderTail(Identity) == [Batch(Triangles, TailWorldVertices())]
    ensures |TailWorldVertices()| == 12
    ensures forall k :: 0 <= k < 12 ==> TailWorldVertices()[k].normal == Vec3(0.0, 0.0, 1.0)
  {
    TailTranslated();
    Tail.TailShape(TailArgs);
  }

  /** The right wing is the box [0, 4] x [0.25, 0.75] x [-0.5, 0.5] and the
      left wing the box [-4, 0] x [0.25, 0.75] x [-0.5, 0.5]: every vertex is
      one of that box's corners, and the opposite corners (vertices 0 and 6)
      are both drawn, so the extents are attained. */
  lemma WingExtents()
    ensures |RightWingVertices()| == 24 && |LeftWingVertices()| == 24
    ensures forall k :: 0 <= k < 24 ==> RightBoxCorner(RightWingVertices()[k].position)
    ensures forall k :: 0 <= k < 24 ==> LeftBoxCorner(LeftWingVertices()[k].position)
    ensures RightWingVertices()[0].position == Vec3(0.0, 0.25, 0.5)
    ensures RightWingVertices()[6].position == Vec3(4.0, 0.75, -0.5)
    ensures LeftWingVertices()[0].position == Vec3(-4.0, 0.25, 0.5)
    ensures LeftWingVertices()[6].position == Vec3(0.0, 0.75, -0.5)
  {
    Cuboid.FaceAt(WingArgs, 0);
    Cuboid.FaceAt(WingArgs, 1);
    forall k | 0 <= k < 24
      ensures RightBoxCorner(RightWingVertices()[k].position)
      ensures LeftBoxCorner(LeftWingVertices()[k].position)
    {
      WingCorner(k);
      var q := Cuboid.CuboidVertices(WingArgs)[k].position;
      CornerBounds(q);
    }
  }

  /** A corner of the right wing's box [0, 4] x [0.25, 0.75] x [-0.5, 0.5]. */
  predicate RightBoxCorner(p: Vec3) {
    (p.x == 0.0 || p.x == 4.0) && (p.y == 0.25 || p.y == 0.75) && (p.z == -0.5 || p.z == 0.5)
  }

  /** A corner of the left wing's box [-4, 0] x [0.25, 0.75] x [-0.5, 0.5]. */
  predicate LeftBoxCorner(p: Vec3) {
    (p.x == -4.0 || p.x == 0.0) && (p.y == 0.25 || p.y == 0.75) && (p.z == -0.5 || p.z == 0.5)
  }

  /** A corner of the 4 x 0.5 x 1 box, shifted to either wing, is a corner of
      that wing's box. */
  lemma CornerBounds(q: Vec3)
    requires Abs(q.x) == 2.0 && Abs(q.y) == 0.25 && Abs(q.z) == 0.5
    ensures RightBoxCorner(Add(q, RightWingOffset))
    ensures LeftBoxCorner(Add(q, LeftWingOffset))
  {
  }

  /** Every wing vertex sits at a corner of the 4 x 0.5 x 1 box. */
  lemma WingCorner(k: int)
    requires 0 <= k < 24
    ensures |Cuboid.CuboidVertices(WingArgs)| == 24
    ensures var q := Cuboid.CuboidVertices(WingArgs)[k].position;
            Abs(q.x) == 2.0 && Abs(q.y) == 0.25 && Abs(q.z) == 0.5
  {
    Cuboid.VertexAt(WingArgs, k);
    Cuboid.FaceCorners(WingArgs, k / 4, k % 4);
  }

  /** The wings meet at x = 0: the right wing's inner (left) face and the
      left wing's inner (right) face are the same four corners, in the same
      order. */
  lemma WingsMeet()
    ensures |RightWingVertices()| == 24 && |LeftWingVertices()| == 24
    ensures forall k :: 12 <= k < 16 ==>
              && RightWingVertices()[k].position == LeftWingVertices()[k - 4].position
              && RightWingVertices()[k].position.x == 0.0
  {
    Cuboid.FaceAt(WingArgs, 2);
    Cuboid.FaceAt(WingArgs, 3);
  }

  /** The left wing is the right wing reflected in the body's centre plane
      x = 0: its vertex k is the reflection of the right wing's vertex
      MirrorIndex(k), normals included. */
  lemma WingsMirror()
    ensures |RightWingVertices()| == 24 && |LeftWingVertices()| == 24
    ensures forall k :: 0 <= k < 24 ==>
              LeftWingVertices()[k] == Cuboid.MirrorVertex(RightWingVertices()[Cuboid.MirrorIndex(k)])
  {
    var vs := Cuboid.CuboidVertices(WingArgs);
    Cuboid.CuboidMirror(WingArgs);
    forall k | 0 <= k < 24
      ensures LeftWingVertices()[k] == Cuboid.MirrorVertex(RightWingVertices()[Cuboid.MirrorIndex(k)])
    {
      var m := Cuboid.MirrorIndex(k);
      assert vs[m] == Cuboid.MirrorVertex(vs[k]);
      MirrorShift(vs[k]);
    }
  }

  /** Reflecting a vertex moved to the right wing gives the same vertex
      reflected, then moved to the left wing. */
  lemma MirrorShift(v: Vertex)
    ensures Cuboid.MirrorVertex(Shift(Cuboid.MirrorVertex(v), RightWingOffset)) == Shift(v, LeftWingOffset)
  {
  }

  /** The order of the body's two calls matters: as issued, the origin lands
      at (0, 0.5, 0); with the calls swapped it would land at (0, 0, -0.5). */
  lemma OrderMatters()
    ensures Apply(Load(Identity, BodyOps), Origin) == Vec3(0.0, 0.5, 0.0)
    ensures Apply(Load(Identity, [QuarterTurnDown, Translate(Vec3(0.0, 0.5, 0.0))]), Origin) == Vec3(0.0, 0.0, -0.5)
  {
    BodyPlacement(Origin);
    var swapped := [QuarterTurnDown, Translate(Vec3(0.0, 0.5, 0.0))];
    LastIssuedActsFirst(Identity, swapped, Origin);
    TwoCalls(QuarterTurnDown, Translate(Vec3(0.0, 0.5, 0.0)), Origin);
    QuarterTurn(Vec3(0.0, 0.5, 0.0));
    IdentityFixes(Transformed(swapped, Origin));
  }

  /** Under any camera matrix, every part is its model-space placement seen
      through that matrix. */
  lemma ViewActsOnParts(view: Affine, part: Part)
    ensures |Placed(view, part)| == |Placed(Identity, part)| == |part.batches|
    ensures forall i, k :: 0 <= i < |part.batches| && 0 <= k < |part.batches[i].vertices| ==>
              Placed(view, part)[i].vertices[k] == PlaceVertex(view, Placed(Identity, part)[i].vertices[k])
  {
    forall i, k | 0 <= i < |part.batches| && 0 <= k < |part.batches[i].vertices|
      ensures Placed(view, part)[i].vertices[k] == PlaceVertex(view, Placed(Identity, part)[i].vertices[k])
    {
      var v := part.batches[i].vertices[k];
      ViewActsLast(view, part.ops, v.position);
      ViewActsLast(view, part.ops, v.normal);
    }
  }
}
