/** draw_rectangle: a cuboid centred on the origin, as one GL_QUADS batch of
    six faces, each a glNormal3f followed by four corners. */
module Cuboid {
  import opened Vectors
  import opened Optional
  import opened Immediate

  /** The arguments of draw_rectangle: extents along x, z and y. */
  datatype Params = Params(length: real, width: real, height: real)

  function HalfLength(c: Params): real { c.length / 2.0 }
  function HalfWidth(c: Params): real { c.width / 2.0 }
  function HalfHeight(c: Params): real { c.height / 2.0 }

  /** The face normals, in the order draw_rectangle issues the faces: front
      (+z), back (-z), right (+x), left (-x), top (+y), bottom (-y). */
  const FaceNormals := [Vec3(0.0, 0.0, 1.0), Vec3(0.0, 0.0, -1.0), Vec3(1.0, 0.0, 0.0),
                        Vec3(-1.0, 0.0, 0.0), Vec3(0.0, 1.0, 0.0), Vec3(0.0, -1.0, 0.0)]

  /** The six faces, each under its normal, with the corners in the order
      draw_rectangle issues them. */
  function Faces(c: Params): seq<Shaded> {
    var l, w, h := HalfLength(c), HalfWidth(c), HalfHeight(c);
    [ Shaded(FaceNormals[0],
        [Vec3(-l, -h, w), Vec3(l, -h, w), Vec3(l, h, w), Vec3(-l, h, w)]),
      Shaded(FaceNormals[1],
        [Vec3(-l, -h, -w), Vec3(l, -h, -w), Vec3(l, h, -w), Vec3(-l, h, -w)]),
      Shaded(FaceNormals[2],
        [Vec3(l, -h, w), Vec3(l, -h, -w), Vec3(l, h, -w), Vec3(l, h, w)]),
      Shaded(FaceNormals[3],
        [Vec3(-l, -h, w), Vec3(-l, -h, -w), Vec3(-l, h, -w), Vec3(-l, h, w)]),
      Shaded(FaceNormals[4],
        [Vec3(-l, h, w), Vec3(l, h, w), Vec3(l, h, -w), Vec3(-l, h, -w)]),
      Shaded(FaceNormals[5],
        [Vec3(-l, -h, w), Vec3(l, -h, w), Vec3(l, -h, -w), Vec3(-l, -h, -w)]) ]
  }

  /** The calls draw_rectangle issues, in order: one glBegin(GL_QUADS), six
      normals, twenty-four corners, one glEnd. */
  function DrawRectangle(c: Params): (r: seq<Call>)
    ensures |r| == 32 && r[0] == Begin(Quads) && r[31] == End
  {
    FaceAt(c, 0);
    BlockLength(Quads, Faces(c));
    Block(Quads, Faces(c))
  }

  function CuboidVertices(c: Params): seq<Vertex> {
    GroupVertices(Faces(c))
  }

  lemma FaceNormal(c: Params, f: int)
    requires 0 <= f < 6
    ensures Faces(c)[f].normal == FaceNormals[f]
  {
  }

  /** From outside any pair, draw_rectangle closes one GL_QUADS batch and
      leaves the current normal at the bottom face's (0, -1, 0). */
  lemma DrawRectangleRuns(m: Machine, c: Params)
    requires Idle(m)
    ensures Run(m, DrawRectangle(c))
         == Some(Machine(Vec3(0.0, -1.0, 0.0), None, m.emitted + [Batch(Quads, CuboidVertices(c))]))
  {
    RunBlock(m, Quads, Faces(c));
  }

  /** One of the six unit axis directions. */
  predicate AxisUnit(n: Vec3) {
    || n == Vec3(1.0, 0.0, 0.0) || n == Vec3(-1.0, 0.0, 0.0)
    || n == Vec3(0.0, 1.0, 0.0) || n == Vec3(0.0, -1.0, 0.0)
    || n == Vec3(0.0, 0.0, 1.0) || n == Vec3(0.0, 0.0, -1.0)
  }

  /** The half extent of the cuboid along an axis direction. */
  function Support(c: Params, n: Vec3): real {
    HalfLength(c) * Abs(n.x) + HalfHeight(c) * Abs(n.y) + HalfWidth(c) * Abs(n.z)
  }

  /** Every coordinate is plus or minus the half extent on its axis. */
  predicate Corner(c: Params, p: Vec3) {
    && Abs(p.x) == Abs(HalfLength(c))
    && Abs(p.y) == Abs(HalfHeight(c))
    && Abs(p.z) == Abs(HalfWidth(c))
  }

  /** A corner under a face normal: the normal is an axis direction and the
      corner's coordinate along it is the signed half extent. */
  predicate OnFace(c: Params, n: Vec3, p: Vec3) {
    AxisUnit(n) && Corner(c, p) && Dot(n, p) == Support(c, n)
  }

  lemma FaceCorners(c: Params, f: int, j: int)
    requires 0 <= f < 6 && 0 <= j < 4
    ensures |Faces(c)[f].points| == 4
    ensures OnFace(c, Faces(c)[f].normal, Faces(c)[f].points[j])
  {
    var g := Faces(c)[f];
    assert j == 0 || j == 1 || j == 2 || j == 3;
  }

  /** The four corners of face f are vertices 4f .. 4f + 3. */
  lemma Layout(c: Params)
    ensures |CuboidVertices(c)| == 24
    ensures forall f, j :: 0 <= f < 6 && 0 <= j < 4 ==>
              CuboidVertices(c)[4 * f + j] == Vertex(Faces(c)[f].normal, Faces(c)[f].points[j])
  {
    var fs := Faces(c);
    UniformLayout(fs, 4);
    forall f, j | 0 <= f < 6 && 0 <= j < 4
      ensures CuboidVertices(c)[4 * f + j] == Vertex(fs[f].normal, fs[f].points[j])
    {
      assert Index(f, j, 4, 6) == 4 * f + j;
    }
  }

  lemma FaceAt(c: Params, f: int)
    requires 0 <= f < 6
    ensures |CuboidVertices(c)| == 24
    ensures var g := Faces(c)[f];
            && CuboidVertices(c)[4 * f] == Vertex(g.normal, g.points[0])
            && CuboidVertices(c)[4 * f + 1] == Vertex(g.normal, g.points[1])
            && CuboidVertices(c)[4 * f + 2] == Vertex(g.normal, g.points[2])
            && CuboidVertices(c)[4 * f + 3] == Vertex(g.normal, g.points[3])
  {
    Layout(c);
    var g := Faces(c)[f];
    assert CuboidVertices(c)[4 * f + 0] == Vertex(g.normal, g.points[0]);
    assert CuboidVertices(c)[4 * f + 1] == Vertex(g.normal, g.points[1]);
    assert CuboidVertices(c)[4 * f + 2] == Vertex(g.normal, g.points[2]);
    assert CuboidVertices(c)[4 * f + 3] == Vertex(g.normal, g.points[3]);
  }

  /** draw_rectangle's 24 vertices form six faces of four. Within a face all
      four share one axis normal; every coordinate is plus or minus half its
      dimension; and along the face's normal every corner sits at exactly the
      half extent, so each face is flat and perpendicular to its normal. The
      six normals are pairwise different. */
  lemma CuboidShape(c: Params)
    ensures |CuboidVertices(c)| == 24
    ensures forall k :: 0 <= k < 24 ==>
              CuboidVertices(c)[k].normal == CuboidVertices(c)[4 * (k / 4)].normal
    ensures forall k :: 0 <= k < 24 ==>
              OnFace(c, CuboidVertices(c)[k].normal, CuboidVertices(c)[k].position)
    ensures forall k, k' :: 0 <= k < 24 && 0 <= k' < 24 && k / 4 != k' / 4 ==>
              CuboidVertices(c)[k].normal != CuboidVertices(c)[k'].normal
  {
    var vs := CuboidVertices(c);
    Layout(c);
    forall k | 0 <= k < 24
      ensures vs[k].normal == vs[4 * (k / 4)].normal
      ensures OnFace(c, vs[k].normal, vs[k].position)
    {
      VertexAt(c, k);
      VertexAt(c, 4 * (k / 4));
      FaceCorners(c, k / 4, k % 4);
    }
    forall k, k' | 0 <= k < 24 && 0 <= k' < 24 && k / 4 != k' / 4
      ensures vs[k].normal != vs[k'].normal
    {
      VertexAt(c, k);
      VertexAt(c, k');
      NormalsDistinct(c, k / 4, k' / 4);
    }
  }

  lemma VertexAt(c: Params, k: int)
    requires 0 <= k < 24
    ensures |CuboidVertices(c)| == 24
    ensures CuboidVertices(c)[k] == Vertex(Faces(c)[k / 4].normal, Faces(c)[k / 4].points[k % 4])
  {
    Layout(c);
    assert k == 4 * (k / 4) + k % 4;
  }

  lemma NormalsDistinct(c: Params, f: int, g: int)
    requires 0 <= f < 6 && 0 <= g < 6 && f != g
    ensures Faces(c)[f].normal != Faces(c)[g].normal
  {
    var fs := Faces(c);
    assert f == 0 || f == 1 || f == 2 || f == 3 || f == 4 || f == 5;
    assert g == 0 || g == 1 || g == 2 || g == 3 || g == 4 || g == 5;
  }

  /** A face's plane supports the cuboid: for non-negative dimensions no
      vertex lies beyond it, so every normal points out of the solid. */
  lemma CuboidOutward(c: Params)
    requires c.length >= 0.0 && c.width >= 0.0 && c.height >= 0.0
    ensures |CuboidVertices(c)| == 24
    ensures forall k, j :: 0 <= k < 24 && 0 <= j < 24 ==>
              Dot(CuboidVertices(c)[k].normal, CuboidVertices(c)[j].position)
              <= Dot(CuboidVertices(c)[k].normal, CuboidVertices(c)[k].position)
  {
    var vs := CuboidVertices(c);
    CuboidShape(c);
    forall k, j | 0 <= k < 24 && 0 <= j < 24
      ensures Dot(vs[k].normal, vs[j].position) <= Dot(vs[k].normal, vs[k].position)
    {
      SupportBound(c, vs[k].normal, vs[j].position);
    }
  }

  lemma SupportBound(c: Params, n: Vec3, q: Vec3)
    requires c.length >= 0.0 && c.width >= 0.0 && c.height >= 0.0
    requires AxisUnit(n) && Corner(c, q)
    ensures Dot(n, q) <= Support(c, n)
  {
  }

  /** The turning direction of face f's first three corners, measured along
      its normal: positive when the face is counter-clockwise seen from the
      side its normal points to. */
  function Winding(vs: seq<Vertex>, f: int): real
    requires 0 <= f && 4 * f + 2 < |vs|
  {
    var a, b, d := vs[4 * f].position, vs[4 * f + 1].position, vs[4 * f + 2].position;
    Dot(vs[4 * f].normal, Cross(Sub(b, a), Sub(d, b)))
  }

  /** For a cuboid of positive size the front, right and top faces are wound
      counter-clockwise seen from outside, while the back, left and bottom
      faces repeat their partner's corner order and so are wound clockwise. */
  lemma CuboidWinding(c: Params)
    requires c.length > 0.0 && c.width > 0.0 && c.height > 0.0
    ensures |CuboidVertices(c)| == 24
    ensures var vs := CuboidVertices(c);
            Winding(vs, 0) > 0.0 && Winding(vs, 2) > 0.0 && Winding(vs, 4) > 0.0
    ensures var vs := CuboidVertices(c);
            Winding(vs, 1) < 0.0 && Winding(vs, 3) < 0.0 && Winding(vs, 5) < 0.0
  {
    var vs := CuboidVertices(c);
    var l, w, h := HalfLength(c), HalfWidth(c), HalfHeight(c);
    FaceAt(c, 0); FaceAt(c, 1); FaceAt(c, 2); FaceAt(c, 3); FaceAt(c, 4); FaceAt(c, 5);
    assert l * h > 0.0 && h * w > 0.0 && l * w > 0.0;
    assert Winding(vs, 0) == 4.0 * l * h;
    assert Winding(vs, 1) == -4.0 * l * h;
    assert Winding(vs, 2) == 4.0 * w * h;
    assert Winding(vs, 3) == -4.0 * w * h;
    assert Winding(vs, 4) == 4.0 * l * w;
    assert Winding(vs, 5) == -4.0 * l * w;
  }

  /** Where the x-mirror image of vertex k is emitted: the right and left
      faces swap whole, and on the other four faces the corners swap in
      pairs (0 with 1, 2 with 3). */
  function MirrorIndex(k: int): (m: int)
    requires 0 <= k < 24
    ensures 0 <= m < 24
  {
    if 8 <= k < 12 then k + 4
    else if 12 <= k < 16 then k - 4
    else if k % 2 == 0 then k + 1
    else k - 1
  }

  lemma MirrorIndexInvolution(k: int)
    requires 0 <= k < 24
    ensures MirrorIndex(MirrorIndex(k)) == k
  {
  }

  /** A vertex reflected in the plane x = 0, normal and position alike. */
  function MirrorVertex(v: Vertex): Vertex {
    Vertex(MirrorX(v.normal), MirrorX(v.position))
  }

  /** draw_rectangle's cuboid is symmetric in the plane x = 0 vertex for
      vertex: reflecting vertex k gives exactly the vertex emitted at
      MirrorIndex(k), normal included. */
  lemma CuboidMirror(c: Params)
    ensures |CuboidVertices(c)| == 24
    ensures forall k :: 0 <= k < 24 ==> CuboidVertices(c)[MirrorIndex(k)] == MirrorVertex(CuboidVertices(c)[k])
  {
    Layout(c);
    forall k | 0 <= k < 24
      ensures CuboidVertices(c)[MirrorIndex(k)] == MirrorVertex(CuboidVertices(c)[k])
    {
      MirrorAt(c, k);
    }
  }

  lemma MirrorAt(c: Params, k: int)
    requires 0 <= k < 24
    ensures |CuboidVertices(c)| == 24
    ensures CuboidVertices(c)[MirrorIndex(k)] == MirrorVertex(CuboidVertices(c)[k])
  {
    var m := MirrorIndex(k);
    VertexAt(c, k);
    VertexAt(c, m);
    MirrorCorners(c, k);
    MirrorNormals(k);
    FaceNormal(c, k / 4);
    FaceNormal(c, m / 4);
  }

  /** Corner k % 4 of face k / 4, reflected, is corner MirrorIndex(k) % 4 of
      face MirrorIndex(k) / 4. */
  predicate CornerMirrored(c: Params, k: int)
    requires 0 <= k < 24
  {
    var m := MirrorIndex(k);
    && |Faces(c)[m / 4].points| == 4
    && |Faces(c)[k / 4].points| == 4
    && Faces(c)[m / 4].points[m % 4] == MirrorX(Faces(c)[k / 4].points[k % 4])
  }

  /** Vertex k's corner, reflected, is the corner at its mirror index. The
      three lemmas below split the cases by face pair; each branch of their
      chains fixes k to one literal, so the corner and its mirror index are
      evaluated rather than searched for. */
  lemma MirrorCorners(c: Params, k: int)
    requires 0 <= k < 24
    ensures CornerMirrored(c, k)
  {
    if k < 8 {
      MirrorFrontBack(c, k);
    } else if k < 16 {
      MirrorRightLeft(c, k);
    } else {
      MirrorTopBottom(c, k);
    }
  }

  /** The front and back faces are their own mirror images, corners 0/1 and 2/3 swapped. */
  lemma MirrorFrontBack(c: Params, k: int)
    requires 0 <= k < 8
    ensures CornerMirrored(c, k)
  {
    if k == 0 {
    } else if k == 1 {
    } else if k == 2 {
    } else if k == 3 {
    } else if k == 4 {
    } else if k == 5 {
    } else if k == 6 {
    } else {
      assert k == 7;
    }
  }

  /** The right and left faces are each other's mirror images, corner for corner. */
  lemma MirrorRightLeft(c: Params, k: int)
    requires 8 <= k < 16
    ensures CornerMirrored(c, k)
  {
    if k == 8 {
    } else if k == 9 {
    } else if k == 10 {
    } else if k == 11 {
    } else if k == 12 {
    } else if k == 13 {
    } else if k == 14 {
    } else {
      assert k == 15;
    }
  }

  /** The top and bottom faces are their own mirror images, corners 0/1 and 2/3 swapped. */
  lemma MirrorTopBottom(c: Params, k: int)
    requires 16 <= k < 24
    ensures CornerMirrored(c, k)
  {
    if k == 16 {
    } else if k == 17 {
    } else if k == 18 {
    } else if k == 19 {
    } else if k == 20 {
    } else if k == 21 {
    } else if k == 22 {
    } else {
      assert k == 23;
    }
  }

  /** The face that vertex MirrorIndex(k) belongs to has vertex k's face
      normal, reflected: the right and left faces swap, and every other face
      keeps its own normal, which has no x component. */
  lemma MirrorNormals(k: int)
    requires 0 <= k < 24
    ensures FaceNormals[MirrorIndex(k) / 4] == MirrorX(FaceNormals[k / 4])
  {
    var f := k / 4;
    if f == 2 {
      assert MirrorIndex(k) / 4 == 3;
    } else if f == 3 {
      assert MirrorIndex(k) / 4 == 2;
    } else {
      assert MirrorIndex(k) / 4 == f;
      assert FaceNormals[f].x == 0.0;
    }
  }
}
