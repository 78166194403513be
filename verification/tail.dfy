/** draw_triangle: the tail, four GL_TRIANGLES over four points. */
module Tail {
  import opened Vectors
  import opened Optional
  import opened Immediate

  /** The arguments of draw_triangle. */
  datatype Params = Params(bottomEdge: real, height1: real, height2: real)

  /** The four points every tail vertex is one of: the apex at the origin,
      the two ends of the bottom edge and the keel point under its middle. */
  function Apex(t: Params): Vec3 { Origin }
  function EdgeRight(t: Params): Vec3 { Vec3(t.bottomEdge / 2.0, 0.0, t.height1) }
  function EdgeLeft(t: Params): Vec3 { Vec3(-t.bottomEdge / 2.0, 0.0, t.height1) }
  function Keel(t: Params): Vec3 { Vec3(0.0, -t.height2, t.height1) }

  function Points(t: Params): seq<Vec3> {
    [Apex(t), EdgeRight(t), EdgeLeft(t), Keel(t)]
  }

  /** The four faces in the order draw_triangle issues them, each under the
      normal (0, 0, 1). */
  function Faces(t: Params): seq<Shaded> {
    var o, r, l, k := Apex(t), EdgeRight(t), EdgeLeft(t), Keel(t);
    [ Shaded(UnitZ, [o, r, l]),
      Shaded(UnitZ, [o, k, r]),
      Shaded(UnitZ, [o, k, l]),
      Shaded(UnitZ, [l, k, r]) ]
  }

  /** The calls draw_triangle issues, in order: one glBegin(GL_TRIANGLES),
      four normals, twelve corners, one glEnd. */
  function DrawTriangle(t: Params): (r: seq<Call>)
    ensures |r| == 18 && r[0] == Begin(Triangles) && r[17] == End
  {
    AllFaces(t);
    BlockLength(Triangles, Faces(t));
    Block(Triangles, Faces(t))
  }

  function TailVertices(t: Params): seq<Vertex> {
    GroupVertices(Faces(t))
  }

  /** From outside any pair, draw_triangle closes one GL_TRIANGLES batch and
      leaves the current normal at (0, 0, 1). */
  lemma DrawTriangleRuns(m: Machine, t: Params)
    requires Idle(m)
    ensures Run(m, DrawTriangle(t))
         == Some(Machine(UnitZ, None, m.emitted + [Batch(Triangles, TailVertices(t))]))
  {
    RunBlock(m, Triangles, Faces(t));
  }

  /** Face f's three corners are vertices 3f .. 3f + 2. */
  lemma FaceAt(t: Params, f: int)
    requires 0 <= f < 4
    ensures |TailVertices(t)| == 12
    ensures var g := Faces(t)[f];
            && TailVertices(t)[3 * f] == Vertex(g.normal, g.points[0])
            && TailVertices(t)[3 * f + 1] == Vertex(g.normal, g.points[1])
            && TailVertices(t)[3 * f + 2] == Vertex(g.normal, g.points[2])
  {
    var fs := Faces(t);
    UniformLayout(fs, 3);
    assert Index(f, 0, 3, 4) == 3 * f;
    assert Index(f, 1, 3, 4) == 3 * f + 1;
    assert Index(f, 2, 3, 4) == 3 * f + 2;
  }

  lemma AllFaces(t: Params)
    ensures |TailVertices(t)| == 12
    ensures forall f :: 0 <= f < 4 ==>
              var g := Faces(t)[f];
              && TailVertices(t)[3 * f] == Vertex(g.normal, g.points[0])
              && TailVertices(t)[3 * f + 1] == Vertex(g.normal, g.points[1])
              && TailVertices(t)[3 * f + 2] == Vertex(g.normal, g.points[2])
  {
    FaceAt(t, 0); FaceAt(t, 1); FaceAt(t, 2); FaceAt(t, 3);
  }

  /** The corners of triangle f. */
  function Corners(vs: seq<Vertex>, f: int): set<Vec3>
    requires 0 <= f && 3 * f + 2 < |vs|
  {
    {vs[3 * f].position, vs[3 * f + 1].position, vs[3 * f + 2].position}
  }

  /** How many of the first n triangles have both p and q as corners. */
  function FacesOnEdge(vs: seq<Vertex>, p: Vec3, q: Vec3, n: nat): nat
    requires 3 * n <= |vs|
  {
    if n == 0 then 0
    else FacesOnEdge(vs, p, q, n - 1) + OnEdge(vs, p, q, n - 1)
  }

  /** 1 when triangle f has both p and q as corners, else 0. */
  function OnEdge(vs: seq<Vertex>, p: Vec3, q: Vec3, f: nat): nat
    requires 3 * f + 2 < |vs|
  {
    if p in Corners(vs, f) && q in Corners(vs, f) then 1 else 0
  }

  lemma CountFour(vs: seq<Vertex>, p: Vec3, q: Vec3)
    requires |vs| == 12
    ensures FacesOnEdge(vs, p, q, 4)
         == OnEdge(vs, p, q, 0) + OnEdge(vs, p, q, 1) + OnEdge(vs, p, q, 2) + OnEdge(vs, p, q, 3)
  {
    assert FacesOnEdge(vs, p, q, 1) == OnEdge(vs, p, q, 0);
    assert FacesOnEdge(vs, p, q, 2) == FacesOnEdge(vs, p, q, 1) + OnEdge(vs, p, q, 1);
    assert FacesOnEdge(vs, p, q, 3) == FacesOnEdge(vs, p, q, 2) + OnEdge(vs, p, q, 2);
  }

  /** draw_triangle emits four triangles, 12 vertices, every one under the
      normal (0, 0, 1) and at one of the four tail points. */
  lemma TailShape(t: Params)
    ensures |TailVertices(t)| == 12
    ensures forall k :: 0 <= k < 12 ==> TailVertices(t)[k].normal == Vec3(0.0, 0.0, 1.0)
    ensures forall k :: 0 <= k < 12 ==> TailVertices(t)[k].position in Points(t)
  {
    var vs := TailVertices(t);
    AllFaces(t);
    forall k | 0 <= k < 12
      ensures vs[k].normal == Vec3(0.0, 0.0, 1.0) && vs[k].position in Points(t)
    {
      var f, j := k / 3, k % 3;
      FaceAt(t, f);
      assert k == 3 * f + j;
      assert f == 0 || f == 1 || f == 2 || f == 3;
      assert j == 0 || j == 1 || j == 2;
    }
  }

  /** With a non-zero bottom edge and height1, the four points are distinct
      and the four triangles are the four different three-point subsets of
      them: each pair of points is an edge of exactly two triangles, as on a
      tetrahedron. TailSolid adds that no face is flat when height2 is
      non-zero as well. */
  lemma TailClosed(t: Params)
    requires t.bottomEdge != 0.0 && t.height1 != 0.0
    ensures |TailVertices(t)| == 12
    ensures forall i, j :: 0 <= i < j < 4 ==> Points(t)[i] != Points(t)[j]
    ensures forall f :: 0 <= f < 4 ==>
              var vs := TailVertices(t);
              && vs[3 * f].position != vs[3 * f + 1].position
              && vs[3 * f + 1].position != vs[3 * f + 2].position
              && vs[3 * f].position != vs[3 * f + 2].position
    ensures forall f, g :: 0 <= f < g < 4 ==> Corners(TailVertices(t), f) != Corners(TailVertices(t), g)
    ensures forall i, j :: 0 <= i < j < 4 ==> FacesOnEdge(TailVertices(t), Points(t)[i], Points(t)[j], 4) == 2
  {
    var vs := TailVertices(t);
    var o, r, l, k := Apex(t), EdgeRight(t), EdgeLeft(t), Keel(t);
    AllFaces(t);
    assert o != r && o != l && o != k && r != l && r != k && l != k;
    assert Corners(vs, 0) == {o, r, l};
    assert Corners(vs, 1) == {o, k, r};
    assert Corners(vs, 2) == {o, k, l};
    assert Corners(vs, 3) == {l, k, r};
    assert k !in Corners(vs, 0) && l !in Corners(vs, 1) && r !in Corners(vs, 2) && o !in Corners(vs, 3);
    forall i, j | 0 <= i < j < 4
      ensures FacesOnEdge(vs, Points(t)[i], Points(t)[j], 4) == 2
    {
      CountFour(vs, Points(t)[i], Points(t)[j]);
      assert i == 0 || i == 1 || i == 2;
      assert j == 1 || j == 2 || j == 3;
    }
  }

  /** Twice the area vector of triangle f: the cross product of its first
      two edges. It is the zero vector exactly when the corners are collinear. */
  function Spread(vs: seq<Vertex>, f: int): Vec3
    requires 0 <= f && 3 * f + 2 < |vs|
  {
    Cross(Sub(vs[3 * f + 1].position, vs[3 * f].position), Sub(vs[3 * f + 2].position, vs[3 * f].position))
  }

  /** With a non-zero bottom edge, height1 and height2 no triangle is flat:
      each has a non-zero area vector, so the four faces bound a solid. */
  lemma TailSolid(t: Params)
    requires t.bottomEdge != 0.0 && t.height1 != 0.0 && t.height2 != 0.0
    ensures |TailVertices(t)| == 12
    ensures forall f :: 0 <= f < 4 ==> Spread(TailVertices(t), f) != Origin
  {
    var vs := TailVertices(t);
    var b, h1, h2 := t.bottomEdge, t.height1, t.height2;
    AllFaces(t);
    assert Spread(vs, 0) == Vec3(0.0, -(b * h1), 0.0);
    assert Spread(vs, 1) == Vec3(-(h1 * h2), (b / 2.0) * h1, (b / 2.0) * h2);
    assert Spread(vs, 2) == Vec3(-(h1 * h2), -((b / 2.0) * h1), -((b / 2.0) * h2));
    assert Spread(vs, 3) == Vec3(0.0, 0.0, b * h2);
    assert b * h1 != 0.0 && b * h2 != 0.0;
  }

  /** With height2 = 0 the keel is the middle of the bottom edge and the
      last triangle collapses onto that edge. */
  lemma TailFlatWithoutKeel(t: Params)
    requires t.height2 == 0.0
    ensures |TailVertices(t)| == 12
    ensures Spread(TailVertices(t), 3) == Origin
    ensures Keel(t) == Vec3((EdgeRight(t).x + EdgeLeft(t).x) / 2.0, 0.0, t.height1)
  {
    FaceAt(t, 3);
  }

  /** The base triangle (the last one, in the plane z = height1) is
      perpendicular to the shared normal (0, 0, 1), and for a positive
      height1 that normal points away from the apex. On each of the other
      three triangles the first edge climbs height1 along the normal, so for
      a non-zero height1 the base is the only face perpendicular to it. */
  lemma TailShading(t: Params)
    ensures |TailVertices(t)| == 12
    ensures var vs := TailVertices(t);
            forall f :: 0 <= f < 3 ==>
              Dot(vs[3 * f].normal, Sub(vs[3 * f + 1].position, vs[3 * f].position)) == t.height1
    ensures var vs := TailVertices(t);
            && Dot(vs[9].normal, Sub(vs[10].position, vs[9].position)) == 0.0
            && Dot(vs[9].normal, Sub(vs[11].position, vs[10].position)) == 0.0
    ensures var vs := TailVertices(t);
            t.height1 > 0.0 ==> Dot(vs[9].normal, Apex(t)) < Dot(vs[9].normal, vs[9].position)
  {
    var vs := TailVertices(t);
    FaceAt(t, 0); FaceAt(t, 1); FaceAt(t, 2); FaceAt(t, 3);
    forall f | 0 <= f < 3
      ensures Dot(vs[3 * f].normal, Sub(vs[3 * f + 1].position, vs[3 * f].position)) == t.height1
    {
      assert f == 0 || f == 1 || f == 2;
    }
  }
}
