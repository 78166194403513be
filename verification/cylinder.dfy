/** draw_cylinder: a quad strip round the side of a cylinder standing on the
    y axis, then a top and a bottom polygon. */
module Cylinder {
  import opened Vectors
  import opened Optional
  import opened Immediate

  /** The platform's M_PI, cos and sin. Nothing here depends on their values. */
  datatype Trig = Trig(pi: real, cos: real -> real, sin: real -> real)

  /** The arguments of draw_cylinder. The source has no guard on segments:
      zero divides by zero, a negative count runs every loop zero times. */
  datatype Params = Params(radius: real, height: real, segments: int)

  predicate Valid(c: Params) {
    c.segments != 0
  }

  /** How often `for (int i = 0; i < bound; i++)` runs its body. */
  function Iterations(bound: int): (n: nat)
    ensures bound >= 0 ==> n == bound
    ensures bound < 0 ==> n == 0
  {
    if bound < 0 then 0 else bound
  }

  /** The same loop run one test at a time: from counter i, how many bodies
      run before `i < bound` fails. */
  function LoopCount(i: int, bound: int): nat
    decreases bound - i
  {
    if i < bound then 1 + LoopCount(i + 1, bound) else 0
  }

  /** Counting the loop step by step from i agrees with Iterations(bound - i);
      from 0 it is Iterations(bound). */
  lemma {:induction false} LoopCountMatches(i: int, bound: int)
    ensures LoopCount(i, bound) == Iterations(bound - i)
    decreases bound - i
  {
    if i < bound {
      LoopCountMatches(i + 1, bound);
    }
  }

  /** The number of side steps: the side loop runs i = 0 .. segments inclusive. */
  function SideSteps(c: Params): nat {
    Iterations(c.segments + 1)
  }

  /** The number of vertices in each cap: the cap loops run i = 0 .. segments - 1. */
  function CapSize(c: Params): nat {
    Iterations(c.segments)
  }

  /** Step i's angle, i times 2 pi / segments. */
  function Angle(c: Params, trig: Trig, i: int): real
    requires Valid(c)
  {
    i as real * (2.0 * trig.pi / c.segments as real)
  }

  /** The point at step i of the circle of the cylinder's radius, at height y. */
  function Rim(c: Params, trig: Trig, i: int, y: real): Vec3
    requires Valid(c)
  {
    Vec3(c.radius * trig.cos(Angle(c, trig, i)), y, c.radius * trig.sin(Angle(c, trig, i)))
  }

  function Bottom(c: Params): real {
    -c.height / 2.0
  }

  function Top(c: Params): real {
    c.height / 2.0
  }

  const Up := UnitY
  const Down := Vec3(0.0, -1.0, 0.0)

  /** Side step i: glNormal3f(x, 0, z), then the bottom and the top vertex. */
  function SideGroups(c: Params, trig: Trig): seq<Shaded>
    requires Valid(c)
  {
    seq(SideSteps(c), i requires 0 <= i < SideSteps(c) =>
      Shaded(Rim(c, trig, i, 0.0), [Rim(c, trig, i, Bottom(c)), Rim(c, trig, i, Top(c))]))
  }

  /** The cap loop's vertices at height y. */
  function Ring(c: Params, trig: Trig, y: real): seq<Vec3>
    requires Valid(c)
  {
    seq(CapSize(c), i requires 0 <= i < CapSize(c) => Rim(c, trig, i, y))
  }

  function TopCap(c: Params, trig: Trig): Shaded
    requires Valid(c)
  {
    Shaded(Up, Ring(c, trig, Top(c)))
  }

  function BottomCap(c: Params, trig: Trig): Shaded
    requires Valid(c)
  {
    Shaded(Down, Ring(c, trig, Bottom(c)))
  }

  /** The calls draw_cylinder issues, in order: it opens with the side's
      glBegin(GL_QUAD_STRIP) and closes with the bottom cap's glEnd(); each
      side step costs a normal and two vertices, each cap a normal and its
      ring, each of the three pairs a glBegin and a glEnd. */
  function DrawCylinder(c: Params, trig: Trig): (r: seq<Call>)
    requires Valid(c)
    ensures |r| == 3 * SideSteps(c) + 2 * CapSize(c) + 8
    ensures r[0] == Begin(QuadStrip) && r[|r| - 1] == End
    ensures c.segments > 0 ==> |r| == 5 * c.segments + 11
  {
    CylinderCaps(c, trig);
    BlockLength(QuadStrip, SideGroups(c, trig));
    BlockLength(Polygon, [TopCap(c, trig)]);
    BlockLength(Polygon, [BottomCap(c, trig)]);
    Block(QuadStrip, SideGroups(c, trig))
    + Block(Polygon, [TopCap(c, trig)])
    + Block(Polygon, [BottomCap(c, trig)])
  }

  /** The three batches: side strip, top cap, bottom cap. */
  function CylinderBatches(c: Params, trig: Trig): seq<Batch>
    requires Valid(c)
  {
    [ Batch(QuadStrip, GroupVertices(SideGroups(c, trig))),
      Batch(Polygon, GroupVertices([TopCap(c, trig)])),
      Batch(Polygon, GroupVertices([BottomCap(c, trig)])) ]
  }

  /** From outside any glBegin/glEnd pair, draw_cylinder closes exactly the
      three batches, whatever the current normal was before, and leaves the
      current normal at the bottom cap's (0, -1, 0). */
  lemma DrawCylinderRuns(m: Machine, c: Params, trig: Trig)
    requires Idle(m) && Valid(c)
    ensures Run(m, DrawCylinder(c, trig)) == Some(Machine(Down, None, m.emitted + CylinderBatches(c, trig)))
  {
    RunThreeBlocks(m, QuadStrip, SideGroups(c, trig), Polygon, [TopCap(c, trig)], Polygon, [BottomCap(c, trig)]);
  }

  /** The side strip holds one bottom/top pair per step, step i at angle
      i * 2 pi / segments. The two vertices of a pair share x and z, sit at
      y = -height/2 and y = +height/2, and both carry the normal (x, 0, z):
      radial, with no y component. */
  lemma CylinderSide(c: Params, trig: Trig)
    requires Valid(c)
    ensures CylinderBatches(c, trig)[0].mode == QuadStrip
    ensures |CylinderBatches(c, trig)[0].vertices| == 2 * SideSteps(c)
    ensures forall i :: 0 <= i < SideSteps(c) ==>
              var b := CylinderBatches(c, trig)[0].vertices[2 * i];
              var t := CylinderBatches(c, trig)[0].vertices[2 * i + 1];
              && b.position.x == t.position.x == c.radius * trig.cos(Angle(c, trig, i))
              && b.position.z == t.position.z == c.radius * trig.sin(Angle(c, trig, i))
              && b.position.y == -c.height / 2.0
              && t.position.y == c.height / 2.0
              && b.normal == t.normal == Vec3(b.position.x, 0.0, b.position.z)
  {
    SideLayout(c, trig);
    assert CylinderBatches(c, trig)[0] == Batch(QuadStrip, GroupVertices(SideGroups(c, trig)));
  }

  /** Side step i records the bottom and then the top rim point, both under
      the rim point at height 0. */
  lemma SideLayout(c: Params, trig: Trig)
    requires Valid(c)
    ensures |GroupVertices(SideGroups(c, trig))| == 2 * SideSteps(c)
    ensures forall i :: 0 <= i < SideSteps(c) ==>
              && GroupVertices(SideGroups(c, trig))[2 * i] == Vertex(Rim(c, trig, i, 0.0), Rim(c, trig, i, Bottom(c)))
              && GroupVertices(SideGroups(c, trig))[2 * i + 1] == Vertex(Rim(c, trig, i, 0.0), Rim(c, trig, i, Top(c)))
  {
    var gs := SideGroups(c, trig);
    UniformLayout(gs, 2);
    forall i | 0 <= i < SideSteps(c)
      ensures GroupVertices(gs)[2 * i] == Vertex(Rim(c, trig, i, 0.0), Rim(c, trig, i, Bottom(c)))
      ensures GroupVertices(gs)[2 * i + 1] == Vertex(Rim(c, trig, i, 0.0), Rim(c, trig, i, Top(c)))
    {
      assert Index(i, 0, 2, |gs|) == 2 * i;
      assert Index(i, 1, 2, |gs|) == 2 * i + 1;
    }
  }

  /** Each cap holds segments vertices, all at the cap's height and all under
      the cap's axis normal; cap vertex i is exactly side vertex 2i + 1 (top)
      or 2i (bottom), so the caps close the side strip. */
  lemma CylinderCaps(c: Params, trig: Trig)
    requires Valid(c)
    ensures var b := CylinderBatches(c, trig);
            && b[1].mode == Polygon && b[2].mode == Polygon
            && |b[1].vertices| == |b[2].vertices| == CapSize(c)
            && |b[0].vertices| == 2 * SideSteps(c)
    ensures var b := CylinderBatches(c, trig);
            forall i :: 0 <= i < CapSize(c) ==>
              && b[1].vertices[i].normal == Vec3(0.0, 1.0, 0.0)
              && b[1].vertices[i].position.y == c.height / 2.0
              && b[1].vertices[i].position == b[0].vertices[2 * i + 1].position
    ensures var b := CylinderBatches(c, trig);
            forall i :: 0 <= i < CapSize(c) ==>
              && b[2].vertices[i].normal == Vec3(0.0, -1.0, 0.0)
              && b[2].vertices[i].position.y == -c.height / 2.0
              && b[2].vertices[i].position == b[0].vertices[2 * i].position
  {
    var b := CylinderBatches(c, trig);
    SideLayout(c, trig);
    assert b[0].vertices == GroupVertices(SideGroups(c, trig));
    assert b[1].vertices == Shade(TopCap(c, trig)) by {
      assert GroupVertices([TopCap(c, trig)]) == Shade(TopCap(c, trig)) + GroupVertices([]);
    }
    assert b[2].vertices == Shade(BottomCap(c, trig)) by {
      assert GroupVertices([BottomCap(c, trig)]) == Shade(BottomCap(c, trig)) + GroupVertices([]);
    }
  }

  /** A cylinder with segments >= 1 emits 4 * segments + 2 vertices; with a
      negative count it emits none. */
  lemma CylinderVertexCount(c: Params, trig: Trig)
    requires Valid(c)
    ensures var b := CylinderBatches(c, trig);
            c.segments > 0 ==> |b[0].vertices| + |b[1].vertices| + |b[2].vertices| == 4 * c.segments + 2
    ensures var b := CylinderBatches(c, trig);
            c.segments < 0 ==> |b[0].vertices| + |b[1].vertices| + |b[2].vertices| == 0
  {
    CylinderCaps(c, trig);
  }

  /** The last side step's angle is the first one's plus exactly 2 pi. */
  lemma RingCloses(c: Params, trig: Trig)
    requires c.segments > 0
    ensures Angle(c, trig, c.segments) - Angle(c, trig, 0) == 2.0 * trig.pi
  {
    var s := c.segments as real;
    assert s * (2.0 * trig.pi / s) == 2.0 * trig.pi;
  }

  /** When cos and sin repeat after 2 pi, the last side pair is the first one
      again: the strip closes with no gap at the seam. */
  lemma SideSeamCloses(c: Params, trig: Trig)
    requires c.segments > 0
    requires trig.cos(2.0 * trig.pi) == trig.cos(0.0) && trig.sin(2.0 * trig.pi) == trig.sin(0.0)
    ensures var side := CylinderBatches(c, trig)[0].vertices;
            && |side| == 2 * c.segments + 2
            && side[2 * c.segments] == side[0]
            && side[2 * c.segments + 1] == side[1]
  {
    RingCloses(c, trig);
    CylinderSide(c, trig);
    assert Angle(c, trig, 0) == 0.0;
  }

  /** Side vertex k carries step k / 2's radial normal. */
  lemma SideNormalAt(c: Params, trig: Trig, k: int)
    requires Valid(c) && 0 <= k < 2 * SideSteps(c)
    ensures |CylinderBatches(c, trig)[0].vertices| == 2 * SideSteps(c)
    ensures CylinderBatches(c, trig)[0].vertices[k].normal == Rim(c, trig, k / 2, 0.0)
  {
    var gs := SideGroups(c, trig);
    UniformLayout(gs, 2);
    assert k == Index(k / 2, k % 2, 2, |gs|);
    assert gs[k / 2].normal == Rim(c, trig, k / 2, 0.0);
  }

  lemma SquaredLength(r: real, co: real, si: real)
    requires co * co + si * si == 1.0
    ensures (r * co) * (r * co) + 0.0 * 0.0 + (r * si) * (r * si) == r * r
  {
    calc {
      (r * co) * (r * co) + 0.0 * 0.0 + (r * si) * (r * si);
      r * r * (co * co + si * si);
      r * r;
    }
  }

  /** When cos^2 + sin^2 = 1, every side normal has squared length radius^2:
      the source does not scale it to unit length. */
  lemma SideNormalLength(c: Params, trig: Trig)
    requires Valid(c)
    requires forall a :: trig.cos(a) * trig.cos(a) + trig.sin(a) * trig.sin(a) == 1.0
    ensures var side := CylinderBatches(c, trig)[0].vertices;
            forall k :: 0 <= k < |side| ==> Dot(side[k].normal, side[k].normal) == c.radius * c.radius
  {
    var side := CylinderBatches(c, trig)[0].vertices;
    CylinderSide(c, trig);
    forall k | 0 <= k < |side|
      ensures Dot(side[k].normal, side[k].normal) == c.radius * c.radius
    {
      SideNormalAt(c, trig, k);
      var a := Angle(c, trig, k / 2);
      SquaredLength(c.radius, trig.cos(a), trig.sin(a));
    }
  }
}
