/** The slice of OpenGL immediate mode that the airplane's draw routines use:
    glBegin, glEnd, glNormal3f and glVertex3f, run by a small state machine.
    glVertex3f records the position together with the CURRENT normal, i.e. the
    one set by the most recent glNormal3f, so a single glNormal3f can shade
    several vertices. */
module Immediate {
  import opened Vectors
  import opened Optional

  /** The primitive modes passed to glBegin by the draw routines. */
  datatype Topology = QuadStrip | Polygon | Quads | Triangles

  /** One recorded vertex: the current normal and the position. */
  datatype Vertex = Vertex(normal: Vec3, position: Vec3)

  /** What one glBegin/glEnd pair draws. */
  datatype Batch = Batch(mode: Topology, vertices: seq<Vertex>)

  datatype Call = Begin(mode: Topology) | End | Normal(n: Vec3) | Vertex3(p: Vec3)

  /** The state the calls touch: the current normal, the batch opened by
      glBegin (if any), and the batches already closed by glEnd. */
  datatype Machine = Machine(normal: Vec3, open: Option<Batch>, emitted: seq<Batch>)

  /** A machine outside any glBegin/glEnd pair. */
  predicate Idle(m: Machine) {
    m.open.None?
  }

  /** One call. glBegin inside a pair and glEnd outside one are GL errors
      (INVALID_OPERATION); glVertex outside a pair has no defined effect. All
      three are reported as None. Closed batches are never altered. */
  function Step(m: Machine, c: Call): (r: Option<Machine>)
    ensures r.None? <==> (c.Begin? && !Idle(m)) || ((c.End? || c.Vertex3?) && Idle(m))
    ensures r.Some? ==> m.emitted <= r.value.emitted
  {
    match c
    case Begin(mode) =>
      if m.open.Some? then None else Some(m.(open := Some(Batch(mode, []))))
    case End =>
      if m.open.None? then None else Some(m.(open := None, emitted := m.emitted + [m.open.value]))
    case Normal(n) =>
      Some(m.(normal := n))
    case Vertex3(p) =>
      if m.open.None? then None
      else Some(m.(open := Some(m.open.value.(vertices := m.open.value.vertices + [Vertex(m.normal, p)]))))
  }

  /** A call stream, left to right; None as soon as one call is an error.
      Whatever succeeds only ever extends the emitted batches. */
  function Run(m: Machine, cs: seq<Call>): (r: Option<Machine>)
    ensures r.Some? ==> m.emitted <= r.value.emitted
    decreases |cs|
  {
    if |cs| == 0 then Some(m)
    else match Step(m, cs[0])
      case None => None
      case Some(m') => Run(m', cs[1..])
  }

  /** Continues a run that may already have failed. */
  function Then(r: Option<Machine>, cs: seq<Call>): Option<Machine> {
    match r
    case None => None
    case Some(m) => Run(m, cs)
  }

  /** Running two streams back to back is running their concatenation. */
  lemma {:induction false} RunAppend(m: Machine, a: seq<Call>, b: seq<Call>)
    ensures Run(m, a + b) == Then(Run(m, a), b)
    decreases |a|
  {
    if |a| == 0 {
      assert a + b == b;
    } else {
      assert (a + b)[0] == a[0];
      assert (a + b)[1..] == a[1..] + b;
      match Step(m, a[0])
      case None =>
      case Some(m') => RunAppend(m', a[1..], b);
    }
  }

  lemma AppendThree<T>(s: seq<T>, x: T, y: T, z: T)
    ensures s + [x, y] + [z] == s + [x, y, z]
  {
  }

  /** A run that reaches m1 and a run on from m1 that reaches m2 make one run
      of the two streams together. */
  lemma RunChain(m: Machine, a: seq<Call>, b: seq<Call>, m1: Machine, m2: Machine)
    requires Run(m, a) == Some(m1) && Run(m1, b) == Some(m2)
    ensures Run(m, a + b) == Some(m2)
  {
    RunAppend(m, a, b);
  }

  /** One glNormal3f followed by glVertex3f calls for the points, in order. */
  datatype Shaded = Shaded(normal: Vec3, points: seq<Vec3>)

  /** glVertex3f for each point, in order. */
  function Emit(ps: seq<Vec3>): (r: seq<Call>)
    ensures |r| == |ps|
    ensures forall k :: 0 <= k < |r| ==> r[k] == Vertex3(ps[k])
    decreases |ps|
  {
    if |ps| == 0 then [] else [Vertex3(ps[0])] + Emit(ps[1..])
  }

  /** Each group's glNormal3f followed by one glVertex3f per point. */
  function GroupCalls(gs: seq<Shaded>): seq<Call>
    decreases |gs|
  {
    if |gs| == 0 then [] else [Normal(gs[0].normal)] + Emit(gs[0].points) + GroupCalls(gs[1..])
  }

  /** glBegin(mode), the groups, glEnd(). */
  function Block(mode: Topology, gs: seq<Shaded>): seq<Call> {
    [Begin(mode)] + GroupCalls(gs) + [End]
  }

  /** A pair issues one call per group and one per vertex the groups record,
      plus its glBegin and glEnd. */
  lemma {:induction false} BlockLength(mode: Topology, gs: seq<Shaded>)
    ensures |Block(mode, gs)| == |gs| + |GroupVertices(gs)| + 2
    ensures Block(mode, gs)[0] == Begin(mode) && Block(mode, gs)[|Block(mode, gs)| - 1] == End
    decreases |gs|
  {
    if |gs| > 0 {
      BlockLength(mode, gs[1..]);
      assert GroupCalls(gs) == [Normal(gs[0].normal)] + Emit(gs[0].points) + GroupCalls(gs[1..]);
      assert GroupVertices(gs) == Shade(gs[0]) + GroupVertices(gs[1..]);
    }
  }

  /** The vertices one group should record: every point under the group's normal. */
  function Shade(g: Shaded): (r: seq<Vertex>)
    ensures |r| == |g.points|
    ensures forall k :: 0 <= k < |r| ==> r[k] == Vertex(g.normal, g.points[k])
  {
    seq(|g.points|, k requires 0 <= k < |g.points| => Vertex(g.normal, g.points[k]))
  }

  function GroupVertices(gs: seq<Shaded>): seq<Vertex>
    decreases |gs|
  {
    if |gs| == 0 then [] else Shade(gs[0]) + GroupVertices(gs[1..])
  }

  /** The current normal after the groups have run from normal n. */
  function LastNormal(n: Vec3, gs: seq<Shaded>): Vec3 {
    if |gs| == 0 then n else gs[|gs| - 1].normal
  }

  /** Appends vertices to the open batch. */
  function Record(m: Machine, vs: seq<Vertex>): Machine
    requires !Idle(m)
  {
    m.(open := Some(m.open.value.(vertices := m.open.value.vertices + vs)))
  }

  /** A one-call stream is one step. */
  lemma RunOne(m: Machine, c: Call)
    ensures Run(m, [c]) == Step(m, c)
  {
    assert [c][1..] == [];
  }

  lemma RecordTwice(m: Machine, a: seq<Vertex>, b: seq<Vertex>)
    requires !Idle(m)
    ensures Record(Record(m, a), b) == Record(m, a + b)
  {
    assert m.open.value.vertices + a + b == m.open.value.vertices + (a + b);
  }

  /** Inside a pair, glVertex3f calls record the points under the current
      normal and change nothing else. */
  lemma {:induction false} RunEmit(m: Machine, ps: seq<Vec3>)
    requires !Idle(m)
    ensures Run(m, Emit(ps)) == Some(Record(m, Shade(Shaded(m.normal, ps))))
    decreases |ps|
  {
    if |ps| == 0 {
      assert Shade(Shaded(m.normal, ps)) == [];
      assert m.open.value.vertices + [] == m.open.value.vertices;
    } else {
      var v := Vertex(m.normal, ps[0]);
      var m' := Record(m, [v]);
      assert Emit(ps) == [Vertex3(ps[0])] + Emit(ps[1..]);
      assert Step(m, Vertex3(ps[0])) == Some(m');
      RunOne(m, Vertex3(ps[0]));
      RunAppend(m, [Vertex3(ps[0])], Emit(ps[1..]));
      RunEmit(m', ps[1..]);
      RecordTwice(m, [v], Shade(Shaded(m.normal, ps[1..])));
      ShadeCons(m.normal, ps);
    }
  }

  lemma ShadeCons(n: Vec3, ps: seq<Vec3>)
    requires |ps| > 0
    ensures Shade(Shaded(n, ps)) == [Vertex(n, ps[0])] + Shade(Shaded(n, ps[1..]))
  {
    var r, t := Shade(Shaded(n, ps)), Shade(Shaded(n, ps[1..]));
    assert forall k :: 1 <= k < |r| ==> r[k] == t[k - 1];
  }

  /** Inside a pair, one group sets the current normal and records its points
      under it. */
  lemma RunGroup(m: Machine, g: Shaded)
    requires !Idle(m)
    ensures Run(m, [Normal(g.normal)] + Emit(g.points)) == Some(Record(m, Shade(g)).(normal := g.normal))
  {
    var m1 := m.(normal := g.normal);
    RunOne(m, Normal(g.normal));
    RunAppend(m, [Normal(g.normal)], Emit(g.points));
    RunEmit(m1, g.points);
    assert Shaded(m1.normal, g.points) == g;
  }

  /** Inside a pair, each group's vertices carry that group's own normal, and
      the current normal ends as the last group's. */
  lemma {:induction false} RunGroups(m: Machine, gs: seq<Shaded>)
    requires !Idle(m)
    ensures Run(m, GroupCalls(gs)) == Some(Record(m, GroupVertices(gs)).(normal := LastNormal(m.normal, gs)))
    decreases |gs|
  {
    if |gs| == 0 {
      assert m.open.value.vertices + [] == m.open.value.vertices;
    } else {
      var g := gs[0];
      var head := [Normal(g.normal)] + Emit(g.points);
      assert GroupCalls(gs) == head + GroupCalls(gs[1..]);
      RunGroup(m, g);
      var m2 := Record(m, Shade(g)).(normal := g.normal);
      RunAppend(m, head, GroupCalls(gs[1..]));
      RunGroups(m2, gs[1..]);
      RecordTwice(m, Shade(g), GroupVertices(gs[1..]));
      assert GroupVertices(gs) == Shade(g) + GroupVertices(gs[1..]);
      assert LastNormal(g.normal, gs[1..]) == LastNormal(m.normal, gs);
    }
  }

  /** A whole glBegin/glEnd block run from an idle machine closes exactly one
      batch of the given mode holding the groups' vertices. */
  lemma RunBlock(m: Machine, mode: Topology, gs: seq<Shaded>)
    requires Idle(m)
    ensures Run(m, Block(mode, gs))
         == Some(Machine(LastNormal(m.normal, gs), None, m.emitted + [Batch(mode, GroupVertices(gs))]))
  {
    var m1 := m.(open := Some(Batch(mode, [])));
    assert Run(m, [Begin(mode)]) == Some(m1);
    RunGroups(m1, gs);
    var m2 := Record(m1, GroupVertices(gs)).(normal := LastNormal(m.normal, gs));
    assert [] + GroupVertices(gs) == GroupVertices(gs);
    assert Run(m2, [End]) == Some(Machine(LastNormal(m.normal, gs), None, m.emitted + [Batch(mode, GroupVertices(gs))]));
    RunAppend(m, [Begin(mode)], GroupCalls(gs));
    RunAppend(m, [Begin(mode)] + GroupCalls(gs), [End]);
  }

  /** Two pairs back to back emit their batches in order, and the current
      normal ends as the second pair leaves it. */
  lemma RunTwoBlocks(m: Machine, a: Topology, ga: seq<Shaded>, b: Topology, gb: seq<Shaded>)
    requires Idle(m)
    ensures Run(m, Block(a, ga) + Block(b, gb))
         == Some(Machine(LastNormal(LastNormal(m.normal, ga), gb), None,
                         m.emitted + [Batch(a, GroupVertices(ga)), Batch(b, GroupVertices(gb))]))
  {
    var aa, bb := Block(a, ga), Block(b, gb);
    var x, y := Batch(a, GroupVertices(ga)), Batch(b, GroupVertices(gb));
    var m1 := Machine(LastNormal(m.normal, ga), None, m.emitted + [x]);
    RunBlock(m, a, ga);
    RunAppend(m, aa, bb);
    assert Run(m, aa + bb) == Run(m1, bb);
    RunBlock(m1, b, gb);
    assert m.emitted + [x] + [y] == m.emitted + [x, y];
  }

  /** Three pairs back to back emit their three batches in order. */
  lemma RunThreeBlocks(m: Machine, a: Topology, ga: seq<Shaded>, b: Topology, gb: seq<Shaded>,
                       c: Topology, gc: seq<Shaded>)
    requires Idle(m)
    ensures Run(m, Block(a, ga) + Block(b, gb) + Block(c, gc))
         == Some(Machine(LastNormal(LastNormal(LastNormal(m.normal, ga), gb), gc), None,
                         m.emitted + [Batch(a, GroupVertices(ga)), Batch(b, GroupVertices(gb)),
                                      Batch(c, GroupVertices(gc))]))
  {
    var x, y, z := Batch(a, GroupVertices(ga)), Batch(b, GroupVertices(gb)), Batch(c, GroupVertices(gc));
    var m2 := Machine(LastNormal(LastNormal(m.normal, ga), gb), None, m.emitted + [x, y]);
    var m3 := Machine(LastNormal(m2.normal, gc), None, m2.emitted + [z]);
    RunTwoBlocks(m, a, ga, b, gb);
    RunBlock(m2, c, gc);
    RunChain(m, Block(a, ga) + Block(b, gb), Block(c, gc), m2, m3);
    AppendThree(m.emitted, x, y, z);
  }

  /** When every group has the same number of points, group f's point j is
      vertex f * arity + j, shaded by that group's normal. */
  lemma {:induction false} UniformLayout(gs: seq<Shaded>, arity: nat)
    requires forall i :: 0 <= i < |gs| ==> |gs[i].points| == arity
    ensures |GroupVertices(gs)| == arity * |gs|
    ensures forall f, j :: 0 <= f < |gs| && 0 <= j < arity ==>
              GroupVertices(gs)[Index(f, j, arity, |gs|)] == Vertex(gs[f].normal, gs[f].points[j])
    decreases |gs|
  {
    if |gs| > 0 {
      UniformLayout(gs[1..], arity);
      var vs := GroupVertices(gs);
      var rest := GroupVertices(gs[1..]);
      assert vs == Shade(gs[0]) + rest;
      assert |vs| == arity + arity * (|gs| - 1);
      forall f, j | 0 <= f < |gs| && 0 <= j < arity
        ensures vs[Index(f, j, arity, |gs|)] == Vertex(gs[f].normal, gs[f].points[j])
      {
        if f > 0 {
          Slot(f, j, arity, |gs|);
          var k := Index(f - 1, j, arity, |gs| - 1);
          assert Index(f, j, arity, |gs|) == k + arity;
          assert gs[1..][f - 1] == gs[f];
          assert rest[k] == Vertex(gs[f].normal, gs[f].points[j]);
        }
      }
    }
  }

  /** Where slot j of group f sits among n groups of the given arity. */
  function Index(f: nat, j: nat, arity: nat, n: nat): (k: nat)
    requires f < n && j < arity
    ensures k < arity * n
  {
    Slot(f, j, arity, n);
    f * arity + j
  }

  /** Slot j of group f lies inside n groups of the given arity, one group
      further on than slot j of group f - 1. */
  lemma Slot(f: nat, j: nat, arity: nat, n: nat)
    requires f < n && j < arity
    ensures 0 <= f * arity + j < arity * n
    ensures f > 0 ==> f * arity + j == (f - 1) * arity + j + arity
  {
    assert f * arity <= (n - 1) * arity by {
      assert (n - 1) * arity - f * arity == (n - 1 - f) * arity;
    }
    assert (n - 1) * arity + arity == arity * n;
  }
}
