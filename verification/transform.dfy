/** The fixed-function model-view matrix as glTranslatef and glRotatef build
    it. Each call post-multiplies the current matrix (section 2.11.2 of the
    OpenGL 2.1 specification), so the call issued last acts on a vertex
    first. */
module Transform {
  import opened Vectors
  import opened Optional

  /** A 3x3 matrix by rows. */
  datatype Mat3 = Mat3(r0: Vec3, r1: Vec3, r2: Vec3)

  function Col0(m: Mat3): Vec3 { Vec3(m.r0.x, m.r1.x, m.r2.x) }
  function Col1(m: Mat3): Vec3 { Vec3(m.r0.y, m.r1.y, m.r2.y) }
  function Col2(m: Mat3): Vec3 { Vec3(m.r0.z, m.r1.z, m.r2.z) }

  function MulVec(m: Mat3, p: Vec3): Vec3 {
    Vec3(Dot(m.r0, p), Dot(m.r1, p), Dot(m.r2, p))
  }

  function MulRow(r: Vec3, b: Mat3): Vec3 {
    Vec3(Dot(r, Col0(b)), Dot(r, Col1(b)), Dot(r, Col2(b)))
  }

  function MatMul(a: Mat3, b: Mat3): Mat3 {
    Mat3(MulRow(a.r0, b), MulRow(a.r1, b), MulRow(a.r2, b))
  }

  /** The matrix product a * b acts as b first, then a. */
  lemma MatMulActs(a: Mat3, b: Mat3, p: Vec3)
    ensures MulVec(MatMul(a, b), p) == MulVec(a, MulVec(b, p))
  {
    RowProduct(a.r0, b, p);
    RowProduct(a.r1, b, p);
    RowProduct(a.r2, b, p);
  }

  lemma RowProduct(r: Vec3, b: Mat3, p: Vec3)
    ensures Dot(MulRow(r, b), p) == Dot(r, MulVec(b, p))
  {
  }

  const IdentityMat := Mat3(UnitX, UnitY, UnitZ)

  /** The affine part of a model-view matrix: p |-> linear * p + offset. */
  datatype Affine = Affine(linear: Mat3, offset: Vec3)

  const Identity := Affine(IdentityMat, Origin)

  function Apply(a: Affine, p: Vec3): Vec3 {
    Add(MulVec(a.linear, p), a.offset)
  }

  /** How the affine map turns a direction (a normal): by its linear part.
      For the rotations and translations used here this is exactly what GL's
      inverse-transpose normal matrix does. */
  function Turn(a: Affine, n: Vec3): Vec3 {
    MulVec(a.linear, n)
  }

  /** The product a * b of two affine maps. */
  function Compose(a: Affine, b: Affine): Affine {
    Affine(MatMul(a.linear, b.linear), Add(MulVec(a.linear, b.offset), a.offset))
  }

  /** In the product a * b, b acts first, on points and on directions. */
  lemma ComposeActs(a: Affine, b: Affine, p: Vec3)
    ensures Apply(Compose(a, b), p) == Apply(a, Apply(b, p))
    ensures Turn(Compose(a, b), p) == Turn(a, Turn(b, p))
  {
    MatMulActs(a.linear, b.linear, p);
    Linear(a.linear, MulVec(b.linear, p), b.offset);
  }

  lemma Linear(m: Mat3, p: Vec3, q: Vec3)
    ensures MulVec(m, Add(p, q)) == Add(MulVec(m, p), MulVec(m, q))
  {
  }

  /** A call that changes the model-view matrix: glTranslatef, or glRotatef
      about the x axis (1, 0, 0) — the only axis the airplane uses — carrying
      the cosine and sine of its angle. */
  datatype Op = Translate(delta: Vec3) | RotateX(cos: real, sin: real)

  /** The matrix glTranslatef or glRotatef multiplies in: for a rotation,
      glRotate's matrix with the axis (1, 0, 0). */
  function OpMatrix(op: Op): Affine {
    match op
    case Translate(d) => Affine(IdentityMat, d)
    case RotateX(c, s) =>
      Affine(Mat3(Vec3(1.0, 0.0, 0.0), Vec3(0.0, c, -s), Vec3(0.0, s, c)), Origin)
  }

  /** What one call does to a point, stated geometrically: a shift, or a turn
      in the y-z plane by Rodrigues' formula about the unit x axis. */
  function Act(op: Op, p: Vec3): Vec3 {
    match op
    case Translate(d) => Add(p, d)
    case RotateX(c, s) => Add(Add(Scale(c, p), Scale(s, Cross(UnitX, p))), Scale((1.0 - c) * Dot(UnitX, p), UnitX))
  }

  /** glTranslatef's and glRotatef's matrices do what the calls mean. */
  lemma OpMatrixActs(op: Op, p: Vec3)
    ensures Apply(OpMatrix(op), p) == Act(op, p)
  {
    if op.RotateX? {
      var c, s := op.cos, op.sin;
      assert Act(op, p) == Vec3(c * p.x + (1.0 - c) * p.x, c * p.y - s * p.z, c * p.z + s * p.y);
      assert c * p.x + (1.0 - c) * p.x == p.x;
    }
  }

  /** A rotation keeps the x coordinate and, when cos^2 + sin^2 = 1, the
      distance from the x axis. */
  lemma RotationRigid(c: real, s: real, p: Vec3)
    requires c * c + s * s == 1.0
    ensures Act(RotateX(c, s), p).x == p.x
    ensures var q := Act(RotateX(c, s), p); q.y * q.y + q.z * q.z == p.y * p.y + p.z * p.z
  {
    var q := Act(RotateX(c, s), p);
    assert q.y == c * p.y - s * p.z && q.z == s * p.y + c * p.z;
    calc {
      q.y * q.y + q.z * q.z;
      (c * c + s * s) * p.y * p.y + (c * c + s * s) * p.z * p.z;
      p.y * p.y + p.z * p.z;
    }
  }

  /** Issues the calls in order: each one post-multiplies the current matrix. */
  function Load(current: Affine, ops: seq<Op>): Affine
    decreases |ops|
  {
    if |ops| == 0 then current else Load(Compose(current, OpMatrix(ops[0])), ops[1..])
  }

  /** The calls' effect read from the last one back: the last issued acts first. */
  function Transformed(ops: seq<Op>, p: Vec3): Vec3
    decreases |ops|
  {
    if |ops| == 0 then p else Act(ops[0], Transformed(ops[1..], p))
  }

  /** Post-multiplication means the call issued last acts on a vertex first. */
  lemma {:induction false} LastIssuedActsFirst(current: Affine, ops: seq<Op>, p: Vec3)
    ensures Apply(Load(current, ops), p) == Apply(current, Transformed(ops, p))
    decreases |ops|
  {
    if |ops| > 0 {
      var next := Compose(current, OpMatrix(ops[0]));
      LastIssuedActsFirst(next, ops[1..], p);
      ComposeActs(current, OpMatrix(ops[0]), Transformed(ops[1..], p));
      OpMatrixActs(ops[0], Transformed(ops[1..], p));
    }
  }

  /** What one call does to a direction: a shift leaves it alone, a turn
      turns it. */
  function Spin(op: Op, n: Vec3): Vec3 {
    match op
    case Translate(_) => n
    case RotateX(_, _) => Act(op, n)
  }

  lemma OpMatrixTurns(op: Op, n: Vec3)
    ensures Turn(OpMatrix(op), n) == Spin(op, n)
  {
    OpMatrixActs(op, n);
  }

  /** The calls' effect on a direction, the last issued first. */
  function Turned(ops: seq<Op>, n: Vec3): Vec3
    decreases |ops|
  {
    if |ops| == 0 then n else Spin(ops[0], Turned(ops[1..], n))
  }

  /** Normals obey the same order: the call issued last turns them first,
      and translations do not move them. */
  lemma {:induction false} LastIssuedTurnsFirst(current: Affine, ops: seq<Op>, n: Vec3)
    ensures Turn(Load(current, ops), n) == Turn(current, Turned(ops, n))
    decreases |ops|
  {
    if |ops| > 0 {
      var next := Compose(current, OpMatrix(ops[0]));
      LastIssuedTurnsFirst(next, ops[1..], n);
      ComposeActs(current, OpMatrix(ops[0]), Turned(ops[1..], n));
      OpMatrixTurns(ops[0], Turned(ops[1..], n));
    }
  }

  /** The effect of one or two calls, written out. */
  lemma OneCall(a: Op, p: Vec3)
    ensures Transformed([a], p) == Act(a, p)
    ensures Turned([a], p) == Spin(a, p)
  {
    assert [a][1..] == [];
  }

  lemma TwoCalls(a: Op, b: Op, p: Vec3)
    ensures Transformed([a, b], p) == Act(a, Act(b, p))
    ensures Turned([a, b], p) == Spin(a, Spin(b, p))
  {
    var rest := [a, b][1..];
    assert rest == [b];
    OneCall(b, p);
  }

  /** The identity matrix moves nothing. */
  lemma IdentityFixes(p: Vec3)
    ensures Apply(Identity, p) == p
    ensures Turn(Identity, p) == p
  {
  }

  /** One call multiplies its matrix into the current one. */
  lemma LoadOne(current: Affine, op: Op)
    ensures Load(current, [op]) == Compose(current, OpMatrix(op))
  {
    assert [op][1..] == [];
  }

  lemma IdentityProduct()
    ensures MatMul(IdentityMat, IdentityMat) == IdentityMat
  {
  }

  /** Under the identity, glTranslatef loads exactly the shift by its offset. */
  lemma TranslationMatrix(d: Vec3)
    ensures Load(Identity, [Translate(d)]) == Affine(IdentityMat, d)
  {
    LoadOne(Identity, Translate(d));
    IdentityProduct();
    IdentityFixes(d);
  }

  /** Whatever matrix is current when the calls are issued (the camera's
      view matrix, say) acts after all of them. */
  lemma ViewActsLast(view: Affine, ops: seq<Op>, p: Vec3)
    ensures Apply(Load(view, ops), p) == Apply(view, Apply(Load(Identity, ops), p))
    ensures Turn(Load(view, ops), p) == Turn(view, Turn(Load(Identity, ops), p))
  {
    LastIssuedActsFirst(view, ops, p);
    LastIssuedActsFirst(Identity, ops, p);
    LastIssuedTurnsFirst(view, ops, p);
    LastIssuedTurnsFirst(Identity, ops, p);
    IdentityFixes(Transformed(ops, p));
    IdentityFixes(Turned(ops, p));
  }

  /** glPushMatrix, glPopMatrix, or a glTranslatef / glRotatef call. */
  datatype StackCall = Push | Pop | Mul(op: Op)

  /** One call on the model-view stack, top at the end. Popping the last
      matrix is GL's STACK_UNDERFLOW and is reported as None. */
  function StackStep(st: seq<Affine>, c: StackCall): (r: Option<seq<Affine>>)
    ensures r.None? <==> |st| == 0 || (c.Pop? && |st| == 1)
    ensures r.Some? && !c.Pop? ==> |r.value| >= 1
  {
    if |st| == 0 then None
    else match c
      case Push => Some(st + [st[|st| - 1]])
      case Pop => if |st| == 1 then None else Some(st[..|st| - 1])
      case Mul(op) => Some(st[..|st| - 1] + [Compose(st[|st| - 1], OpMatrix(op))])
  }

  function RunStack(st: seq<Affine>, cs: seq<StackCall>): Option<seq<Affine>>
    decreases |cs|
  {
    if |cs| == 0 then Some(st)
    else match StackStep(st, cs[0])
      case None => None
      case Some(st') => RunStack(st', cs[1..])
  }

  function Muls(ops: seq<Op>): seq<StackCall>
    decreases |ops|
  {
    if |ops| == 0 then [] else [Mul(ops[0])] + Muls(ops[1..])
  }

  /** The bracket each render routine puts round its calls. */
  function Bracket(ops: seq<Op>): seq<StackCall> {
    [Push] + Muls(ops) + [Pop]
  }

  lemma {:induction false} RunStackAppend(st: seq<Affine>, a: seq<StackCall>, b: seq<StackCall>)
    ensures RunStack(st, a + b) == match RunStack(st, a) { case None => None case Some(st') => RunStack(st', b) }
    decreases |a|
  {
    if |a| == 0 {
      assert a + b == b;
    } else {
      assert (a + b)[0] == a[0];
      assert (a + b)[1..] == a[1..] + b;
      match StackStep(st, a[0])
      case None =>
      case Some(st') => RunStackAppend(st', a[1..], b);
    }
  }

  /** The translate and rotate calls multiply into the top matrix only. */
  lemma {:induction false} RunMuls(below: seq<Affine>, top: Affine, ops: seq<Op>)
    ensures RunStack(below + [top], Muls(ops)) == Some(below + [Load(top, ops)])
    decreases |ops|
  {
    if |ops| > 0 {
      var st := below + [top];
      assert st[..|st| - 1] == below && st[|st| - 1] == top;
      assert Muls(ops) == [Mul(ops[0])] + Muls(ops[1..]);
      RunStackAppend(st, [Mul(ops[0])], Muls(ops[1..]));
      assert RunStack(st, [Mul(ops[0])]) == Some(below + [Compose(top, OpMatrix(ops[0]))]);
      RunMuls(below, Compose(top, OpMatrix(ops[0])), ops[1..]);
    }
  }

  /** Inside a push/pop bracket the top is the pushed matrix with the calls
      multiplied in; the pop then leaves the stack exactly as it was, so the
      next part starts from the same matrix. */
  lemma BracketRestores(st: seq<Affine>, ops: seq<Op>)
    requires |st| >= 1
    ensures RunStack(st, [Push] + Muls(ops)) == Some(st + [Load(st[|st| - 1], ops)])
    ensures RunStack(st, Bracket(ops)) == Some(st)
  {
    var top := st[|st| - 1];
    assert RunStack(st, [Push]) == Some(st + [top]);
    RunStackAppend(st, [Push], Muls(ops));
    RunMuls(st, top, ops);
    var inner := st + [Load(top, ops)];
    assert RunStack(inner, [Pop]) == Some(st);
    RunStackAppend(st, [Push] + Muls(ops), [Pop]);
  }
}
