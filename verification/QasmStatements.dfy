/** Compiling an operation to OpenQASM statements: which gates are printed directly, and which are decomposed. */
module QasmStatements {
  import opened Bits
  import opened Complex
  import opened Trigonometry
  import opened Circuits
  import opened Kernels
  import opened Gates
  import opened Blocks

  /** One printed statement; the operands of a gate are its controls followed by its targets. */
  datatype Stmt =
    | GateStmt(gate: GateName, params: seq<real>, operands: seq<nat>)
    | MeasureStmt(bit: nat, qubit: nat)

  datatype Serialized = Lines(stmts: seq<Stmt>) | Throws

  function OneQubit(g: GateName, q: nat): Stmt { GateStmt(g, [], [q]) }

  function SerializeRzz(theta: real, left: nat, right: nat): seq<Stmt> {
    [GateStmt(CX, [], [left, right]), GateStmt(RZ, [theta], [right]), GateStmt(CX, [], [left, right])]
  }

  function SerializeOperation(pi: real, op: Operation): Serialized {
    if |op.targets| != TargetCount(op.gate) then Throws
    else if ControlCount(op.gate) > 0 && |op.controls| != ControlCount(op.gate) then Throws
    else if ParamCount(op.gate) > 0 && |op.params| != ParamCount(op.gate) then Throws
    else Lines(Statements(pi, op))
  }

  function Statements(pi: real, op: Operation): seq<Stmt>
    requires |op.targets| == TargetCount(op.gate)
    requires ControlCount(op.gate) > 0 ==> |op.controls| == ControlCount(op.gate)
    requires ParamCount(op.gate) > 0 ==> |op.params| == ParamCount(op.gate)
  {
    var left := op.targets[0];
    if op.gate == SY then [GateStmt(RY, [pi / 2.0], [left])]
    else if op.gate == CCZ then
      [OneQubit(H, left), GateStmt(CCX, [], [op.controls[0], op.controls[1], left]), OneQubit(H, left)]
    else if op.gate == M then [MeasureStmt(left, left)]
    else if op.gate !in {RXX, RYY, RZZ, RZX} then
      [GateStmt(op.gate, if ParamCount(op.gate) > 0 then op.params else [],
                (if ControlCount(op.gate) > 0 then op.controls else []) + op.targets)]
    else
      var right := op.targets[1];
      var rzz := SerializeRzz(op.params[0], left, right);
      var hadamards := [OneQubit(H, left), OneQubit(H, right)];
      if op.gate == RZZ then rzz
      else if op.gate == RXX then hadamards + rzz + hadamards
      else if op.gate == RYY then
        [OneQubit(SDG, left), OneQubit(SDG, right)] + hadamards + rzz + hadamards
            + [OneQubit(S, left), OneQubit(S, right)]
      else [OneQubit(H, right)] + rzz + [OneQubit(H, right)]
  }

  /** The operation a reader of the statement sees. */
  function Meaning(s: Stmt): Operation {
    match s
    case MeasureStmt(_, q) => Operation("", M, [q], [], [], 0)
    case GateStmt(g, params, operands) =>
      if ControlCount(g) <= |operands|
      then Operation("", g, operands[ControlCount(g)..], operands[..ControlCount(g)], params, 0)
      else Operation("", g, operands, [], params, 0)
  }

  function Execute(t: Trig, stmts: seq<Stmt>, v: Vec): (w: Vec)
    ensures |w| == |v|
  {
    if stmts == [] then v else Execute(t, stmts[1..], Denote(t, Meaning(stmts[0]), v))
  }

  lemma {:induction false} ExecuteConcat(t: Trig, a: seq<Stmt>, b: seq<Stmt>, v: Vec)
    ensures Execute(t, a + b, v) == Execute(t, b, Execute(t, a, v))
  {
    if a == [] {
      assert a + b == b;
    } else {
      assert (a + b)[1..] == a[1..] + b;
      ExecuteConcat(t, a[1..], b, Denote(t, Meaning(a[0]), v));
    }
  }

  lemma ExecuteOne(t: Trig, a: Stmt, v: Vec)
    ensures Execute(t, [a], v) == Denote(t, Meaning(a), v)
  {
    assert Execute(t, [a][1..], Denote(t, Meaning(a), v)) == Denote(t, Meaning(a), v);
  }

  lemma ExecuteTwo(t: Trig, a: Stmt, b: Stmt, v: Vec)
    ensures Execute(t, [a, b], v) == Denote(t, Meaning(b), Denote(t, Meaning(a), v))
  {
    assert [a, b] == [a] + [b];
    ExecuteConcat(t, [a], [b], v);
    ExecuteOne(t, a, v);
    ExecuteOne(t, b, Denote(t, Meaning(a), v));
  }

  lemma ExecuteThree(t: Trig, a: Stmt, b: Stmt, c: Stmt, v: Vec)
    ensures Execute(t, [a, b, c], v) == Denote(t, Meaning(c), Denote(t, Meaning(b), Denote(t, Meaning(a), v)))
  {
    assert [a, b, c] == [a, b] + [c];
    ExecuteConcat(t, [a, b], [c], v);
    ExecuteTwo(t, a, b, v);
    ExecuteOne(t, c, Execute(t, [a, b], v));
  }

  // ----- what single statements do to a block

  lemma OneQubitStmt(t: Trig, g: GateName, params: seq<real>, q: nat, v: Vec)
    requires g in {I, X, Y, Z, H, SX, SY, S, SDG, T, TDG, RX, RY, RZ, U, P}
    ensures Denote(t, Meaning(GateStmt(g, params, [q])), v) == Apply(Kernel([], [q], MatrixForGate(t, g, params)), v)
  {
    hide Apply, Cis, R;
    assert [q][0..] == [q];
  }

  lemma FlipStmt(t: Trig, a: nat, b: nat, v: Vec)
    ensures Denote(t, Meaning(GateStmt(CX, [], [a, b])), v) == Apply(Kernel([a], [b], X_ROWS), v)
  {
    hide Apply;
    assert [a, b][..1] == [a] && [a, b][1..] == [b];
  }

  function RzRows(t: Trig, theta: real): Rows {
    [[Cis(t, -theta / 2.0), ZERO], [ZERO, Cis(t, theta / 2.0)]]
  }

  /** Phases by the parity of the two bits. */
  function ParityPhases(n: C, p: C, q: Quad): Quad {
    Quad(Mul(n, q.v00), Mul(p, q.v01), Mul(p, q.v10), Mul(n, q.v11))
  }

  lemma DiagonalMix(x: C, y: C, p: C, q: C)
    ensures MixTwo([x, ZERO], p, q) == Mul(x, p) && MixTwo([ZERO, y], p, q) == Mul(y, q)
  {
    assert Mul(ZERO, p) == ZERO == Mul(ZERO, q);
  }

  lemma DiagonalOnSecond(x: C, y: C, q: Quad)
    ensures OnSecond([[x, ZERO], [ZERO, y]], q) == Quad(Mul(x, q.v00), Mul(y, q.v01), Mul(x, q.v10), Mul(y, q.v11))
  {
    hide MixTwo, Mul;
    DiagonalMix(x, y, q.v00, q.v01);
    DiagonalMix(x, y, q.v10, q.v11);
  }

  lemma DiagonalOnFirst(x: C, y: C, q: Quad)
    ensures OnFirst([[x, ZERO], [ZERO, y]], q) == Quad(Mul(x, q.v00), Mul(x, q.v01), Mul(y, q.v10), Mul(y, q.v11))
  {
    hide MixTwo, Mul;
    DiagonalMix(x, y, q.v00, q.v10);
    DiagonalMix(x, y, q.v01, q.v11);
  }

  lemma RzzOnQuad(t: Trig, theta: real, v: Vec, n: nat, i: nat, a: nat, b: nat)
    requires a != b && a < n && b < n && i < |v| == Pow2(n)
    ensures QuadAt(Execute(t, SerializeRzz(theta, a, b), v), i, a, b) ==
            ParityPhases(Cis(t, -theta / 2.0), Cis(t, theta / 2.0), QuadAt(v, i, a, b))
  {
    hide QuadAt, Apply, Cis, Pow2, Mul, Plus, Denote, Meaning, MixTwo, Execute, MatrixForGate, OnSecond;
    var s := SerializeRzz(theta, a, b);
    ExecuteThree(t, s[0], s[1], s[2], v);
    var v1 := Denote(t, Meaning(s[0]), v);
    var v2 := Denote(t, Meaning(s[1]), v1);
    FlipStmt(t, a, b, v);
    OneQubitStmt(t, RZ, [theta], b, v1);
    RzMatrix(t, theta);
    FlipStmt(t, a, b, v2);
    ControlledOnQuad(v, n, i, a, b);
    SecondOnQuad(v1, n, i, a, b, RzRows(t, theta));
    ControlledOnQuad(v2, n, i, a, b);
    DiagonalOnSecond(Cis(t, -theta / 2.0), Cis(t, theta / 2.0), QuadAt(v1, i, a, b));
  }

  lemma RzMatrix(t: Trig, theta: real)
    ensures MatrixForGate(t, RZ, [theta]) == RzRows(t, theta)
  {}
}
