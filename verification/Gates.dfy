/** The matrix of every gate, and the operator an operation stands for. */
module Gates {
  import opened Options
  import opened Bits
  import opened Complex
  import opened Trigonometry
  import opened Circuits
  import opened Kernels

  type Rows = seq<seq<C>>

  function Real(x: real): C { C(x, 0.0) }

  const X_ROWS: Rows := [[ZERO, ONE], [ONE, ZERO]]
  const Y_ROWS: Rows := [[ZERO, C(0.0, -1.0)], [C(0.0, 1.0), ZERO]]
  const Z_ROWS: Rows := [[ONE, ZERO], [ZERO, Real(-1.0)]]
  const SWAP_ROWS: Rows :=
    [[ONE, ZERO, ZERO, ZERO], [ZERO, ZERO, ONE, ZERO], [ZERO, ONE, ZERO, ZERO], [ZERO, ZERO, ZERO, ONE]]

  function HRows(t: Trig): Rows {
    [[Real(R(t)), Real(R(t))], [Real(R(t)), Real(-1.0 / t.sqrt2)]]
  }

  /** The diagonal matrix that multiplies the set half of the state by `z`. */
  function PhaseRows(z: C): Rows { [[ONE, ZERO], [ZERO, z]] }

  /** A missing parameter counts as zero. */
  function Param(params: seq<real>, k: nat): real {
    if k < |params| then params[k] else 0.0
  }

  function MatrixForFixedGate(t: Trig, g: GateName): Option<Rows> {
    match g
    case I => Some([[ONE, ZERO], [ZERO, ONE]])
    case X => Some(X_ROWS)
    case Y => Some(Y_ROWS)
    case Z => Some(Z_ROWS)
    case H => Some(HRows(t))
    case SX => Some([[C(0.5, 0.5), C(0.5, -0.5)], [C(0.5, -0.5), C(0.5, 0.5)]])
    case SY => Some([[Real(R(t)), Real(-1.0 / t.sqrt2)], [Real(R(t)), Real(R(t))]])
    case S => Some(PhaseRows(C(0.0, 1.0)))
    case SDG => Some(PhaseRows(C(0.0, -1.0)))
    case T => Some(PhaseRows(Cis(t, t.pi / 4.0)))
    case TDG => Some(PhaseRows(Cis(t, -t.pi / 4.0)))
    case _ => None
  }

  function UMatrix(t: Trig, theta: real, phi: real, lam: real): Rows {
    var c, s := t.cos(theta / 2.0), t.sin(theta / 2.0);
    [[Real(c), C(-t.cos(lam) * s, -t.sin(lam) * s)],
     [C(t.cos(phi) * s, t.sin(phi) * s), C(t.cos(phi + lam) * c, t.sin(phi + lam) * c)]]
  }

  function MatrixForSingleQubitParamGate(t: Trig, g: GateName, params: seq<real>): Rows {
    var theta := Param(params, 0);
    var c, s := t.cos(theta / 2.0), t.sin(theta / 2.0);
    if g == RX then [[Real(c), C(0.0, -s)], [C(0.0, -s), Real(c)]]
    else if g == RY then [[Real(c), Real(-s)], [Real(s), Real(c)]]
    else if g == RZ then [[Cis(t, -theta / 2.0), ZERO], [ZERO, Cis(t, theta / 2.0)]]
    else if g == P then PhaseRows(Cis(t, theta))
    else UMatrix(t, theta, Param(params, 1), Param(params, 2))
  }

  function MatrixForGate(t: Trig, g: GateName, params: seq<real>): Rows {
    match MatrixForFixedGate(t, g)
    case Some(fixed) => fixed
    case None => MatrixForSingleQubitParamGate(t, g, params)
  }

  function MatrixForTwoQubitGate(t: Trig, g: GateName, params: seq<real>): Rows {
    var theta := Param(params, 0);
    var c, s := Real(t.cos(theta / 2.0)), C(0.0, t.sin(theta / 2.0));
    var n := Neg(s);
    var O := ZERO;
    if g == RXX then [[c, O, O, n], [O, c, n, O], [O, n, c, O], [n, O, O, c]]
    else if g == RYY then [[c, O, O, s], [O, c, n, O], [O, n, c, O], [s, O, O, c]]
    else if g == RZZ then
      var negative, positive := Cis(t, -theta / 2.0), Cis(t, theta / 2.0);
      [[negative, O, O, O], [O, positive, O, O], [O, O, positive, O], [O, O, O, negative]]
    else [[c, n, O, O], [n, c, O, O], [O, O, c, s], [O, O, s, c]]
  }

  /**
   * The operator of a well-formed operation other than a measurement.  A two-target matrix is indexed by
   * the first target as high bit and the second as low bit.
   */
  function KernelOf(t: Trig, op: Operation): Kernel {
    if op.gate in {CX, CCX} then Kernel(op.controls, op.targets, X_ROWS)
    else if op.gate in {CZ, CCZ} then Kernel(op.controls, op.targets, Z_ROWS)
    else if op.gate == CP then Kernel(op.controls, op.targets, PhaseRows(Cis(t, Param(op.params, 0))))
    else if op.gate == CY then Kernel(op.controls, op.targets, Y_ROWS)
    else if op.gate == CH then Kernel(op.controls, op.targets, HRows(t))
    else if op.gate == SWAP then Kernel([], Low2(op.targets), SWAP_ROWS)
    else if op.gate == CSWAP then Kernel(op.controls, Low2(op.targets), SWAP_ROWS)
    else if op.gate in {RXX, RYY, RZZ, RZX} then
      Kernel([], Low2(op.targets), MatrixForTwoQubitGate(t, op.gate, op.params))
    else Kernel([], op.targets, MatrixForGate(t, op.gate, op.params))
  }

  /** Targets listed low bit first. */
  function Low2(ts: seq<nat>): seq<nat> {
    if |ts| == 2 then [ts[1], ts[0]] else ts
  }

  /** The effect of one operation; a measurement leaves the simulated state alone. */
  function Denote(t: Trig, op: Operation, v: Vec): (w: Vec)
    ensures |w| == |v|
  {
    if op.gate == M then v else Apply(KernelOf(t, op), v)
  }

  function DenoteAll(t: Trig, ops: seq<Operation>, v: Vec): (w: Vec)
    ensures |w| == |v|
  {
    if ops == [] then v else DenoteAll(t, ops[1..], Denote(t, ops[0], v))
  }

  /** A well-formed operation on distinct qubits is a well-shaped operator on exactly its own qubits. */
  lemma KernelFits(t: Trig, op: Operation, n: nat)
    requires op.gate != M && WellFormed(op, n) && Distinct(Qubits(op))
    ensures Fits(KernelOf(t, op), n)
    ensures forall q :: q in Touched(KernelOf(t, op)) <==> q in Qubits(op)
  {
    var k := KernelOf(t, op);
    KernelQubits(t, op);
    KernelShape(t, op);
    LowFirst(op.targets, op.controls, n);
  }

  lemma LowFirst(ts: seq<nat>, cs: seq<nat>, n: nat)
    requires Within(ts + cs, n) && Distinct(ts + cs)
    ensures Within(Low2(ts) + cs, n) && Distinct(Low2(ts) + cs)
    ensures forall q :: q in Low2(ts) + cs <==> q in ts + cs
  {
    if |ts| == 2 {
      var a, b := ts + cs, Low2(ts) + cs;
      assert b[0] == a[1] && b[1] == a[0] && forall k :: 2 <= k < |a| ==> b[k] == a[k];
      forall q ensures q in b <==> q in a {
        if q in a { var k :| 0 <= k < |a| && a[k] == q; assert b[if k == 0 then 1 else if k == 1 then 0 else k] == q; }
        if q in b { var k :| 0 <= k < |b| && b[k] == q; assert a[if k == 0 then 1 else if k == 1 then 0 else k] == q; }
      }
    }
  }

  lemma KernelShape(t: Trig, op: Operation)
    requires op.gate != M && |op.targets| == TargetCount(op.gate)
    ensures var k := KernelOf(t, op); |k.rows| == Pow2(|k.targets|)
    ensures var k := KernelOf(t, op); forall r :: 0 <= r < |k.rows| ==> |k.rows[r]| == Pow2(|k.targets|)
  {
    assert Pow2(0) == 1 && Pow2(1) == 2 && Pow2(2) == 4;
  }

  lemma KernelQubits(t: Trig, op: Operation)
    requires op.gate != M && |op.targets| == TargetCount(op.gate) && |op.controls| == ControlCount(op.gate)
    ensures Touched(KernelOf(t, op)) == Low2(op.targets) + op.controls
  {}

  /** The u gate's matrix, written with scaled unit complex numbers. */
  lemma URows(t: Trig, theta: real, phi: real, lam: real)
    ensures var c, s := t.cos(theta / 2.0), t.sin(theta / 2.0);
      UMatrix(t, theta, phi, lam) ==
          [[Real(c), Scale(-s, Cis(t, lam))], [Scale(s, Cis(t, phi)), Scale(c, Cis(t, phi + lam))]]
  {
    var m, c, s := UMatrix(t, theta, phi, lam), t.cos(theta / 2.0), t.sin(theta / 2.0);
    assert m[0][1] == Scale(-s, Cis(t, lam));
    assert m[1][0] == Scale(s, Cis(t, phi));
    assert m[1][1] == Scale(c, Cis(t, phi + lam));
    assert m[0] == [m[0][0], m[0][1]] && m[1] == [m[1][0], m[1][1]];
  }
}
