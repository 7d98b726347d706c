/** What every gate does to the amplitudes, entry by entry, in plain arithmetic. */
module GateTable {
  import opened Bits
  import opened Complex
  import opened Trigonometry
  import opened Circuits
  import opened Kernels
  import opened Gates
  import opened Blocks
  import opened Decompositions
  import SimulationControlled

  // ----- one qubit

  /** The pair of amplitudes that differ in qubit `q` alone. */
  lemma PairIndex(n: nat, i: nat, q: nat)
    requires q < n && i < Pow2(n) && i / Pow2(q) % 2 == 0
    ensures i + Pow2(q) < Pow2(n) && Set(i, q, false) == i && Set(i, q, true) == i + Pow2(q)
  {
    hide Bit, Set, Pow2;
    BitIs(i, q);
    SetIs(i, q);
    SetRange(i, q, true, n);
  }

  /** The pair of amplitudes after a gate with the matrix `x y / z w`. */
  lemma PairAfter(t: Trig, g: GateName, params: seq<real>, v: Vec, n: nat, i: nat, q: nat, x: C, y: C, z: C, w: C)
    requires q < n && i < |v| == Pow2(n) && i / Pow2(q) % 2 == 0
    requires KernelOf(t, Operation("", g, [q], [], params, 0)) == Kernel([], [q], [[x, y], [z, w]]) && g != M
    ensures i + Pow2(q) < |v|
    ensures var u, a, b := Denote(t, Operation("", g, [q], [], params, 0), v), v[i], v[i + Pow2(q)];
      u[i] == Plus(Mul(x, a), Mul(y, b)) && u[i + Pow2(q)] == Plus(Mul(z, a), Mul(w, b))
  {
    hide Apply, Pow2, Mul, Plus, Active, Set, Bit, KernelOf;
    PairIndex(n, i, q);
    UncontrolledActive(i);
    ControlledOnPair(v, n, i, [], q, [[x, y], [z, w]]);
  }

  /** A gate without controls on one target uses the matrix of its name. */
  lemma SingleKernel(t: Trig, g: GateName, params: seq<real>, q: nat)
    requires TargetCount(g) == 1 && ControlCount(g) == 0 && g != M
    ensures KernelOf(t, Operation("", g, [q], [], params, 0)) == Kernel([], [q], MatrixForGate(t, g, params))
  {
    hide MatrixForGate, MatrixForTwoQubitGate, HRows, PhaseRows, Cis;
  }

  lemma GateAfter(t: Trig, g: GateName, params: seq<real>, v: Vec, n: nat, i: nat, q: nat, x: C, y: C, z: C, w: C)
    requires q < n && i < |v| == Pow2(n) && i / Pow2(q) % 2 == 0
    requires TargetCount(g) == 1 && ControlCount(g) == 0 && g != M
    requires MatrixForGate(t, g, params) == [[x, y], [z, w]]
    ensures i + Pow2(q) < |v|
    ensures var u, a, b := Denote(t, Operation("", g, [q], [], params, 0), v), v[i], v[i + Pow2(q)];
      u[i] == Plus(Mul(x, a), Mul(y, b)) && u[i + Pow2(q)] == Plus(Mul(z, a), Mul(w, b))
  {
    hide Denote, Pow2, Mul, Plus, KernelOf, MatrixForGate;
    SingleKernel(t, g, params, q);
    PairAfter(t, g, params, v, n, i, q, x, y, z, w);
  }

  lemma PauliRows(t: Trig)
    ensures MatrixForGate(t, I, []) == [[ONE, ZERO], [ZERO, ONE]]
    ensures MatrixForGate(t, X, []) == [[ZERO, ONE], [ONE, ZERO]]
    ensures MatrixForGate(t, Y, []) == [[ZERO, C(0.0, -1.0)], [C(0.0, 1.0), ZERO]]
    ensures MatrixForGate(t, Z, []) == [[ONE, ZERO], [ZERO, C(-1.0, 0.0)]]
  {
    hide HRows, PhaseRows, Cis, MatrixForSingleQubitParamGate;
  }

  lemma Only(a: C, b: C)
    ensures Plus(Mul(ONE, a), Mul(ZERO, b)) == a == Plus(Mul(ZERO, b), Mul(ONE, a))
    ensures Plus(Mul(ZERO, b), Mul(C(0.0, -1.0), a)) == C(a.im, -a.re)
    ensures Plus(Mul(C(0.0, 1.0), a), Mul(ZERO, b)) == C(-a.im, a.re)
    ensures Plus(Mul(ZERO, b), Mul(C(-1.0, 0.0), a)) == C(-a.re, -a.im)
  {}

  /** i, x, y and z. */
  lemma PauliTable(t: Trig, v: Vec, n: nat, i: nat, q: nat)
    requires q < n && i < |v| == Pow2(n) && i / Pow2(q) % 2 == 0
    ensures i + Pow2(q) < |v|
    ensures var j := i + Pow2(q); var w := Denote(t, Operation("", I, [q], [], [], 0), v); w[i] == v[i] && w[j] == v[j]
    ensures var j := i + Pow2(q); var w := Denote(t, Operation("", X, [q], [], [], 0), v); w[i] == v[j] && w[j] == v[i]
    ensures var j := i + Pow2(q); var w := Denote(t, Operation("", Y, [q], [], [], 0), v);
      w[i] == C(v[j].im, -v[j].re) && w[j] == C(-v[i].im, v[i].re)
    ensures var j := i + Pow2(q); var w := Denote(t, Operation("", Z, [q], [], [], 0), v);
      w[i] == v[i] && w[j] == C(-v[j].re, -v[j].im)
  {
    hide Denote, Mul, Plus, Pow2, MatrixForGate;
    PauliRows(t);
    PairIndex(n, i, q);
    GateAfter(t, I, [], v, n, i, q, ONE, ZERO, ZERO, ONE);
    GateAfter(t, X, [], v, n, i, q, ZERO, ONE, ONE, ZERO);
    GateAfter(t, Y, [], v, n, i, q, ZERO, C(0.0, -1.0), C(0.0, 1.0), ZERO);
    GateAfter(t, Z, [], v, n, i, q, ONE, ZERO, ZERO, C(-1.0, 0.0));
    Only(v[i], v[i + Pow2(q)]);
    Only(v[i + Pow2(q)], v[i]);
  }

  lemma HadamardRows(t: Trig, r: real)
    requires r == 1.0 / t.sqrt2
    ensures MatrixForGate(t, H, []) == [[C(r, 0.0), C(r, 0.0)], [C(r, 0.0), C(-r, 0.0)]]
    ensures MatrixForGate(t, SY, []) == [[C(r, 0.0), C(-r, 0.0)], [C(r, 0.0), C(r, 0.0)]]
  {
    hide PhaseRows, Cis, MatrixForSingleQubitParamGate;
    assert -1.0 / t.sqrt2 == -r;
  }

  lemma SumRow(r: real, a: C, b: C)
    ensures Plus(Mul(C(r, 0.0), a), Mul(C(r, 0.0), b)) == C(r * (a.re + b.re), r * (a.im + b.im))
    ensures Plus(Mul(C(r, 0.0), a), Mul(C(-r, 0.0), b)) == C(r * (a.re - b.re), r * (a.im - b.im))
  {}

  /** h. */
  lemma HadamardTable(t: Trig, v: Vec, n: nat, i: nat, q: nat)
    requires q < n && i < |v| == Pow2(n) && i / Pow2(q) % 2 == 0
    ensures i + Pow2(q) < |v|
    ensures var a, b, r := v[i], v[i + Pow2(q)], 1.0 / t.sqrt2; var w := Denote(t, Operation("", H, [q], [], [], 0), v);
      w[i] == C(r * (a.re + b.re), r * (a.im + b.im)) && w[i + Pow2(q)] == C(r * (a.re - b.re), r * (a.im - b.im))
  {
    hide Denote, Mul, Plus, Pow2, MatrixForGate;
    var r, x, y := 1.0 / t.sqrt2, C(1.0 / t.sqrt2, 0.0), C(-(1.0 / t.sqrt2), 0.0);
    HadamardRows(t, r);
    GateAfter(t, H, [], v, n, i, q, x, x, x, y);
    SumRow(r, v[i], v[i + Pow2(q)]);
  }

  /** sy. */
  lemma SyTable(t: Trig, v: Vec, n: nat, i: nat, q: nat)
    requires q < n && i < |v| == Pow2(n) && i / Pow2(q) % 2 == 0
    ensures i + Pow2(q) < |v|
    ensures var a, b, r := v[i], v[i + Pow2(q)], 1.0 / t.sqrt2;
      var w := Denote(t, Operation("", SY, [q], [], [], 0), v);
      w[i] == C(r * (a.re - b.re), r * (a.im - b.im)) && w[i + Pow2(q)] == C(r * (a.re + b.re), r * (a.im + b.im))
  {
    hide Denote, Mul, Plus, Pow2, MatrixForGate;
    var r, x, y := 1.0 / t.sqrt2, C(1.0 / t.sqrt2, 0.0), C(-(1.0 / t.sqrt2), 0.0);
    HadamardRows(t, r);
    GateAfter(t, SY, [], v, n, i, q, x, y, x, x);
    SumRow(r, v[i], v[i + Pow2(q)]);
  }

  lemma SxRows(t: Trig)
    ensures MatrixForGate(t, SX, []) == [[C(0.5, 0.5), C(0.5, -0.5)], [C(0.5, -0.5), C(0.5, 0.5)]]
  {
    hide PhaseRows, Cis, MatrixForSingleQubitParamGate, HRows;
  }

  /** sx. */
  lemma SxTable(t: Trig, v: Vec, n: nat, i: nat, q: nat)
    requires q < n && i < |v| == Pow2(n) && i / Pow2(q) % 2 == 0
    ensures i + Pow2(q) < |v|
    ensures var a, b, w := v[i], v[i + Pow2(q)], Denote(t, Operation("", SX, [q], [], [], 0), v);
      && w[i] == Plus(Mul(C(0.5, 0.5), a), Mul(C(0.5, -0.5), b))
      && w[i + Pow2(q)] == Plus(Mul(C(0.5, -0.5), a), Mul(C(0.5, 0.5), b))
  {
    hide Denote, Mul, Plus, Pow2, MatrixForGate;
    SxRows(t);
    GateAfter(t, SX, [], v, n, i, q, C(0.5, 0.5), C(0.5, -0.5), C(0.5, -0.5), C(0.5, 0.5));
  }

  lemma DiagonalAfter(t: Trig, g: GateName, params: seq<real>, v: Vec, n: nat, i: nat, q: nat, x: C, y: C)
    requires q < n && i < |v| == Pow2(n) && i / Pow2(q) % 2 == 0
    requires TargetCount(g) == 1 && ControlCount(g) == 0 && g != M
    requires MatrixForGate(t, g, params) == [[x, ZERO], [ZERO, y]]
    ensures i + Pow2(q) < |v|
    ensures var w := Denote(t, Operation("", g, [q], [], params, 0), v);
      w[i] == Mul(x, v[i]) && w[i + Pow2(q)] == Mul(y, v[i + Pow2(q)])
  {
    hide Denote, Mul, Plus, Pow2, MatrixForGate;
    GateAfter(t, g, params, v, n, i, q, x, ZERO, ZERO, y);
    Absorbs(x, v[i], v[i + Pow2(q)]);
    Absorbs(y, v[i + Pow2(q)], v[i]);
  }

  lemma Absorbs(x: C, a: C, b: C)
    ensures Plus(Mul(x, a), Mul(ZERO, b)) == Mul(x, a) && Plus(Mul(ZERO, b), Mul(x, a)) == Mul(x, a)
  {}

  lemma QuarterTimes(a: C)
    ensures Mul(C(0.0, 1.0), a) == C(-a.im, a.re) && Mul(C(0.0, -1.0), a) == C(a.im, -a.re)
  {}

  lemma PhaseGateRows(t: Trig)
    ensures MatrixForGate(t, S, []) == [[ONE, ZERO], [ZERO, C(0.0, 1.0)]]
    ensures MatrixForGate(t, SDG, []) == [[ONE, ZERO], [ZERO, C(0.0, -1.0)]]
    ensures MatrixForGate(t, T, []) == [[ONE, ZERO], [ZERO, C(t.cos(t.pi / 4.0), t.sin(t.pi / 4.0))]]
    ensures MatrixForGate(t, TDG, []) == [[ONE, ZERO], [ZERO, C(t.cos(-t.pi / 4.0), t.sin(-t.pi / 4.0))]]
  {
    hide HRows, MatrixForSingleQubitParamGate;
  }

  /** s and sdg: the amplitude whose bit is set is multiplied by a phase. */
  lemma QuarterTable(t: Trig, v: Vec, n: nat, i: nat, q: nat)
    requires q < n && i < |v| == Pow2(n) && i / Pow2(q) % 2 == 0
    ensures i + Pow2(q) < |v|
    ensures var j := i + Pow2(q); var w := Denote(t, Operation("", S, [q], [], [], 0), v);
      w[i] == v[i] && w[j] == C(-v[j].im, v[j].re)
    ensures var j := i + Pow2(q); var w := Denote(t, Operation("", SDG, [q], [], [], 0), v);
      w[i] == v[i] && w[j] == C(v[j].im, -v[j].re)
  {
    hide Denote, Mul, Plus, Pow2, MatrixForGate;
    PhaseGateRows(t);
    PairIndex(n, i, q);
    DiagonalAfter(t, S, [], v, n, i, q, ONE, C(0.0, 1.0));
    DiagonalAfter(t, SDG, [], v, n, i, q, ONE, C(0.0, -1.0));
    OneTimes(v[i]);
    QuarterTimes(v[i + Pow2(q)]);
  }

  /** t and tdg. */
  lemma EighthTable(t: Trig, v: Vec, n: nat, i: nat, q: nat)
    requires q < n && i < |v| == Pow2(n) && i / Pow2(q) % 2 == 0
    ensures i + Pow2(q) < |v|
    ensures var j := i + Pow2(q); var w := Denote(t, Operation("", T, [q], [], [], 0), v);
      w[i] == v[i] && w[j] == Mul(C(t.cos(t.pi / 4.0), t.sin(t.pi / 4.0)), v[j])
    ensures var j := i + Pow2(q); var w := Denote(t, Operation("", TDG, [q], [], [], 0), v);
      w[i] == v[i] && w[j] == Mul(C(t.cos(-t.pi / 4.0), t.sin(-t.pi / 4.0)), v[j])
  {
    hide Denote, Mul, Plus, Pow2, MatrixForGate;
    PhaseGateRows(t);
    PairIndex(n, i, q);
    DiagonalAfter(t, T, [], v, n, i, q, ONE, C(t.cos(t.pi / 4.0), t.sin(t.pi / 4.0)));
    DiagonalAfter(t, TDG, [], v, n, i, q, ONE, C(t.cos(-t.pi / 4.0), t.sin(-t.pi / 4.0)));
    OneTimes(v[i]);
  }

  lemma PRows(t: Trig, x: real)
    ensures MatrixForGate(t, P, [x]) == [[ONE, ZERO], [ZERO, C(t.cos(x), t.sin(x))]]
  {
    hide HRows, UMatrix;
  }

  /** p. */
  lemma PTable(t: Trig, x: real, v: Vec, n: nat, i: nat, q: nat)
    requires q < n && i < |v| == Pow2(n) && i / Pow2(q) % 2 == 0
    ensures i + Pow2(q) < |v|
    ensures var j := i + Pow2(q); var w := Denote(t, Operation("", P, [q], [], [x], 0), v);
      w[i] == v[i] && w[j] == Mul(C(t.cos(x), t.sin(x)), v[j])
  {
    hide Denote, Mul, Plus, Pow2, MatrixForGate;
    PRows(t, x);
    DiagonalAfter(t, P, [x], v, n, i, q, ONE, C(t.cos(x), t.sin(x)));
    OneTimes(v[i]);
  }

  lemma RzRows(t: Trig, x: real)
    ensures MatrixForGate(t, RZ, [x]) ==
            [[C(t.cos(-x / 2.0), t.sin(-x / 2.0)), ZERO], [ZERO, C(t.cos(x / 2.0), t.sin(x / 2.0))]]
  {
    hide HRows, UMatrix, PhaseRows;
  }

  /** rz. */
  lemma RzTable(t: Trig, x: real, v: Vec, n: nat, i: nat, q: nat)
    requires q < n && i < |v| == Pow2(n) && i / Pow2(q) % 2 == 0
    ensures i + Pow2(q) < |v|
    ensures var j := i + Pow2(q); var w := Denote(t, Operation("", RZ, [q], [], [x], 0), v);
      w[i] == Mul(C(t.cos(-x / 2.0), t.sin(-x / 2.0)), v[i]) && w[j] == Mul(C(t.cos(x / 2.0), t.sin(x / 2.0)), v[j])
  {
    hide Denote, Mul, Plus, Pow2, MatrixForGate;
    RzRows(t, x);
    DiagonalAfter(t, RZ, [x], v, n, i, q, C(t.cos(-x / 2.0), t.sin(-x / 2.0)), C(t.cos(x / 2.0), t.sin(x / 2.0)));
  }

  lemma RotationRows(t: Trig, x: real, c: real, s: real)
    requires c == t.cos(x / 2.0) && s == t.sin(x / 2.0)
    ensures MatrixForGate(t, RX, [x]) == [[C(c, 0.0), C(0.0, -s)], [C(0.0, -s), C(c, 0.0)]]
    ensures MatrixForGate(t, RY, [x]) == [[C(c, 0.0), C(-s, 0.0)], [C(s, 0.0), C(c, 0.0)]]
  {
    hide HRows, UMatrix, PhaseRows, Cis;
  }

  /** rx. */
  lemma RxTable(t: Trig, x: real, v: Vec, n: nat, i: nat, q: nat)
    requires q < n && i < |v| == Pow2(n) && i / Pow2(q) % 2 == 0
    ensures i + Pow2(q) < |v|
    ensures var a, b, c, s := v[i], v[i + Pow2(q)], t.cos(x / 2.0), t.sin(x / 2.0);
      var w := Denote(t, Operation("", RX, [q], [], [x], 0), v);
      && w[i] == Plus(Mul(C(c, 0.0), a), Mul(C(0.0, -s), b))
      && w[i + Pow2(q)] == Plus(Mul(C(0.0, -s), a), Mul(C(c, 0.0), b))
  {
    hide Denote, Mul, Plus, Pow2, MatrixForGate;
    var c, s := t.cos(x / 2.0), t.sin(x / 2.0);
    RotationRows(t, x, c, s);
    GateAfter(t, RX, [x], v, n, i, q, C(c, 0.0), C(0.0, -s), C(0.0, -s), C(c, 0.0));
  }

  /** ry. */
  lemma RyTable(t: Trig, x: real, v: Vec, n: nat, i: nat, q: nat)
    requires q < n && i < |v| == Pow2(n) && i / Pow2(q) % 2 == 0
    ensures i + Pow2(q) < |v|
    ensures var a, b, c, s := v[i], v[i + Pow2(q)], t.cos(x / 2.0), t.sin(x / 2.0);
      var w := Denote(t, Operation("", RY, [q], [], [x], 0), v);
      && w[i] == Plus(Mul(C(c, 0.0), a), Mul(C(-s, 0.0), b))
      && w[i + Pow2(q)] == Plus(Mul(C(s, 0.0), a), Mul(C(c, 0.0), b))
  {
    hide Denote, Mul, Plus, Pow2, MatrixForGate;
    var c, s := t.cos(x / 2.0), t.sin(x / 2.0);
    RotationRows(t, x, c, s);
    GateAfter(t, RY, [x], v, n, i, q, C(c, 0.0), C(-s, 0.0), C(s, 0.0), C(c, 0.0));
  }

  lemma URowsAt(t: Trig, x: real, y: real, z: real, a: C, b: C, c: C, d: C)
    requires a == C(t.cos(x / 2.0), 0.0) && b == C(-t.cos(z) * t.sin(x / 2.0), -t.sin(z) * t.sin(x / 2.0))
    requires c == C(t.cos(y) * t.sin(x / 2.0), t.sin(y) * t.sin(x / 2.0))
    requires d == C(t.cos(y + z) * t.cos(x / 2.0), t.sin(y + z) * t.cos(x / 2.0))
    ensures MatrixForGate(t, U, [x, y, z]) == [[a, b], [c, d]]
  {
    hide HRows, PhaseRows, Cis, UMatrix;
    UIsUMatrix(t, x, y, z);
    UEntries(t, x, y, z, a, b, c, d);
  }

  lemma UIsUMatrix(t: Trig, x: real, y: real, z: real)
    ensures MatrixForGate(t, U, [x, y, z]) == UMatrix(t, x, y, z)
  {
    hide HRows, PhaseRows, Cis, UMatrix;
    assert MatrixForGate(t, U, [x, y, z]) == MatrixForSingleQubitParamGate(t, U, [x, y, z]);
  }

  lemma UEntries(t: Trig, x: real, y: real, z: real, a: C, b: C, c: C, d: C)
    requires a == C(t.cos(x / 2.0), 0.0) && b == C(-t.cos(z) * t.sin(x / 2.0), -t.sin(z) * t.sin(x / 2.0))
    requires c == C(t.cos(y) * t.sin(x / 2.0), t.sin(y) * t.sin(x / 2.0))
    requires d == C(t.cos(y + z) * t.cos(x / 2.0), t.sin(y + z) * t.cos(x / 2.0))
    ensures UMatrix(t, x, y, z) == [[a, b], [c, d]]
  {
    var m := UMatrix(t, x, y, z);
    assert m[0] == [m[0][0], m[0][1]] && m[1] == [m[1][0], m[1][1]];
    assert m[0][0] == a && m[0][1] == b;
    assert m[1][0] == c && m[1][1] == d;
    assert m == [m[0], m[1]];
  }

  /** u. */
  lemma UTable(t: Trig, x: real, y: real, z: real, v: Vec, n: nat, i: nat, q: nat)
    requires q < n && i < |v| == Pow2(n) && i / Pow2(q) % 2 == 0
    ensures i + Pow2(q) < |v|
    ensures var a, b, c, s := v[i], v[i + Pow2(q)], t.cos(x / 2.0), t.sin(x / 2.0);
      var w := Denote(t, Operation("", U, [q], [], [x, y, z], 0), v);
      && w[i] == Plus(Mul(C(c, 0.0), a), Mul(C(-t.cos(z) * s, -t.sin(z) * s), b))
      && w[i + Pow2(q)] == Plus(Mul(C(t.cos(y) * s, t.sin(y) * s), a), Mul(C(t.cos(y + z) * c, t.sin(y + z) * c), b))
  {
    hide Denote, Mul, Plus, Pow2, MatrixForGate;
    var c, s := t.cos(x / 2.0), t.sin(x / 2.0);
    var e, f, g, k := C(c, 0.0), C(-t.cos(z) * s, -t.sin(z) * s), C(t.cos(y) * s, t.sin(y) * s),
      C(t.cos(y + z) * c, t.sin(y + z) * c);
    URowsAt(t, x, y, z, e, f, g, k);
    GateAfter(t, U, [x, y, z], v, n, i, q, e, f, g, k);
  }

  // ----- controls

  lemma ActiveIs(i: nat, c: nat, d: nat)
    ensures Active(i, [c]) <==> i / Pow2(c) % 2 == 1
    ensures Active(i, [c, d]) <==> i / Pow2(c) % 2 == 1 && i / Pow2(d) % 2 == 1
  {
    hide Bit;
    BitIs(i, c);
    BitIs(i, d);
    assert c in [c] && c in [c, d] && d in [c, d];
  }

  lemma ControlledAmp(t: Trig, plain: Operation, op: Operation, rows: Rows, v: Vec, i: nat)
    requires i < |v| && op.gate != M && plain.gate != M && |plain.targets| == 1
    requires KernelOf(t, plain) == Kernel([], plain.targets, rows)
    requires KernelOf(t, op) == Kernel(op.controls, plain.targets, rows)
    ensures Denote(t, op, v)[i] == if Active(i, op.controls) then Denote(t, plain, v)[i] else v[i]
  {
    hide Active, KernelOf, Pow2, Amp;
    UncontrolledActive(i);
    Amp1(KernelOf(t, plain), v, i);
    Amp1(KernelOf(t, op), v, i);
  }

  lemma ControlledRows(t: Trig, op: Operation)
    requires op.gate in {CX, CY, CH, CZ, CP, CCX, CCZ}
    ensures op.gate in {CX, CCX} ==> KernelOf(t, op) == Kernel(op.controls, op.targets, X_ROWS)
    ensures op.gate in {CZ, CCZ} ==> KernelOf(t, op) == Kernel(op.controls, op.targets, Z_ROWS)
    ensures op.gate == CY ==> KernelOf(t, op) == Kernel(op.controls, op.targets, Y_ROWS)
    ensures op.gate == CH ==> KernelOf(t, op) == Kernel(op.controls, op.targets, HRows(t))
    ensures op.gate == CP ==>
      KernelOf(t, op) == Kernel(op.controls, op.targets, PhaseRows(Cis(t, Param(op.params, 0))))
  {
    hide MatrixForGate, HRows, MatrixForTwoQubitGate, PhaseRows, Cis;
  }

  lemma PlainRows(t: Trig, x: real)
    ensures MatrixForGate(t, X, []) == X_ROWS && MatrixForGate(t, Y, []) == Y_ROWS && MatrixForGate(t, Z, []) == Z_ROWS
    ensures MatrixForGate(t, H, []) == HRows(t) && MatrixForGate(t, P, [x]) == PhaseRows(Cis(t, x))
  {
    hide HRows, PhaseRows, Cis, UMatrix;
  }

  lemma ControlledFrom(t: Trig, g: GateName, params: seq<real>, q: nat, op: Operation, v: Vec, i: nat)
    requires i < |v| && TargetCount(g) == 1 && ControlCount(g) == 0 && g != M && op.gate != M
    requires KernelOf(t, op) == Kernel(op.controls, [q], MatrixForGate(t, g, params))
    ensures Denote(t, op, v)[i] ==
            if Active(i, op.controls) then Denote(t, Operation("", g, [q], [], params, 0), v)[i] else v[i]
  {
    hide Active, KernelOf, Denote, MatrixForGate;
    SingleKernel(t, g, params, q);
    ControlledAmp(t, Operation("", g, [q], [], params, 0), op, MatrixForGate(t, g, params), v, i);
  }

  /** cx and cy act as x and y where the control bit is set, and nowhere else. */
  lemma ControlledPauliTable(t: Trig, v: Vec, c: nat, q: nat, i: nat)
    requires i < |v|
    ensures Denote(t, Operation("", CX, [q], [c], [], 0), v)[i] ==
            if i / Pow2(c) % 2 == 1 then Denote(t, Operation("", X, [q], [], [], 0), v)[i] else v[i]
    ensures Denote(t, Operation("", CY, [q], [c], [], 0), v)[i] ==
            if i / Pow2(c) % 2 == 1 then Denote(t, Operation("", Y, [q], [], [], 0), v)[i] else v[i]
  {
    hide KernelOf, Denote, Active, Pow2, MatrixForGate, HRows, PhaseRows, Cis;
    ActiveIs(i, c, c);
    PlainRows(t, 0.0);
    ControlledRows(t, Operation("", CX, [q], [c], [], 0));
    ControlledFrom(t, X, [], q, Operation("", CX, [q], [c], [], 0), v, i);
    ControlledRows(t, Operation("", CY, [q], [c], [], 0));
    ControlledFrom(t, Y, [], q, Operation("", CY, [q], [c], [], 0), v, i);
  }

  /** So do ch and cz. */
  lemma ControlledHadamardTable(t: Trig, v: Vec, c: nat, q: nat, i: nat)
    requires i < |v|
    ensures Denote(t, Operation("", CH, [q], [c], [], 0), v)[i] ==
            if i / Pow2(c) % 2 == 1 then Denote(t, Operation("", H, [q], [], [], 0), v)[i] else v[i]
    ensures Denote(t, Operation("", CZ, [q], [c], [], 0), v)[i] ==
            if i / Pow2(c) % 2 == 1 then Denote(t, Operation("", Z, [q], [], [], 0), v)[i] else v[i]
  {
    hide KernelOf, Denote, Active, Pow2, MatrixForGate, HRows, PhaseRows, Cis;
    ActiveIs(i, c, c);
    PlainRows(t, 0.0);
    ControlledRows(t, Operation("", CH, [q], [c], [], 0));
    ControlledFrom(t, H, [], q, Operation("", CH, [q], [c], [], 0), v, i);
    ControlledRows(t, Operation("", CZ, [q], [c], [], 0));
    ControlledFrom(t, Z, [], q, Operation("", CZ, [q], [c], [], 0), v, i);
  }

  /** So does cp. */
  lemma ControlledPhaseTable(t: Trig, x: real, v: Vec, c: nat, q: nat, i: nat)
    requires i < |v|
    ensures Denote(t, Operation("", CP, [q], [c], [x], 0), v)[i] ==
            if i / Pow2(c) % 2 == 1 then Denote(t, Operation("", P, [q], [], [x], 0), v)[i] else v[i]
  {
    hide KernelOf, Denote, Active, Pow2, MatrixForGate, HRows, PhaseRows, Cis;
    ActiveIs(i, c, c);
    PlainRows(t, x);
    ControlledRows(t, Operation("", CP, [q], [c], [x], 0));
    ControlledFrom(t, P, [x], q, Operation("", CP, [q], [c], [x], 0), v, i);
  }

  /** The same with two controls. */
  lemma DoubleTable(t: Trig, v: Vec, c: nat, d: nat, q: nat, i: nat)
    requires i < |v|
    ensures Denote(t, Operation("", CCX, [q], [c, d], [], 0), v)[i] ==
            var both := i / Pow2(c) % 2 == 1 && i / Pow2(d) % 2 == 1;
            if both then Denote(t, Operation("", X, [q], [], [], 0), v)[i] else v[i]
    ensures Denote(t, Operation("", CCZ, [q], [c, d], [], 0), v)[i] ==
            var both := i / Pow2(c) % 2 == 1 && i / Pow2(d) % 2 == 1;
            if both then Denote(t, Operation("", Z, [q], [], [], 0), v)[i] else v[i]
  {
    hide KernelOf, Denote, Active, Pow2, MatrixForGate, HRows, PhaseRows, Cis;
    ActiveIs(i, c, d);
    PlainRows(t, 0.0);
    ControlledRows(t, Operation("", CCX, [q], [c, d], [], 0));
    ControlledFrom(t, X, [], q, Operation("", CCX, [q], [c, d], [], 0), v, i);
    ControlledRows(t, Operation("", CCZ, [q], [c, d], [], 0));
    ControlledFrom(t, Z, [], q, Operation("", CCZ, [q], [c, d], [], 0), v, i);
  }

  // ----- two targets

  /** Four indices that differ in two qubits alone. */
  lemma QuadIndex(n: nat, i: nat, a: nat, b: nat)
    requires a != b && a < n && b < n && i < Pow2(n) && i / Pow2(a) % 2 == 0 && i / Pow2(b) % 2 == 0
    ensures i + Pow2(a) + Pow2(b) < Pow2(n) && i + Pow2(a) < Pow2(n) && i + Pow2(b) < Pow2(n)
    ensures Corner(i, a, b, false, false) == i && Corner(i, a, b, false, true) == i + Pow2(b)
    ensures Corner(i, a, b, true, false) == i + Pow2(a) && Corner(i, a, b, true, true) == i + Pow2(a) + Pow2(b)
  {
    hide Bit, Set, Pow2;
    BitIs(i, a);
    BitIs(i, b);
    SetIs(i, a);
    SetIs(i, b);
    BitOfSet(i, a, true, b);
    SetIs(Set(i, a, true), b);
    SetRange(i, a, true, n);
    SetRange(i, b, true, n);
    SetRange(Set(i, a, true), b, true, n);
    assert Set(i, a, false) == i && Set(i, b, false) == i && Set(Set(i, a, true), b, false) == Set(i, a, true);
  }

  lemma SwapCorner(t: Trig, v: Vec, n: nat, i: nat, a: nat, b: nat, x: bool, y: bool)
    requires a != b && a < n && b < n && i < |v| == Pow2(n)
    ensures Corner(i, a, b, x, y) < |v|
    ensures Denote(t, Operation("", SWAP, [a, b], [], [], 0), v)[Corner(i, a, b, x, y)] == At(v, Corner(i, a, b, y, x))
  {
    hide Pow2, Bit, Set, Active, Amp;
    var j := Corner(i, a, b, x, y);
    CornerLaws(i, a, b, x, y, n);
    CornerLaws(i, a, b, y, y, n);
    UncontrolledActive(j);
    SimulationControlled.SwapAt(v, [], a, b, j);
  }

  /** swap exchanges the amplitudes on which the two bits differ. */
  lemma SwapTable(t: Trig, v: Vec, n: nat, i: nat, a: nat, b: nat)
    requires a != b && a < n && b < n && i < |v| == Pow2(n) && i / Pow2(a) % 2 == 0 && i / Pow2(b) % 2 == 0
    ensures i + Pow2(a) + Pow2(b) < |v|
    ensures var w, p, q := Denote(t, Operation("", SWAP, [a, b], [], [], 0), v), Pow2(a), Pow2(b);
      w[i] == v[i] && w[i + p + q] == v[i + p + q] && w[i + p] == v[i + q] && w[i + q] == v[i + p]
  {
    hide Denote, Pow2, Corner;
    QuadIndex(n, i, a, b);
    SwapCorner(t, v, n, i, a, b, false, false);
    SwapCorner(t, v, n, i, a, b, false, true);
    SwapCorner(t, v, n, i, a, b, true, false);
    SwapCorner(t, v, n, i, a, b, true, true);
  }

  /** cswap does so where the control bit is set, and nowhere else. */
  lemma ControlledSwapTable(t: Trig, v: Vec, c: nat, a: nat, b: nat, i: nat)
    requires a != b && i < |v|
    ensures Denote(t, Operation("", CSWAP, [a, b], [c], [], 0), v)[i] ==
            if i / Pow2(c) % 2 == 1 then Denote(t, Operation("", SWAP, [a, b], [], [], 0), v)[i] else v[i]
  {
    hide Pow2, Bit, Active, Amp;
    ActiveIs(i, c, c);
    UncontrolledActive(i);
    SimulationControlled.SwapAt(v, [], a, b, i);
    if Active(i, [c]) {
      SimulationControlled.SwapAt(v, [c], a, b, i);
    } else {
      InactiveAmp(Kernel([c], [b, a], SWAP_ROWS), v, i);
    }
  }

  lemma InactiveAmp(k: Kernel, v: Vec, i: nat)
    requires i < |v| && !Active(i, k.controls)
    ensures Amp(k, v, i) == v[i]
  {
    hide Active, Term, Sum;
  }

  lemma QuadAfter(t: Trig, g: GateName, x: real, v: Vec, n: nat, i: nat, a: nat, b: nat)
    requires g in {RXX, RYY, RZZ, RZX}
    requires a != b && a < n && b < n && i < |v| == Pow2(n) && i / Pow2(a) % 2 == 0 && i / Pow2(b) % 2 == 0
    ensures i + Pow2(a) + Pow2(b) < |v| && Four(MatrixForTwoQubitGate(t, g, [x]))
    ensures var w, p, q := Denote(t, Operation("", g, [a, b], [], [x], 0), v), Pow2(a), Pow2(b);
      Quad(w[i], w[i + q], w[i + p], w[i + p + q]) ==
        OnBoth(MatrixForTwoQubitGate(t, g, [x]), Quad(v[i], v[i + q], v[i + p], v[i + p + q]))
  {
    hide Denote, Pow2, MatrixForTwoQubitGate, Corner, OnBoth, Four;
    QuadIndex(n, i, a, b);
    RotationOnQuad(t, g, x, v, n, i, a, b);
  }

  lemma CrossRows(t: Trig, x: real, c: C, n: C, p: C)
    requires c == C(t.cos(x / 2.0), 0.0) && n == C(0.0, -t.sin(x / 2.0)) && p == C(0.0, t.sin(x / 2.0))
    ensures MatrixForTwoQubitGate(t, RXX, [x]) ==
            [[c, ZERO, ZERO, n], [ZERO, c, n, ZERO], [ZERO, n, c, ZERO], [n, ZERO, ZERO, c]]
    ensures MatrixForTwoQubitGate(t, RYY, [x]) ==
            [[c, ZERO, ZERO, p], [ZERO, c, n, ZERO], [ZERO, n, c, ZERO], [p, ZERO, ZERO, c]]
    ensures MatrixForTwoQubitGate(t, RZX, [x]) ==
            [[c, n, ZERO, ZERO], [n, c, ZERO, ZERO], [ZERO, ZERO, c, p], [ZERO, ZERO, p, c]]
  {
    hide Cis;
  }

  /** rxx, on the four amplitudes that differ in the two targets alone. */
  lemma XxTable(t: Trig, x: real, v: Vec, n: nat, i: nat, a: nat, b: nat)
    requires a != b && a < n && b < n && i < |v| == Pow2(n) && i / Pow2(a) % 2 == 0 && i / Pow2(b) % 2 == 0
    ensures i + Pow2(a) + Pow2(b) < |v|
    ensures var e, f, p, q := C(t.cos(x / 2.0), 0.0), C(0.0, -t.sin(x / 2.0)), Pow2(a), Pow2(b);
      var w := Denote(t, Operation("", RXX, [a, b], [], [x], 0), v);
      && w[i] == Plus(Mul(e, v[i]), Mul(f, v[i + p + q])) && w[i + q] == Plus(Mul(e, v[i + q]), Mul(f, v[i + p]))
      && w[i + p] == Plus(Mul(f, v[i + q]), Mul(e, v[i + p]))
      && w[i + p + q] == Plus(Mul(f, v[i]), Mul(e, v[i + p + q]))
  {
    hide Denote, Pow2, MatrixForTwoQubitGate, MixFour, Mul, Plus;
    var e, f, g := C(t.cos(x / 2.0), 0.0), C(0.0, -t.sin(x / 2.0)), C(0.0, t.sin(x / 2.0));
    QuadAfter(t, RXX, x, v, n, i, a, b);
    CrossRows(t, x, e, f, g);
    var quad := Quad(v[i], v[i + Pow2(b)], v[i + Pow2(a)], v[i + Pow2(a) + Pow2(b)]);
    Sparse(e, f, quad);
    Sparse(f, e, quad);
  }

  /** ryy. */
  lemma YyTable(t: Trig, x: real, v: Vec, n: nat, i: nat, a: nat, b: nat)
    requires a != b && a < n && b < n && i < |v| == Pow2(n) && i / Pow2(a) % 2 == 0 && i / Pow2(b) % 2 == 0
    ensures i + Pow2(a) + Pow2(b) < |v|
    ensures var e, p, q := C(t.cos(x / 2.0), 0.0), Pow2(a), Pow2(b);
      var f, g := C(0.0, -t.sin(x / 2.0)), C(0.0, t.sin(x / 2.0));
      var w := Denote(t, Operation("", RYY, [a, b], [], [x], 0), v);
      && w[i] == Plus(Mul(e, v[i]), Mul(g, v[i + p + q])) && w[i + q] == Plus(Mul(e, v[i + q]), Mul(f, v[i + p]))
      && w[i + p] == Plus(Mul(f, v[i + q]), Mul(e, v[i + p]))
      && w[i + p + q] == Plus(Mul(g, v[i]), Mul(e, v[i + p + q]))
  {
    hide Denote, Pow2, MatrixForTwoQubitGate, MixFour, Mul, Plus;
    var e, f, g := C(t.cos(x / 2.0), 0.0), C(0.0, -t.sin(x / 2.0)), C(0.0, t.sin(x / 2.0));
    QuadAfter(t, RYY, x, v, n, i, a, b);
    CrossRows(t, x, e, f, g);
    var quad := Quad(v[i], v[i + Pow2(b)], v[i + Pow2(a)], v[i + Pow2(a) + Pow2(b)]);
    Sparse(e, f, quad);
    Sparse(f, e, quad);
    Sparse(e, g, quad);
    Sparse(g, e, quad);
  }

  /** rzz. */
  lemma ZzTable(t: Trig, x: real, v: Vec, n: nat, i: nat, a: nat, b: nat)
    requires a != b && a < n && b < n && i < |v| == Pow2(n) && i / Pow2(a) % 2 == 0 && i / Pow2(b) % 2 == 0
    ensures i + Pow2(a) + Pow2(b) < |v|
    ensures var e, f, p, q := C(t.cos(-x / 2.0), t.sin(-x / 2.0)), C(t.cos(x / 2.0), t.sin(x / 2.0)), Pow2(a), Pow2(b);
      var w := Denote(t, Operation("", RZZ, [a, b], [], [x], 0), v);
      && w[i] == Mul(e, v[i]) && w[i + q] == Mul(f, v[i + q]) && w[i + p] == Mul(f, v[i + p])
      && w[i + p + q] == Mul(e, v[i + p + q])
  {
    hide Denote, Pow2, MatrixForTwoQubitGate, OnBoth, Four, Mul;
    QuadAfter(t, RZZ, x, v, n, i, a, b);
    ZzMatrix(t, x, Quad(v[i], v[i + Pow2(b)], v[i + Pow2(a)], v[i + Pow2(a) + Pow2(b)]));
  }

  /** rzx, with x on the second target. */
  lemma ZxTable(t: Trig, x: real, v: Vec, n: nat, i: nat, a: nat, b: nat)
    requires a != b && a < n && b < n && i < |v| == Pow2(n) && i / Pow2(a) % 2 == 0 && i / Pow2(b) % 2 == 0
    ensures i + Pow2(a) + Pow2(b) < |v|
    ensures var e, p, q := C(t.cos(x / 2.0), 0.0), Pow2(a), Pow2(b);
      var f, g := C(0.0, -t.sin(x / 2.0)), C(0.0, t.sin(x / 2.0));
      var w := Denote(t, Operation("", RZX, [a, b], [], [x], 0), v);
      && w[i] == Plus(Mul(e, v[i]), Mul(f, v[i + q])) && w[i + q] == Plus(Mul(f, v[i]), Mul(e, v[i + q]))
      && w[i + p] == Plus(Mul(e, v[i + p]), Mul(g, v[i + p + q]))
      && w[i + p + q] == Plus(Mul(g, v[i + p]), Mul(e, v[i + p + q]))
  {
    hide Denote, Pow2, MatrixForTwoQubitGate, MixFour, Mul, Plus;
    var e, f, g := C(t.cos(x / 2.0), 0.0), C(0.0, -t.sin(x / 2.0)), C(0.0, t.sin(x / 2.0));
    QuadAfter(t, RZX, x, v, n, i, a, b);
    CrossRows(t, x, e, f, g);
    var quad := Quad(v[i], v[i + Pow2(b)], v[i + Pow2(a)], v[i + Pow2(a) + Pow2(b)]);
    Sparse(e, f, quad);
    Sparse(f, e, quad);
    Sparse(e, g, quad);
    Sparse(g, e, quad);
  }

  // ----- several operations

  /** A measurement leaves the simulated state alone, and operations run from left to right. */
  lemma InOrder(t: Trig, a: Operation, rest: seq<Operation>, m: Operation, v: Vec)
    ensures DenoteAll(t, [], v) == v && DenoteAll(t, [a] + rest, v) == DenoteAll(t, rest, Denote(t, a, v))
    ensures m.gate == M ==> Denote(t, m, v) == v
  {
    hide KernelOf;
    assert ([a] + rest)[1..] == rest;
  }

  // ----- the square root of x

  lemma EighthOfRow(r: real, a: C, b: C)
    requires r * r == 0.5
    ensures Mul(C(r, r), Plus(Mul(C(r, 0.0), a), Mul(C(0.0, -r), b))) ==
            Plus(Mul(C(0.5, 0.5), a), Mul(C(0.5, -0.5), b))
    ensures Mul(C(r, r), Plus(Mul(C(0.0, -r), a), Mul(C(r, 0.0), b))) ==
            Plus(Mul(C(0.5, -0.5), a), Mul(C(0.5, 0.5), b))
  {
    var z, x, y := C(r, r), C(r, 0.0), C(0.0, -r);
    assert Mul(z, x) == C(0.5, 0.5) && Mul(z, y) == C(0.5, -0.5);
    Through(z, x, y, a, b);
    Through(z, y, x, a, b);
  }

  lemma Through(z: C, x: C, y: C, a: C, b: C)
    ensures Mul(z, Plus(Mul(x, a), Mul(y, b))) == Plus(Mul(Mul(z, x), a), Mul(Mul(z, y), b))
  {
    hide Mul, Plus;
    MulPlus(z, Mul(x, a), Mul(y, b));
    MulAssoc(z, x, a);
    MulAssoc(z, y, b);
  }

  lemma SxPair(t: Trig, v: Vec, n: nat, i: nat, q: nat)
    requires Exact(t) && q < n && i < |v| == Pow2(n) && i / Pow2(q) % 2 == 0
    ensures i + Pow2(q) < |v|
    ensures var z, w := C(t.cos(t.pi / 4.0), t.sin(t.pi / 4.0)), Denote(t, Operation("", SX, [q], [], [], 0), v);
      var u := Denote(t, Operation("", RX, [q], [], [t.pi / 2.0], 0), v);
      w[i] == Mul(z, u[i]) && w[i + Pow2(q)] == Mul(z, u[i + Pow2(q)])
  {
    hide Exact, Denote, Mul, Plus, Pow2, R;
    SxTable(t, v, n, i, q);
    RxTable(t, t.pi / 2.0, v, n, i, q);
    Half(t);
    assert t.pi / 2.0 / 2.0 == t.pi / 4.0;
    EighthOfRow(R(t), v[i], v[i + Pow2(q)]);
  }

  /** With exact trigonometry sx is rx by a quarter turn, up to the phase of an eighth of a turn. */
  lemma SxIsRotation(t: Trig, v: Vec, n: nat, q: nat, k: nat)
    requires Exact(t) && q < n && k < |v| == Pow2(n)
    ensures Denote(t, Operation("", SX, [q], [], [], 0), v)[k] ==
            Mul(C(t.cos(t.pi / 4.0), t.sin(t.pi / 4.0)), Denote(t, Operation("", RX, [q], [], [t.pi / 2.0], 0), v)[k])
  {
    hide Exact, Denote, Mul, Pow2, Bit, Set;
    var i := Set(k, q, false);
    SetRange(k, q, false, n);
    assert !Bit(i, q);
    BitIs(i, q);
    PairIndex(n, i, q);
    SxPair(t, v, n, i, q);
    SetSet(k, q, false, true);
    assert k == Set(k, q, Bit(k, q));
  }
}
