/** The payload the editor submits, and what the backend's circuit for it measures. */
module Submission {
  import opened Options
  import opened Bits
  import opened Complex
  import opened Trigonometry
  import opened Circuits
  import opened Kernels
  import opened Gates
  import opened Sorting
  import opened OrderIndependence
  import opened CircuitValidation
  import opened Blocks
  import opened Decompositions
  import opened QasmStatements
  import opened BackendCircuit
  import opened QasmRoundTrip
  import opened Simulation
  import QasmMeaning

  datatype PayloadOperation = PayloadOperation(gate: GateName, targets: seq<nat>, controls: seq<nat>, params: seq<real>)

  datatype Payload = Payload(numQubits: nat, operations: seq<PayloadOperation>)

  /** The fields a gate needs, and only those; nothing when one has the wrong length. */
  function NormalizeOperation(op: Operation): Option<PayloadOperation> {
    if |op.targets| != TargetCount(op.gate) then Option.None
    else if ControlCount(op.gate) > 0 && |op.controls| != ControlCount(op.gate) then Option.None
    else if ParamCount(op.gate) > 0 && |op.params| != ParamCount(op.gate) then Option.None
    else Option.Some(PayloadOperation(op.gate, op.targets, if ControlCount(op.gate) > 0 then op.controls else [],
                                      if ParamCount(op.gate) > 0 then op.params else []))
  }

  function NormalizeAll(ops: seq<Operation>): Option<seq<PayloadOperation>> {
    if ops == [] then Option.Some([])
    else
      match (NormalizeOperation(ops[0]), NormalizeAll(ops[1..]))
      case (Some(first), Some(rest)) => Option.Some([first] + rest)
      case _ => Option.None
  }

  function BuildCircuitTaskPayload(model: Circuit, idLe: (string, string) -> bool): Option<Payload> {
    match NormalizeAll(SortOperations(model.operations, idLe))
    case Some(operations) => Option.Some(Payload(model.numQubits, operations))
    case None => Option.None
  }

  /** The backend's view of a payload entry: no name and no layer. */
  function Received(p: PayloadOperation): Operation {
    Operation("", p.gate, p.targets, p.controls, p.params, 0)
  }

  function ReceivedAll(ps: seq<PayloadOperation>): (r: seq<Operation>)
    ensures |r| == |ps| && forall k :: 0 <= k < |r| ==> r[k] == Received(ps[k])
  {
    if ps == [] then [] else [Received(ps[0])] + ReceivedAll(ps[1..])
  }

  function Stripped(ops: seq<Operation>): (r: seq<Operation>)
    ensures |r| == |ops| && forall k :: 0 <= k < |r| ==> r[k] == ops[k].(id := "", layer := 0)
  {
    if ops == [] then [] else [ops[0].(id := "", layer := 0)] + Stripped(ops[1..])
  }

  lemma NormalizeOne(op: Operation, n: nat)
    requires WellFormed(op, n)
    ensures NormalizeOperation(op) == Option.Some(PayloadOperation(op.gate, op.targets, op.controls, op.params))
    ensures Received(NormalizeOperation(op).value) == op.(id := "", layer := 0)
  {
    hide Within, TargetCount, ControlCount, ParamCount;
  }

  lemma {:induction false} NormalizeMany(ops: seq<Operation>, n: nat)
    requires Proper(ops, n)
    ensures NormalizeAll(ops).Some? && ReceivedAll(NormalizeAll(ops).value) == Stripped(ops)
  {
    hide NormalizeOperation, Received, WellFormed, Distinct;
    if ops != [] {
      NormalizeOne(ops[0], n);
      NormalizeMany(ops[1..], n);
      var r := NormalizeAll(ops).value;
      assert r[1..] == NormalizeAll(ops[1..]).value;
    }
  }

  /** Every editable circuit can be submitted, and the backend receives its sorted operations. */
  lemma PayloadComplete(model: Circuit, idLe: (string, string) -> bool)
    requires TotalPreorder(idLe) && Editable(model)
    ensures var p := BuildCircuitTaskPayload(model, idLe);
      p.Some? && p.value.numQubits == model.numQubits
      && ReceivedAll(p.value.operations) == Stripped(SortOperations(model.operations, idLe))
  {
    hide SortOperations, Editable, TotalPreorder, Proper, LayersApart, Legal, LayerSorted, UniqueIds, MeasuredLast;
    SortedEditable(model, idLe);
    NormalizeMany(SortOperations(model.operations, idLe), model.numQubits);
  }

  /** The operation has as many targets, controls and parameters as its gate takes; others are not looked at. */
  predicate Submittable(op: Operation) {
    && |op.targets| == (if op.gate in {SWAP, CSWAP, RXX, RYY, RZZ, RZX} then 2 else 1)
    && (op.gate in {CX, CY, CH, CP, CZ, CSWAP} ==> |op.controls| == 1)
    && (op.gate in {CCX, CCZ} ==> |op.controls| == 2)
    && (op.gate in {RX, RY, RZ, P, CP, RXX, RYY, RZZ, RZX} ==> |op.params| == 1)
    && (op.gate == U ==> |op.params| == 3)
  }

  /** The payload entry of an operation: fields its gate does not take are dropped. */
  function Entry(op: Operation): PayloadOperation {
    PayloadOperation(op.gate, op.targets,
                     if op.gate in {CX, CY, CH, CP, CZ, CSWAP, CCX, CCZ} then op.controls else [],
                     if op.gate in {RX, RY, RZ, P, CP, RXX, RYY, RZZ, RZX, U} then op.params else [])
  }

  lemma EntryExactly(op: Operation)
    ensures NormalizeOperation(op) == if Submittable(op) then Option.Some(Entry(op)) else Option.None
  {}

  lemma {:induction false} EntriesExactly(ops: seq<Operation>)
    ensures var r := NormalizeAll(ops);
      && (r.None? <==> exists k :: 0 <= k < |ops| && !Submittable(ops[k]))
      && (r.Some? ==> |r.value| == |ops| && forall k :: 0 <= k < |ops| ==> r.value[k] == Entry(ops[k]))
  {
    hide NormalizeOperation, Submittable, Entry;
    if ops != [] {
      EntryExactly(ops[0]);
      EntriesExactly(ops[1..]);
      assert forall k :: 0 < k < |ops| ==> ops[k] == ops[1..][k - 1];
      if k :| 0 <= k < |ops| && !Submittable(ops[k]) {
        assert k > 0 ==> !Submittable(ops[1..][k - 1]);
      }
      if NormalizeAll(ops[1..]).None? {
        var k :| 0 <= k < |ops[1..]| && !Submittable(ops[1..][k]);
        assert !Submittable(ops[k + 1]);
      }
    }
  }

  /** Of any circuit: the entries of the sorted operations, or nothing when one of them cannot be submitted. */
  lemma PayloadExactly(model: Circuit, idLe: (string, string) -> bool)
    ensures var p, ops := BuildCircuitTaskPayload(model, idLe), SortOperations(model.operations, idLe);
      && (p.None? <==> exists k :: 0 <= k < |ops| && !Submittable(ops[k]))
      && (p.Some? ==> p.value.numQubits == model.numQubits && |p.value.operations| == |ops|
                      && forall k :: 0 <= k < |ops| ==> p.value.operations[k] == Entry(ops[k]))
  {
    hide NormalizeAll, Submittable, Entry, SortOperations;
    EntriesExactly(SortOperations(model.operations, idLe));
  }

  // ----- the backend's state against the simulator's

  function ExecutedWith(): Operation -> Operation {
    (op: Operation) => Executed(op)
  }

  /** The circuit with the last two angles of every `u` exchanged. */
  function Exchanged(model: Circuit): Circuit {
    Circuit(model.numQubits, Map(ExecutedWith(), model.operations))
  }

  lemma ExecutedShape(op: Operation, n: nat)
    requires WellFormed(op, n)
    ensures var e := Executed(op); WellFormed(e, n) && Qubits(e) == Qubits(op) && e.id == op.id && e.layer == op.layer
  {
    hide Within;
  }

  lemma StrippedProper(ops: seq<Operation>, n: nat)
    requires Proper(ops, n)
    ensures forall k :: 0 <= k < |ops| ==>
      WellFormed(Stripped(ops)[k], n) && Distinct(Qubits(Stripped(ops)[k])) && Shaped(Stripped(ops)[k])
  {
    hide Distinct, Within;
    forall k | 0 <= k < |ops| ensures WellFormed(Stripped(ops)[k], n) && Distinct(Qubits(Stripped(ops)[k])) {
      assert ops[k] in ops;
    }
  }

  lemma {:induction false} StrippedDenotes(t: Trig, ops: seq<Operation>, v: Vec)
    ensures DenoteAll(t, AllExecuted(Stripped(ops)), v) == DenoteAll(t, Map(ExecutedWith(), ops), v)
  {
    hide Denote;
    if ops != [] {
      var a, b := Executed(ops[0].(id := "", layer := 0)), Executed(ops[0]);
      SameMeaning(t, a, b, v);
      StrippedDenotes(t, ops[1..], Denote(t, b, v));
      assert Stripped(ops)[1..] == Stripped(ops[1..]);
      assert AllExecuted(Stripped(ops))[1..] == AllExecuted(Stripped(ops)[1..]);
      assert Map(ExecutedWith(), ops)[1..] == Map(ExecutedWith(), ops[1..]);
    }
  }

  lemma ExecutedProper(ops: seq<Operation>, n: nat)
    requires Proper(ops, n)
    ensures Proper(Map(ExecutedWith(), ops), n)
    ensures var c := Map(ExecutedWith(), ops);
      forall k :: 0 <= k < |c| ==> c[k].id == ops[k].id && c[k].layer == ops[k].layer && Qubits(c[k]) == Qubits(ops[k])
  {
    hide WellFormed, Distinct, Qubits, Executed;
    var c := Map(ExecutedWith(), ops);
    forall k | 0 <= k < |c|
      ensures WellFormed(c[k], n) && Distinct(Qubits(c[k])) && c[k].id == ops[k].id && c[k].layer == ops[k].layer
      ensures Qubits(c[k]) == Qubits(ops[k])
    {
      assert ops[k] in ops;
      ExecutedShape(ops[k], n);
    }
  }

  lemma ExecutedSort(ops: seq<Operation>, idLe: (string, string) -> bool)
    ensures multiset(Map(ExecutedWith(), SortOperations(ops, idLe))) == multiset(Map(ExecutedWith(), ops))
  {
    SortMap(ops, ExecutedWith(), LayerThenId(idLe), LayerThenId(idLe));
  }

  /** Sorted by name or by layer only, the exchanged circuit has one final state. */
  lemma ExchangedState(t: Trig, model: Circuit, idLe: (string, string) -> bool)
    requires TotalPreorder(idLe) && Editable(model)
    ensures DenoteAll(t, Map(ExecutedWith(), SortOperations(model.operations, idLe)), Ground(model.numQubits)) ==
            FinalState(t, Exchanged(model))
  {
    hide SortOperations, TotalPreorder, Proper, LayersApart, Legal, UniqueIds, LayerSorted, Editable, Pow2, Ground,
      DenoteAll, ExecutedWith, StableSort, MeasuredLast;
    var n, f := model.numQubits, ExecutedWith();
    var ops := SortOperations(model.operations, idLe);
    SortedEditable(model, idLe);
    ExecutedProper(ops, n);
    QasmMeaning.Alike(ops, Map(f, ops));
    ExecutedSort(model.operations, idLe);
    ByLayerSorts(Map(f, model.operations));
    UniquePermutation(Map(f, ops), StableSort(Map(f, model.operations), ByLayer()));
    SameState(t, Map(f, ops), StableSort(Map(f, model.operations), ByLayer()), n, Ground(n));
  }

  /** The state of the backend's circuit for a submitted payload. */
  function BackendState(t: Trig, payload: Payload): Vec
    requires forall k :: 0 <= k < |payload.operations| ==> Shaped(Received(payload.operations[k]))
  {
    Execute(t, AllGates(t.pi, ReceivedAll(payload.operations)), Ground(payload.numQubits))
  }

  lemma ReceivedArity(payload: Payload, ops: seq<Operation>, n: nat)
    requires Proper(ops, n) && ReceivedAll(payload.operations) == Stripped(ops)
    ensures forall k :: 0 <= k < |payload.operations| ==> Shaped(Received(payload.operations[k]))
  {
    hide Shaped, Received;
    StrippedProper(ops, n);
    assert forall k :: 0 <= k < |payload.operations| ==>
        ReceivedAll(payload.operations)[k] == Received(payload.operations[k]);
  }

  /**
   * Simulator and backend agree on every outcome probability of every editable circuit, once the last two angles
   * of its `u` gates are exchanged.
   */
  lemma BackendAgrees(t: Trig, model: Circuit, idLe: (string, string) -> bool)
    requires Exact(t) && TotalPreorder(idLe) && Editable(model)
    ensures var p := BuildCircuitTaskPayload(model, idLe);
      && p.Some? && (forall k :: 0 <= k < |p.value.operations| ==> Shaped(Received(p.value.operations[k])))
      && |BackendState(t, p.value)| == Pow2(model.numQubits)
      && forall i :: 0 <= i < Pow2(model.numQubits) ==>
           Norm2(BackendState(t, p.value)[i]) == Norm2(FinalState(t, Exchanged(model))[i])
  {
    hide SortOperations, TotalPreorder, Proper, LayersApart, Legal, UniqueIds, LayerSorted, Editable, Pow2, Ground,
      DenoteAll, ExecutedWith, MeasuredLast, Shaped, Received, FinalState, Exchanged, TotalPhase, Norm2, Mul, AllGates,
      BuildCircuitTaskPayload, WellFormed, Exact, Execute;
    var n := model.numQubits;
    var ops := SortOperations(model.operations, idLe);
    SortedEditable(model, idLe);
    PayloadComplete(model, idLe);
    var payload := BuildCircuitTaskPayload(model, idLe).value;
    ReceivedArity(payload, ops, n);
    StrippedProper(ops, n);
    BackendCircuitCorrect(t, Stripped(ops), n, Ground(n));
    StrippedDenotes(t, ops, Ground(n));
    ExchangedState(t, model, idLe);
    var state := FinalState(t, Exchanged(model));
    assert BackendState(t, payload) == Rotated(TotalPhase(t, Stripped(ops)), state);
    forall i | 0 <= i < Pow2(n) ensures Norm2(BackendState(t, payload)[i]) == Norm2(state[i]) {
      PhaseIsUnit(t, Stripped(ops), state[i]);
    }
  }

  // ----- when a `u` with exchanged angles is the same gate

  /** `m` with every entry multiplied by `z`. */
  predicate Multiple(m: Rows, z: C, w: Rows) {
    && Two(m) && Two(w)
    && m[0][0] == Mul(z, w[0][0]) && m[0][1] == Mul(z, w[0][1]) && m[1][0] == Mul(z, w[1][0])
       && m[1][1] == Mul(z, w[1][1])
  }

  /** The matrices differ by a global phase only. */
  ghost predicate SameUpToPhase(m: Rows, w: Rows) {
    exists z :: Norm2(z) == 1.0 && Multiple(m, z, w)
  }

  /** The exact condition on the angles. */
  ghost predicate SymmetricAngles(t: Trig, theta: real, phi: real, lam: real) {
    || t.sin(theta / 2.0) == 0.0
    || Cis(t, phi) == Cis(t, lam)
    || (t.cos(theta / 2.0) == 0.0 && Cis(t, phi) == Neg(Cis(t, lam)))
  }

  lemma URowsAre(t: Trig, theta: real, phi: real, lam: real, c: real, s: real, e: C, f: C)
    requires Exact(t) && c == t.cos(theta / 2.0) && s == t.sin(theta / 2.0) && e == Cis(t, phi) && f == Cis(t, lam)
    ensures MatrixForGate(t, U, [theta, phi, lam]) == Rows2(c, s, e, f)
  {
    URows(t, theta, phi, lam);
    CisSum(t, phi, lam);
    hide Cis, Scale, Mul, UMatrix;
  }

  lemma ZeroFactor(x: real, y: real)
    requires x * y == 0.0
    ensures x == 0.0 || y == 0.0
  {}

  lemma MultipleScaled(c: real, s: real, e: C, f: C, z: C)
    requires c != 0.0 && s != 0.0 && Real(c) == Mul(z, Real(c)) && Scale(s, e) == Mul(z, Scale(s, f))
    ensures e == f
  {
    assert Mul(z, Real(c)) == C(z.re * c, z.im * c);
    ZeroFactor(z.re - 1.0, c);
    ZeroFactor(z.im, c);
    OneTimes(Scale(s, f));
    ZeroFactor(e.re - f.re, s);
    ZeroFactor(e.im - f.im, s);
  }

  lemma SquareIsOne(s: real, e: C, f: C, z: C)
    requires s != 0.0 && Norm2(e) == 1.0 && Scale(s, e) == Mul(z, Scale(s, f)) && Scale(-s, f) == Mul(z, Scale(-s, e))
    ensures e == f || e == Neg(f)
  {
    Cancel(s, e, f, z);
    Cancel(s, f, e, z);
    assert e == Mul(z, f) && f == Mul(z, e);
    assert Mul(z, Mul(z, e)) == e;
    RootOfUnit(z, e);
    if z == ONE { OneTimes(f); } else { MinusOneTimes(f); }
  }

  lemma MinusOneTimes(f: C)
    ensures Mul(Neg(ONE), f) == Neg(f)
  {}

  lemma Cancel(s: real, e: C, f: C, z: C)
    requires s != 0.0 && (Scale(s, e) == Mul(z, Scale(s, f)) || Scale(-s, e) == Mul(z, Scale(-s, f)))
    ensures e == Mul(z, f)
  {
    hide Mul, Scale;
    MulScale(s, z, f);
    if Scale(s, e) == Mul(z, Scale(s, f)) {
      ScaleInjective(s, e, Mul(z, f));
    } else {
      MulScale(-s, z, f);
      ScaleInjective(-s, e, Mul(z, f));
    }
  }

  lemma ScaleInjective(s: real, e: C, w: C)
    requires s != 0.0 && Scale(s, e) == Scale(s, w)
    ensures e == w
  {
    FactorCancels(s, e.re, w.re);
    FactorCancels(s, e.im, w.im);
  }

  lemma FactorCancels(s: real, x: real, y: real)
    requires s != 0.0 && s * x == s * y
    ensures x == y
  {
    assert s * (x - y) == 0.0;
    ZeroFactor(s, x - y);
  }

  lemma RootOfUnit(z: C, e: C)
    requires Mul(z, Mul(z, e)) == e && Norm2(e) == 1.0
    ensures z == ONE || z == Neg(ONE)
  {
    MulAssoc(z, z, e);
    var w := Mul(z, z);
    assert Mul(w, e) == e;
    FixesUnit(w, e);
    assert 2.0 * (z.re * z.im) == 0.0 && z.re * z.re - z.im * z.im == 1.0;
    ZeroFactor(z.re, z.im);
    assert z.im * z.im >= 0.0;
    assert z.im == 0.0;
    ZeroFactor(z.re - 1.0, z.re + 1.0);
  }

  lemma FixesUnit(w: C, e: C)
    requires Mul(w, e) == e && Norm2(e) == 1.0
    ensures w == ONE
  {
    MulAssoc(w, e, Conj(e));
    assert Mul(e, Conj(e)) == ONE;
    assert Mul(w, ONE) == w;
  }

  function Rows2(c: real, s: real, e: C, f: C): Rows {
    [[Real(c), Scale(-s, f)], [Scale(s, e), Scale(c, Mul(e, f))]]
  }

  predicate Symmetric(c: real, s: real, e: C, f: C) {
    s == 0.0 || e == f || (c == 0.0 && e == Neg(f))
  }

  lemma MultipleSymmetric(c: real, s: real, e: C, f: C, z: C)
    requires Norm2(e) == 1.0 && Multiple(Rows2(c, s, e, f), z, Rows2(c, s, f, e))
    ensures Symmetric(c, s, e, f)
  {
    hide Mul, Scale, Norm2;
    if s != 0.0 {
      if c != 0.0 { MultipleScaled(c, s, e, f, z); } else { SquareIsOne(s, e, f, z); }
    }
  }

  lemma SymmetricMultiple(c: real, s: real, e: C, f: C) returns (z: C)
    requires Symmetric(c, s, e, f)
    ensures Norm2(z) == 1.0 && Multiple(Rows2(c, s, e, f), z, Rows2(c, s, f, e))
  {
    MulSymmetric(e, f);
    hide Mul, Scale, Multiple;
    if s == 0.0 || e == f {
      SameRows(c, s, e, f);
      z := ONE;
    } else {
      OppositeRows(s, e, f);
      z := Neg(ONE);
    }
  }

  /**
   * The backend's `u` is the simulator's `u` with the last two angles exchanged.  The two are the same gate up to
   * a global phase exactly under the condition on the angles.
   */
  lemma UAgreement(t: Trig, theta: real, phi: real, lam: real)
    requires Exact(t)
    ensures SameUpToPhase(MatrixForGate(t, U, [theta, phi, lam]), MatrixForGate(t, U, [theta, lam, phi])) <==>
            SymmetricAngles(t, theta, phi, lam)
  {
    hide Exact, MatrixForGate, Multiple, Norm2, Cis;
    var c, s, e, f := t.cos(theta / 2.0), t.sin(theta / 2.0), Cis(t, phi), Cis(t, lam);
    URowsAre(t, theta, phi, lam, c, s, e, f);
    URowsAre(t, theta, lam, phi, c, s, f, e);
    assert Norm2(e) == 1.0 by { CisUnit(t, phi); }
    forall z | Multiple(Rows2(c, s, e, f), z, Rows2(c, s, f, e)) ensures Symmetric(c, s, e, f) {
      MultipleSymmetric(c, s, e, f, z);
    }
    if Symmetric(c, s, e, f) {
      var z := SymmetricMultiple(c, s, e, f);
    }
  }

  /**
   * An input on which they differ: `u(pi / 2, 0, pi / 2)` is no multiple of the same gate with the angles exchanged.
   */
  lemma UDiffers(t: Trig)
    requires Exact(t)
    ensures var u := MatrixForGate(t, U, [t.pi / 2.0, 0.0, t.pi / 2.0]);
      var swapped := MatrixForGate(t, U, [t.pi / 2.0, t.pi / 2.0, 0.0]);
      !SameUpToPhase(u, swapped)
  {
    hide MatrixForGate, Multiple, Norm2;
    UAgreement(t, t.pi / 2.0, 0.0, t.pi / 2.0);
    assert !SymmetricAngles(t, t.pi / 2.0, 0.0, t.pi / 2.0) by { QuarterAngles(t); }
  }

  lemma QuarterAngles(t: Trig)
    requires Exact(t)
    ensures !SymmetricAngles(t, t.pi / 2.0, 0.0, t.pi / 2.0)
  {
    assert t.pi / 2.0 / 2.0 == t.pi / 4.0;
    RightAngle(t);
  }

  lemma SameRows(c: real, s: real, e: C, f: C)
    requires s == 0.0 || e == f
    ensures Multiple(Rows2(c, s, e, f), ONE, Rows2(c, s, f, e)) && Norm2(ONE) == 1.0
  {}

  lemma ScaleNeg(s: real, f: C)
    ensures Scale(s, Neg(f)) == Neg(Scale(s, f))
  {}

  lemma NothingNegated(z: C)
    requires z.re == 0.0 && z.im == 0.0
    ensures Neg(z) == z
  {
    assert -z.re == z.re && -z.im == z.im;
  }

  lemma ScaledToNothing(x: C)
    ensures Scale(0.0, x) == ZERO
  {}

  lemma MinusOneIsUnit()
    ensures Norm2(Neg(ONE)) == 1.0
  {}

  lemma OppositeRows(s: real, e: C, f: C)
    requires e == Neg(f)
    ensures Multiple(Rows2(0.0, s, e, f), Neg(ONE), Rows2(0.0, s, f, e)) && Norm2(Neg(ONE)) == 1.0
  {
    hide Mul, Scale, Neg, Norm2;
    NothingNegated(Real(0.0));
    NothingNegated(ZERO);
    ScaledToNothing(Mul(e, f));
    ScaledToNothing(Mul(f, e));
    MinusOneIsUnit();
    ScaleNeg(s, f);
    ScaleNeg(-s, f);
    NegTwice(Scale(-s, f));
    MinusOneTimes(Real(0.0));
    MinusOneTimes(Scale(-s, e));
    MinusOneTimes(Scale(s, f));
    MinusOneTimes(Scale(0.0, Mul(f, e)));
  }

  // ----- when the exchange of the angles shows in the probabilities

  lemma MultipleOnPair(m: Rows, z: C, w: Rows, p: Pair2)
    requires Multiple(m, z, w)
    ensures MixPair(m, p) == Pair2(Mul(z, MixPair(w, p).lo), Mul(z, MixPair(w, p).hi))
  {
    hide Mul, Plus;
    MulAssoc(z, w[0][0], p.lo);
    MulAssoc(z, w[0][1], p.hi);
    MulAssoc(z, w[1][0], p.lo);
    MulAssoc(z, w[1][1], p.hi);
    MulPlus(z, Mul(w[0][0], p.lo), Mul(w[0][1], p.hi));
    MulPlus(z, Mul(w[1][0], p.lo), Mul(w[1][1], p.hi));
  }

  lemma MultipleApplies(m: Rows, z: C, w: Rows, v: Vec, n: nat, q: nat)
    requires Multiple(m, z, w) && q < n && |v| == Pow2(n)
    ensures Apply(Kernel([], [q], m), v) == Rotated(z, Apply(Kernel([], [q], w), v))
  {
    hide Mul, Plus, Apply, Pow2, MixPair, Set, Multiple, Active;
    var x, y := Apply(Kernel([], [q], m), v), Apply(Kernel([], [q], w), v);
    assert Two(m) && Two(w) by { MultipleShape(m, z, w); }
    forall i: nat | i < |v| ensures PairAt(x, i, q) == PairAt(Rotated(z, y), i, q) {
      UncontrolledActive(i);
      ControlledOnPair(v, n, i, [], q, m);
      ControlledOnPair(v, n, i, [], q, w);
      MultipleOnPair(m, z, w, PairAt(v, i, q));
      RotatedAt(z, y, Set(i, q, false));
      RotatedAt(z, y, Set(i, q, true));
    }
    SamePairs(x, Rotated(z, y), q);
  }

  lemma MultipleShape(m: Rows, z: C, w: Rows)
    requires Multiple(m, z, w)
    ensures Two(m) && Two(w)
  {}

  /** The operation is no `u`, or one whose last two angles may be exchanged. */
  ghost predicate Exchangeable(t: Trig, op: Operation) {
    op.gate == U && |op.params| == 3 ==> SymmetricAngles(t, op.params[0], op.params[1], op.params[2])
  }

  lemma ExecutedRotates(t: Trig, op: Operation, n: nat, v: Vec) returns (z: C)
    requires Exact(t) && WellFormed(op, n) && Exchangeable(t, op) && |v| == Pow2(n)
    ensures Norm2(z) == 1.0 && Denote(t, op, v) == Rotated(z, Denote(t, Executed(op), v))
  {
    hide Exact, Pow2, Apply, MatrixForGate, Multiple, Norm2, SymmetricAngles, Rotated, Denote;
    if op.gate == U {
      var theta, phi, lam, q := op.params[0], op.params[1], op.params[2], op.targets[0];
      UAgreement(t, theta, phi, lam);
      z :| Norm2(z) == 1.0
          && Multiple(MatrixForGate(t, U, [theta, phi, lam]), z, MatrixForGate(t, U, [theta, lam, phi]));
      FirstTarget(op, n);
      MultipleApplies(MatrixForGate(t, U, [theta, phi, lam]), z, MatrixForGate(t, U, [theta, lam, phi]), v, n, q);
      UDenotes(t, op, v);
      UDenotes(t, Executed(op), v);
    } else {
      z := ONE;
      assert Norm2(ONE) == 1.0 by { NormOne(); }
      RotatedOne(Denote(t, op, v));
    }
  }

  lemma UDenotes(t: Trig, op: Operation, v: Vec)
    requires op.gate == U && Shaped(op)
    ensures Denote(t, op, v) ==
            Apply(Kernel([], [op.targets[0]], MatrixForGate(t, U, [op.params[0], op.params[1], op.params[2]])), v)
  {
    hide Apply, MatrixForGate;
    assert op.targets == [op.targets[0]] && op.params == [op.params[0], op.params[1], op.params[2]]
        && op.controls == [];
  }

  lemma {:induction false} AllRotate(t: Trig, ops: seq<Operation>, n: nat, v: Vec) returns (z: C)
    requires Exact(t) && |v| == Pow2(n) && forall op :: op in ops ==> WellFormed(op, n) && Exchangeable(t, op)
    ensures Norm2(z) == 1.0 && DenoteAll(t, ops, v) == Rotated(z, DenoteAll(t, Map(ExecutedWith(), ops), v))
  {
    hide Exact, Pow2, WellFormed, Exchangeable, Denote, Executed, Norm2, Mul, Rotated;
    if ops == [] {
      z := ONE;
      assert Norm2(ONE) == 1.0 by { NormOne(); }
      RotatedOne(v);
    } else {
      var rest, e := ops[1..], Executed(ops[0]);
      assert ops[0] in ops && forall op :: op in rest ==> op in ops;
      var x := ExecutedRotates(t, ops[0], n, v);
      var v1 := Denote(t, e, v);
      DenoteAllRotated(t, rest, x, v1);
      var y := AllRotate(t, rest, n, v1);
      RotatedTwice(x, y, DenoteAll(t, Map(ExecutedWith(), rest), v1));
      assert Map(ExecutedWith(), ops)[1..] == Map(ExecutedWith(), rest) && Map(ExecutedWith(), ops)[0] == e;
      z := Mul(x, y);
      NormMul(x, y);
    }
  }

  lemma ExchangedSorted(t: Trig, model: Circuit)
    ensures FinalState(t, Exchanged(model)) ==
            DenoteAll(t, Map(ExecutedWith(), StableSort(model.operations, ByLayer())), Ground(model.numQubits))
  {
    hide DenoteAll, StableSort, Ground;
    SortMap(model.operations, ExecutedWith(), ByLayer(), ByLayer());
  }

  /** If the angles of every `u` may be exchanged, the backend measures exactly the simulator's probabilities. */
  lemma BackendAgreesDirectly(t: Trig, model: Circuit, idLe: (string, string) -> bool)
    requires Exact(t) && TotalPreorder(idLe) && Editable(model)
    requires forall op :: op in model.operations ==> Exchangeable(t, op)
    ensures var p := BuildCircuitTaskPayload(model, idLe);
      && p.Some? && (forall k :: 0 <= k < |p.value.operations| ==> Shaped(Received(p.value.operations[k])))
      && |BackendState(t, p.value)| == Pow2(model.numQubits)
      && forall i :: 0 <= i < Pow2(model.numQubits) ==>
         Norm2(BackendState(t, p.value)[i]) == Norm2(FinalState(t, model)[i])
  {
    hide TotalPreorder, Pow2, Norm2, BuildCircuitTaskPayload, BackendState, Exact, Shaped, Received, ExecutedWith,
      Exchangeable, Exchanged, DenoteAll, StableSort, Legal, NamedUniquely, WellFormed, Mul;
    var n, ops := model.numQubits, StableSort(model.operations, ByLayer());
    BackendAgrees(t, model, idLe);
    ExchangedSorted(t, model);
    forall op | op in ops ensures op in model.operations && WellFormed(op, n) {
      InMultiset(model.operations, ops, op);
    }
    var z := AllRotate(t, ops, n, Ground(n));
    forall i | 0 <= i < Pow2(n) ensures Norm2(FinalState(t, Exchanged(model))[i]) == Norm2(FinalState(t, model)[i]) {
      NormMul(z, FinalState(t, Exchanged(model))[i]);
    }
  }

  /** A `u` with these angles, followed by a Hadamard. */
  function Probe(theta: real, phi: real, lam: real): Circuit {
    Circuit(1, [Operation("a", U, [0], [], [theta, phi, lam], 0), Operation("b", H, [0], [], [], 1)])
  }

  lemma ProbeEditable(theta: real, phi: real, lam: real)
    ensures Editable(Probe(theta, phi, lam))
  {
    hide NoRepeats, SpansApart, MeasuredLast, UniqueIds, WellFormed;
    var ops := Probe(theta, phi, lam).operations;
    ProbeShape(theta, phi, lam);
    LayersDiffer(ops);
  }

  lemma ProbeShape(theta: real, phi: real, lam: real)
    ensures var ops := Probe(theta, phi, lam).operations;
      NoRepeats(ops) && MeasuredLast(ops) && UniqueIds(ops) && WellFormed(ops[0], 1) && WellFormed(ops[1], 1)
  {
    var ops := Probe(theta, phi, lam).operations;
    assert Qubits(ops[0]) == [0] == Qubits(ops[1]) && Distinct([0]);
  }

  lemma GroundPair()
    ensures Pow2(1) == 2 && PairAt(Ground(1), 0, 0) == Pair2(ONE, ZERO)
  {
    assert Pow2(1) == 2 * Pow2(0);
  }

  /** The first amplitude after `u(pi / 2, phi, lam)` and a Hadamard. */
  lemma ProbeState(t: Trig, phi: real, lam: real)
    requires Exact(t)
    ensures var v := FinalState(t, Probe(t.pi / 2.0, phi, lam)); |v| == 2 && v[0] == Scale(0.5, Plus(ONE, Cis(t, phi)))
  {
    hide Exact, MatrixForGate, Apply, Denote, Meaning, Ground, HRows, Cis, Mul, Plus, Scale, R, Pow2, FinalState,
      DenoteAll;
    var theta, v := t.pi / 2.0, Ground(1);
    var ops := Probe(theta, phi, lam).operations;
    GroundPair();
    ProbeSorted(t, theta, phi, lam);
    var v1 := Denote(t, ops[0], v);
    var v2 := Denote(t, ops[1], v1);
    UDenotes(t, ops[0], v);
    UOnPair(t, theta, phi, lam, v, 1, 0, 0);
    HadamardMeans(t, ops[1], v1);
    HadamardOnPair(t, v1, 1, 0, 0);
    Half(t);
    assert theta / 2.0 == t.pi / 4.0;
    var p := PairAt(v1, 0, 0);
    ProbeAlgebra(R(t), Cis(t, phi), Cis(t, lam), Cis(t, phi + lam), p.lo, p.hi);
    assert PairAt(v2, 0, 0).lo == v2[0];
  }

  lemma ProbeSorted(t: Trig, theta: real, phi: real, lam: real)
    ensures var m := Probe(theta, phi, lam);
      FinalState(t, m) == Denote(t, m.operations[1], Denote(t, m.operations[0], Ground(1)))
  {
    hide Denote, Ground;
    var ops := Probe(theta, phi, lam).operations;
    SortFixed(ops, ByLayer());
    assert ops[1..] == [ops[1]] && ops[1..][1..] == [];
    assert DenoteAll(t, [ops[1]], Denote(t, ops[0], Ground(1))) ==
        DenoteAll(t, [], Denote(t, ops[1], Denote(t, ops[0], Ground(1))));
  }

  lemma HadamardMeans(t: Trig, op: Operation, v: Vec)
    requires op == Operation(op.id, H, [0], [], [], op.layer)
    ensures Denote(t, op, v) == Denote(t, Meaning(OneQubit(H, 0)), v)
  {
    hide Denote;
    assert [0][0..] == [0] && [0][..0] == [];
    SameMeaning(t, Meaning(OneQubit(H, 0)), op, v);
  }

  lemma ProbeAlgebra(r: real, e: C, f: C, g: C, lo: C, hi: C)
    requires r * r == 0.5
    requires lo == Plus(Scale(r, ONE), Mul(Scale(-r, f), ZERO))
      && hi == Plus(Mul(Scale(r, e), ONE), Mul(Scale(r, g), ZERO))
    ensures Scale(r, Plus(lo, hi)) == Scale(0.5, Plus(ONE, e))
  {
    assert lo == Scale(r, ONE) by { TimesZero(Scale(-r, f), Scale(r, ONE)); }
    assert hi == Scale(r, e) by {
      MulSymmetric(Scale(r, e), ONE);
      OneTimes(Scale(r, e));
      TimesZero(Scale(r, g), Scale(r, e));
    }
    TwiceScaled(r, ONE, e);
  }

  lemma TimesZero(a: C, b: C)
    ensures Plus(b, Mul(a, ZERO)) == b
  {}

  /**
   * A circuit on which they differ: after `u(pi / 2, 0, pi / 2)` and a Hadamard the simulator finds the first outcome
   * with probability 1, the backend with probability one half.
   */
  lemma ProbabilitiesDiffer(t: Trig, idLe: (string, string) -> bool)
    requires Exact(t) && TotalPreorder(idLe)
    ensures var model := Probe(t.pi / 2.0, 0.0, t.pi / 2.0);
      var p := BuildCircuitTaskPayload(model, idLe);
      && Editable(model) && p.Some?
         && (forall k :: 0 <= k < |p.value.operations| ==> Shaped(Received(p.value.operations[k])))
      && |FinalState(t, model)| == 2 == |BackendState(t, p.value)|
      && Norm2(FinalState(t, model)[0]) == 1.0 && Norm2(BackendState(t, p.value)[0]) == 0.5
  {
    hide TotalPreorder, Editable, Norm2, BuildCircuitTaskPayload, BackendState, Exact, Shaped, Received, FinalState,
      Pow2;
    var model := Probe(t.pi / 2.0, 0.0, t.pi / 2.0);
    ProbeEditable(t.pi / 2.0, 0.0, t.pi / 2.0);
    GroundPair();
    BackendAgrees(t, model, idLe);
    ProbeExchanged(t);
    ProbeState(t, 0.0, t.pi / 2.0);
    ProbeState(t, t.pi / 2.0, 0.0);
    ProbeWeights(t);
  }

  lemma ProbeExchanged(t: Trig)
    ensures Exchanged(Probe(t.pi / 2.0, 0.0, t.pi / 2.0)) == Probe(t.pi / 2.0, t.pi / 2.0, 0.0)
  {
    var ops := Probe(t.pi / 2.0, 0.0, t.pi / 2.0).operations;
    assert Map(ExecutedWith(), ops) == [Executed(ops[0]), Executed(ops[1])];
  }

  lemma ProbeWeights(t: Trig)
    requires Exact(t)
    ensures Norm2(Scale(0.5, Plus(ONE, Cis(t, 0.0)))) == 1.0 && Norm2(Scale(0.5, Plus(ONE, Cis(t, t.pi / 2.0)))) == 0.5
  {
    hide Exact, Norm2, Scale, Plus, Cis;
    RightAngle(t);
    WeightOf(Cis(t, 0.0), 1.0, 0.0);
    WeightOf(Cis(t, t.pi / 2.0), 0.5, 0.5);
  }

  lemma WeightOf(e: C, x: real, y: real)
    requires x == 0.5 * (1.0 + e.re) && y == 0.5 * e.im
    ensures Norm2(Scale(0.5, Plus(ONE, e))) == x * x + y * y
  {}

  lemma RightAngle(t: Trig)
    requires Exact(t)
    ensures Cis(t, 0.0) == ONE && Cis(t, t.pi / 2.0) == C(0.0, 1.0)
  {
    var quarter := t.pi / 4.0;
    assert quarter + quarter == t.pi / 2.0;
    assert SumLaw(t, quarter, quarter);
    Half(t);
  }
}
