/** The circuit read back computes the state of the circuit that was printed. */
module QasmMeaning {
  import opened Text
  import opened Bits
  import opened Trigonometry
  import opened Circuits
  import opened Kernels
  import opened Gates
  import opened Sorting
  import opened OrderIndependence
  import opened CircuitValidation
  import opened Decompositions
  import opened QasmStatements
  import opened QasmPrinter
  import opened QasmParser
  import opened QasmSteps
  import opened QasmRoundTrip
  import opened Simulation

  /** The operation whose numbers have gone through their text; `sy` is printed as a rotation by a quarter turn. */
  function Compiled(h: Numerals, pi: real, op: Operation): Operation {
    if op.gate == SY then op.(gate := RY, params := [h.rounded(pi / 2.0)]) else op.(params := Rounded(h, op.params))
  }

  function CompileWith(h: Numerals, pi: real): Operation -> Operation {
    (op: Operation) => Compiled(h, pi, op)
  }

  lemma CompiledShape(h: Numerals, pi: real, op: Operation, n: nat)
    requires WellFormed(op, n) && Distinct(Qubits(op))
    ensures var c := Compiled(h, pi, op);
      WellFormed(c, n) && Distinct(Qubits(c)) && c.id == op.id && c.layer == op.layer
  {
    hide Within, Distinct;
  }

  lemma RoundStatements(h: Numerals, pi: real, op: Operation, n: nat)
    requires WellFormed(op, n)
    ensures WellFormed(Compiled(h, pi, op), n)
    ensures RoundAll(h, Statements(pi, op)) == Statements(pi, Compiled(h, pi, op))
  {
    hide Within, Distinct;
    if op.gate in {RXX, RYY, RZZ, RZX} {
      RoundRotation(h, pi, op, n);
    } else {
      var a, b := RoundAll(h, Statements(pi, op)), Statements(pi, Compiled(h, pi, op));
      assert |a| == |b| && forall k :: 0 <= k < |a| ==> a[k] == b[k];
    }
  }

  lemma RoundRotation(h: Numerals, pi: real, op: Operation, n: nat)
    requires WellFormed(op, n) && op.gate in {RXX, RYY, RZZ, RZX}
    ensures WellFormed(Compiled(h, pi, op), n)
    ensures RoundAll(h, Statements(pi, op)) == Statements(pi, Compiled(h, pi, op))
  {
    hide Within, RoundAll, SerializeRzz;
    var a, b := op.targets[0], op.targets[1];
    var theta := op.params[0];
    assert Rounded(h, op.params) == [h.rounded(theta)];
    RoundRzz(h, theta, a, b);
    RoundAround(h, SerializeRzz(theta, a, b), SerializeRzz(h.rounded(theta), a, b), a, b);
  }

  /** The gates printed around the middle of a rotation carry no numbers. */
  lemma RoundAround(h: Numerals, rzz: seq<Stmt>, rounded: seq<Stmt>, a: nat, b: nat)
    requires RoundAll(h, rzz) == rounded
    ensures var hs, before, after := [OneQubit(H, a), OneQubit(H, b)], [OneQubit(SDG, a), OneQubit(SDG, b)],
        [OneQubit(S, a), OneQubit(S, b)];
      && RoundAll(h, hs + rzz + hs) == hs + rounded + hs
      && RoundAll(h, [OneQubit(H, b)] + rzz + [OneQubit(H, b)]) == [OneQubit(H, b)] + rounded + [OneQubit(H, b)]
      && RoundAll(h, before + hs + rzz + hs + after) == before + hs + rounded + hs + after
  {
    hide RoundAll;
    var hs := [OneQubit(H, a), OneQubit(H, b)];
    var before, after := [OneQubit(SDG, a), OneQubit(SDG, b)], [OneQubit(S, a), OneQubit(S, b)];
    RoundFree(h, hs);
    RoundFree(h, [OneQubit(H, b)]);
    RoundFree(h, before + hs);
    RoundFree(h, after);
    RoundConcat(h, hs, rzz);
    RoundConcat(h, hs + rzz, hs);
    RoundConcat(h, [OneQubit(H, b)], rzz);
    RoundConcat(h, [OneQubit(H, b)] + rzz, [OneQubit(H, b)]);
    RoundConcat(h, before + hs, rzz);
    RoundConcat(h, before + hs + rzz, hs);
    RoundConcat(h, before + hs + rzz + hs, after);
  }

  lemma RoundRzz(h: Numerals, theta: real, a: nat, b: nat)
    ensures RoundAll(h, SerializeRzz(theta, a, b)) == SerializeRzz(h.rounded(theta), a, b)
  {
    assert Rounded(h, [theta]) == [h.rounded(theta)] && Rounded(h, []) == [];
    var x, y := RoundAll(h, SerializeRzz(theta, a, b)), SerializeRzz(h.rounded(theta), a, b);
    assert |x| == |y| && x[0] == y[0] && x[1] == y[1] && x[2] == y[2];
  }

  lemma RoundFree(h: Numerals, s: seq<Stmt>)
    requires forall k :: 0 <= k < |s| ==> s[k].GateStmt? && s[k].params == []
    ensures RoundAll(h, s) == s
  {
    assert Rounded(h, []) == [];
    forall k | 0 <= k < |s| ensures RoundAll(h, s)[k] == s[k] {}
  }

  lemma RoundConcat(h: Numerals, a: seq<Stmt>, b: seq<Stmt>)
    ensures RoundAll(h, a + b) == RoundAll(h, a) + RoundAll(h, b)
  {
    hide RoundStmt;
    assert forall k :: 0 <= k < |a + b| ==> RoundAll(h, a + b)[k] == (RoundAll(h, a) + RoundAll(h, b))[k];
  }

  lemma {:induction false} RoundCircuit(h: Numerals, pi: real, ops: seq<Operation>, n: nat)
    requires Proper(ops, n)
    ensures AllStatements(pi, ops).Lines?
    ensures AllStatements(pi, Map(CompileWith(h, pi), ops)) == Lines(RoundAll(h, AllStatements(pi, ops).stmts))
    ensures Proper(Map(CompileWith(h, pi), ops), n)
  {
    hide SerializeOperation, Statements, WellFormed, Distinct, Compiled, RoundAll;
    if ops == [] {
      NothingRounded(h);
    } else {
      RoundCircuit(h, pi, ops[1..], n);
      WellFormedPrints(pi, ops[0], n);
      CompiledShape(h, pi, ops[0], n);
      RoundStatements(h, pi, ops[0], n);
      WellFormedPrints(pi, Compiled(h, pi, ops[0]), n);
      RoundConcat(h, Statements(pi, ops[0]), AllStatements(pi, ops[1..]).stmts);
      var mapped := Map(CompileWith(h, pi), ops);
      assert mapped[1..] == Map(CompileWith(h, pi), ops[1..]) && mapped == [mapped[0]] + mapped[1..];
    }
  }

  lemma NothingRounded(h: Numerals)
    ensures RoundAll(h, []) == []
  {}

  /** Running all printed statements is running all operations. */
  lemma {:induction false} RunsOperations(t: Trig, ops: seq<Operation>, n: nat, v: Vec)
    requires Exact(t) && Proper(ops, n) && |v| == Pow2(n)
    ensures AllStatements(t.pi, ops).Lines?
    ensures Execute(t, AllStatements(t.pi, ops).stmts, v) == DenoteAll(t, ops, v)
  {
    hide SerializeOperation, Statements, WellFormed, Distinct, Denote, Exact, Pow2;
    if ops != [] {
      WellFormedPrints(t.pi, ops[0], n);
      StatementsPreserve(t, ops[0], n, v);
      RunsOperations(t, ops[1..], n, Denote(t, ops[0], v));
      ExecuteConcat(t, Statements(t.pi, ops[0]), AllStatements(t.pi, ops[1..]).stmts, v);
    }
  }

  /** Running the numbered operations is running the statements they were read from. */
  lemma {:induction false} RunsNumbered(t: Trig, h: Numerals, stmts: seq<Stmt>, k: nat, v: Vec)
    ensures DenoteAll(t, Numbered(h, stmts, k), v) == Execute(t, RoundAll(h, stmts), v)
    decreases stmts
  {
    hide Denote, RoundStmt, QasmStatements.Meaning;
    if stmts != [] {
      var s := RoundStmt(h, stmts[0]);
      SameMeaning(t, ReadBack(h, stmts[0], k), QasmStatements.Meaning(s), v);
      RunsNumbered(t, h, stmts[1..], k + 1, Denote(t, QasmStatements.Meaning(s), v));
      assert Numbered(h, stmts, k)[1..] == Numbered(h, stmts[1..], k + 1);
      assert RoundAll(h, stmts)[1..] == RoundAll(h, stmts[1..]);
    }
  }

  lemma NumberedSorted(h: Numerals, stmts: seq<Stmt>)
    ensures SortedBy(Numbered(h, stmts, 1), ByLayer())
  {}

  /** Compiling keeps names, layers and qubits, hence everything the order theorem asks for. */
  lemma CompiledApart(h: Numerals, pi: real, ops: seq<Operation>)
    requires LayersApart(ops) && UniqueIds(ops) && LayerSorted(ops)
    ensures var c := Map(CompileWith(h, pi), ops); LayersApart(c) && UniqueIds(c) && LayerSorted(c)
  {
    hide LayersApart, UniqueIds, LayerSorted, Qubits;
    var c := Map(CompileWith(h, pi), ops);
    forall k | 0 <= k < |c|
      ensures c[k].id == ops[k].id && c[k].layer == ops[k].layer && Qubits(c[k]) == Qubits(ops[k])
    {
      SameQubits(h, pi, ops[k]);
    }
    Alike(ops, c);
  }

  lemma SameQubits(h: Numerals, pi: real, op: Operation)
    ensures Qubits(Compiled(h, pi, op)) == Qubits(op)
  {}

  lemma Alike(ops: seq<Operation>, c: seq<Operation>)
    requires |c| == |ops|
    requires forall k :: 0 <= k < |c| ==>
      c[k].id == ops[k].id && c[k].layer == ops[k].layer && Qubits(c[k]) == Qubits(ops[k])
    ensures UniqueIds(ops) ==> UniqueIds(c)
    ensures LayerSorted(ops) ==> LayerSorted(c)
    ensures LayersApart(ops) ==> LayersApart(c)
  {
    hide Qubits, Disjoint;
    forall a, b | LayersApart(ops) && a in c && b in c && a.id != b.id && a.layer == b.layer
      ensures Disjoint(Qubits(a), Qubits(b))
    {
      var i :| 0 <= i < |c| && c[i] == a;
      var j :| 0 <= j < |c| && c[j] == b;
      assert ops[i] in ops && ops[j] in ops;
    }
  }

  function CompiledCircuit(h: Numerals, pi: real, model: Circuit): Circuit {
    Circuit(model.numQubits, Map(CompileWith(h, pi), model.operations))
  }

  /**
   * Reading back what was printed gives a circuit with exactly the final state of the original circuit, once the
   * original's numbers have been replaced by the numbers their texts stand for.
   */
  lemma RoundTripState(t: Trig, h: Numerals, model: Circuit, idLe: (string, string) -> bool)
    requires Exact(t) && TotalPreorder(idLe) && Editable(model)
    ensures PrintedStatements(t.pi, model, idLe).Lines?
    ensures FinalState(t, Reread(h, t.pi, model, idLe)) == FinalState(t, CompiledCircuit(h, t.pi, model))
  {
    hide AllStatements, SortOperations, TotalPreorder, Proper, LayersApart, Legal, UniqueIds, LayerSorted, Exact,
      Editable, Pow2, Ground, DenoteAll, Numbered, RoundAll, CompileWith, StableSort, Execute;
    var n, f := model.numQubits, CompileWith(h, t.pi);
    var ops := SortOperations(model.operations, idLe);
    var v := Ground(n);
    Prints(t.pi, model, idLe);
    SortedEditable(model, idLe);
    var stmts := AllStatements(t.pi, ops).stmts;
    RoundCircuit(h, t.pi, ops, n);
    RunsOperations(t, Map(f, ops), n, v);
    RunsNumbered(t, h, stmts, 1, v);
    NumberedSorted(h, stmts);
    SortFixed(Numbered(h, stmts, 1), ByLayer());
    CompiledApart(h, t.pi, ops);
    CompiledSort(h, t.pi, model.operations, idLe);
    ByLayerSorts(Map(f, model.operations));
    UniquePermutation(Map(f, ops), StableSort(Map(f, model.operations), ByLayer()));
    SameState(t, Map(f, ops), StableSort(Map(f, model.operations), ByLayer()), n, v);
  }

  /** Compiling then sorting is sorting then compiling. */
  lemma CompiledSort(h: Numerals, pi: real, ops: seq<Operation>, idLe: (string, string) -> bool)
    ensures SortOperations(Map(CompileWith(h, pi), ops), idLe) == Map(CompileWith(h, pi), SortOperations(ops, idLe))
    ensures multiset(Map(CompileWith(h, pi), SortOperations(ops, idLe))) == multiset(Map(CompileWith(h, pi), ops))
    ensures StableSort(Map(CompileWith(h, pi), ops), ByLayer()) == Map(CompileWith(h, pi), StableSort(ops, ByLayer()))
  {
    SortMap(ops, CompileWith(h, pi), LayerThenId(idLe), LayerThenId(idLe));
    SortMap(ops, CompileWith(h, pi), ByLayer(), ByLayer());
  }

  // ----- when the texts stand for the numbers themselves

  /** Printing loses nothing of the numbers of this operation. */
  predicate PrintsExactly(h: Numerals, pi: real, op: Operation) {
    (forall x :: x in op.params ==> h.rounded(x) == x) && (op.gate == SY ==> h.rounded(pi / 2.0) == pi / 2.0)
  }

  lemma NothingLost(h: Numerals, params: seq<real>)
    requires forall x :: x in params ==> h.rounded(x) == x
    ensures Rounded(h, params) == params
  {
    forall k | 0 <= k < |params| ensures Rounded(h, params)[k] == params[k] {
      assert params[k] in params;
    }
  }

  lemma CompiledDenotes(t: Trig, h: Numerals, op: Operation, n: nat, v: Vec)
    requires Exact(t) && WellFormed(op, n) && PrintsExactly(h, t.pi, op)
    ensures Denote(t, Compiled(h, t.pi, op), v) == Denote(t, op, v)
  {
    hide Exact, Denote, Within;
    NothingLost(h, op.params);
    if op.gate == SY {
      QuarterTurn(t, op, v);
    }
  }

  lemma QuarterTurn(t: Trig, op: Operation, v: Vec)
    requires Exact(t) && op.gate == SY && op.params == []
    ensures Denote(t, op.(gate := RY, params := [t.pi / 2.0]), v) == Denote(t, op, v)
  {
    hide Exact, Apply, MatrixForGate;
    SyRows(t);
  }

  lemma {:induction false} CompiledRuns(t: Trig, h: Numerals, ops: seq<Operation>, n: nat, v: Vec)
    requires Exact(t) && Proper(ops, n) && forall op :: op in ops ==> PrintsExactly(h, t.pi, op)
    ensures DenoteAll(t, Map(CompileWith(h, t.pi), ops), v) == DenoteAll(t, ops, v)
  {
    hide Exact, Denote, WellFormed, Distinct, PrintsExactly, Compiled;
    if ops != [] {
      CompiledDenotes(t, h, ops[0], n, v);
      CompiledRuns(t, h, ops[1..], n, Denote(t, ops[0], v));
      assert Map(CompileWith(h, t.pi), ops)[1..] == Map(CompileWith(h, t.pi), ops[1..]);
    }
  }

  /** With exact numerals, the circuit read back computes the very state of the printed circuit. */
  lemma RoundTripExact(t: Trig, h: Numerals, model: Circuit, idLe: (string, string) -> bool)
    requires Exact(t) && TotalPreorder(idLe) && Editable(model)
    requires forall op :: op in model.operations ==> PrintsExactly(h, t.pi, op)
    ensures PrintedStatements(t.pi, model, idLe).Lines?
    ensures FinalState(t, Reread(h, t.pi, model, idLe)) == FinalState(t, model)
  {
    hide PrintsExactly, Exact, TotalPreorder, Proper, LayersApart, Legal, UniqueIds, Editable, DenoteAll, CompileWith,
      StableSort, Reread, AllStatements;
    RoundTripState(t, h, model, idLe);
    CompiledSort(h, t.pi, model.operations, idLe);
    var ops := StableSort(model.operations, ByLayer());
    forall op ensures op in ops <==> op in model.operations { InMultiset(ops, model.operations, op); }
    ProperModel(model);
    ProperPart(model.operations, ops, model.numQubits);
    CompiledRuns(t, h, ops, model.numQubits, Ground(model.numQubits));
  }

  lemma ProperModel(model: Circuit)
    requires Editable(model)
    ensures Proper(model.operations, model.numQubits)
  {
    LegalMeansApart(model.operations, model.numQubits);
  }

  lemma ProperPart(a: seq<Operation>, b: seq<Operation>, n: nat)
    requires Proper(a, n) && forall op :: op in b <==> op in a
    ensures Proper(b, n)
  {}

  // ----- gates that are printed as themselves, and printing again

  /** A gate with a statement of its own. */
  predicate Direct(g: GateName) {
    HasStatement(g) || g == M
  }

  lemma DirectReadsBack(h: Numerals, pi: real, op: Operation, n: nat, k: nat)
    requires WellFormed(op, n) && Direct(op.gate) && k >= 1
    ensures |Statements(pi, op)| == 1
    ensures ReadBack(h, Statements(pi, op)[0], k) ==
            op.(id := OperationId(k), layer := k - 1, params := Rounded(h, op.params))
  {
    hide Within, OperationId;
    var s := op.controls + op.targets;
    assert s[..|op.controls|] == op.controls && s[|op.controls|..] == op.targets;
    if op.gate == M {
      assert op.targets == [op.targets[0]] && Rounded(h, []) == [];
    }
  }

  function Renumbered(h: Numerals, ops: seq<Operation>, k: nat): (r: seq<Operation>)
    ensures |r| == |ops|
    ensures forall i :: 0 <= i < |r| ==>
      r[i] == ops[i].(id := OperationId(k + i), layer := k + i - 1, params := Rounded(h, ops[i].params))
  {
    if ops == [] then []
    else
      [ops[0].(id := OperationId(k), layer := k - 1, params := Rounded(h, ops[0].params))]
      + Renumbered(h, ops[1..], k + 1)
  }

  lemma DirectStep(h: Numerals, pi: real, ops: seq<Operation>, n: nat, k: nat)
    requires ops != [] && WellFormed(ops[0], n) && Direct(ops[0].gate) && k >= 1 && AllStatements(pi, ops[1..]).Lines?
    ensures AllStatements(pi, ops).Lines?
    ensures Numbered(h, AllStatements(pi, ops).stmts, k) ==
      [ops[0].(id := OperationId(k), layer := k - 1, params := Rounded(h, ops[0].params))]
      + Numbered(h, AllStatements(pi, ops[1..]).stmts, k + 1)
  {
    hide SerializeOperation, Statements, WellFormed, Direct, ReadBack, OperationId, Rounded, Numbered;
    WellFormedPrints(pi, ops[0], n);
    DirectReadsBack(h, pi, ops[0], n, k);
    NumberedCons(h, Statements(pi, ops[0]), AllStatements(pi, ops[1..]).stmts, k);
  }

  lemma {:induction false} DirectNumbered(h: Numerals, pi: real, ops: seq<Operation>, n: nat, k: nat)
    requires Proper(ops, n) && k >= 1 && forall op :: op in ops ==> Direct(op.gate)
    ensures AllStatements(pi, ops).Lines?
    ensures Numbered(h, AllStatements(pi, ops).stmts, k) == Renumbered(h, ops, k)
    decreases ops
  {
    hide AllStatements, WellFormed, Distinct, Direct, OperationId, Rounded, Numbered, Proper, Renumbered;
    if ops == [] {
      NumberedNothing(h, pi, k);
    } else {
      ProperTail(ops, n);
      DirectNumbered(h, pi, ops[1..], n, k + 1);
      DirectStep(h, pi, ops, n, k);
      RenumberedCons(h, ops, k);
    }
  }

  lemma ProperTail(ops: seq<Operation>, n: nat)
    requires ops != [] && Proper(ops, n)
    ensures Proper(ops[1..], n) && WellFormed(ops[0], n) && Distinct(Qubits(ops[0]))
    ensures forall op :: op in ops[1..] ==> op in ops
  {}

  lemma NumberedNothing(h: Numerals, pi: real, k: nat)
    ensures AllStatements(pi, []) == Lines([])
    ensures Numbered(h, [], k) == [] == Renumbered(h, [], k)
  {}

  lemma RenumberedCons(h: Numerals, ops: seq<Operation>, k: nat)
    requires ops != [] && k >= 1
    ensures Renumbered(h, ops, k) ==
      [ops[0].(id := OperationId(k), layer := k - 1, params := Rounded(h, ops[0].params))]
          + Renumbered(h, ops[1..], k + 1)
  {}

  lemma NumberedCons(h: Numerals, first: seq<Stmt>, rest: seq<Stmt>, k: nat)
    requires |first| == 1
    ensures Numbered(h, first + rest, k) == [ReadBack(h, first[0], k)] + Numbered(h, rest, k + 1)
  {
    hide ReadBack;
    assert (first + rest)[0] == first[0] && (first + rest)[1..] == rest;
  }

  /** A circuit of directly printed gates comes back as it was, in sorted order, one gate a layer. */
  lemma DirectRoundTrip(h: Numerals, pi: real, model: Circuit, idLe: (string, string) -> bool)
    requires TotalPreorder(idLe) && Editable(model) && forall op :: op in model.operations ==> Direct(op.gate)
    ensures PrintedStatements(pi, model, idLe).Lines?
    ensures Reread(h, pi, model, idLe).operations == Renumbered(h, SortOperations(model.operations, idLe), 1)
  {
    hide AllStatements, Editable, SortOperations, TotalPreorder, Proper, Legal, LayersApart, Direct, Numbered,
      Renumbered, UniqueIds;
    SortedEditable(model, idLe);
    DirectNumbered(h, pi, SortOperations(model.operations, idLe), model.numQubits, 1);
  }

  lemma Reprint(h: Numerals, pi: real, s: Stmt, n: nat, k: nat)
    requires GoodStmt(s, n)
    ensures SerializeOperation(pi, ReadBack(h, s, k)) == Lines([RoundStmt(h, s)])
  {
    hide Within, Distinct, OperationId, Rounded;
    match s
    case MeasureStmt(_, _) =>
    case GateStmt(g, params, operands) =>
      var c := ControlCount(g);
      assert operands[..c] + operands[c..] == operands;
      assert c == 0 ==> operands[0..] == operands && [] + operands == operands;
      assert ParamCount(g) == 0 ==> Rounded(h, params) == [];
  }

  lemma {:induction false} ReprintAll(h: Numerals, pi: real, stmts: seq<Stmt>, n: nat, k: nat)
    requires AllGood(stmts, n)
    ensures AllStatements(pi, Numbered(h, stmts, k)) == Lines(RoundAll(h, stmts))
    decreases stmts
  {
    hide SerializeOperation, GoodStmt, ReadBack, RoundStmt;
    if stmts != [] {
      Reprint(h, pi, stmts[0], n, k);
      ReprintAll(h, pi, stmts[1..], n, k + 1);
      assert Numbered(h, stmts, k)[1..] == Numbered(h, stmts[1..], k + 1);
    }
  }

  lemma SameNumbers(h: Numerals, params: seq<real>)
    requires Codec(h) && NumbersPlain(h, params)
    ensures Formatted(h, Rounded(h, params)) == Formatted(h, params)
  {
    forall k | 0 <= k < |params| ensures h.format(h.rounded(params[k])) == h.format(params[k]) {
      assert NumeralLaw(h, params[k]) && params[k] in params;
    }
  }

  lemma SameBodies(h: Numerals, stmts: seq<Stmt>)
    requires Codec(h) && AllPlain(h, stmts)
    ensures Bodies(h, RoundAll(h, stmts)) == Bodies(h, stmts)
  {
    hide Codec, NumbersPlain, Join, GateText;
    forall k | 0 <= k < |stmts| ensures Body(h, RoundStmt(h, stmts[k])) == Body(h, stmts[k]) {
      assert StmtPlain(h, stmts[k]);
      if stmts[k].GateStmt? { SameNumbers(h, stmts[k].params); }
    }
    assert forall k :: 0 <= k < |stmts| ==> Bodies(h, RoundAll(h, stmts))[k] == Bodies(h, stmts)[k];
  }

  lemma NumberedFixed(h: Numerals, stmts: seq<Stmt>, idLe: (string, string) -> bool)
    ensures SortOperations(Numbered(h, stmts, 1), idLe) == Numbered(h, stmts, 1)
  {
    SortFixed(Numbered(h, stmts, 1), LayerThenId(idLe));
  }

  /** Printing the circuit that was read back reproduces the text. */
  lemma PrintedAgain(h: Numerals, pi: real, model: Circuit, idLe: (string, string) -> bool)
    requires Codec(h) && TotalPreorder(idLe) && Editable(model)
    requires forall op :: op in model.operations ==> PrintsPlainly(h, pi, op)
    ensures PrintedStatements(pi, model, idLe).Lines?
    ensures Printed(h, pi, Reread(h, pi, model, idLe), idLe) == Printed(h, pi, model, idLe)
  {
    hide AllStatements, AllGood, MeasuresEnd, SortOperations, TotalPreorder, Proper, LayersApart, PrintsPlainly,
      AllPlain, Codec, Legal, TextOf, Preamble, Numbered, RoundAll, Bodies, UniqueIds, LayerSorted, NamedUniquely,
      AllWellFormed;
    var n := model.numQubits;
    Prints(pi, model, idLe);
    SortedEditable(model, idLe);
    var stmts := PrintedStatements(pi, model, idLe).stmts;
    CircuitPlain(h, pi, SortOperations(model.operations, idLe), n);
    NumberedFixed(h, stmts, idLe);
    ReprintAll(h, pi, stmts, n, 1);
    SameBodies(h, stmts);
  }

  /**
   * The compiler and the parser together: the text of an editable circuit is accepted exactly when it is free of
   * exponents; what is read computes the state of the circuit whose numbers are those of the text, which is the
   * original state when the texts are exact; and printing what was read gives the same text.
   */
  lemma PrintThenParse(t: Trig, h: Numerals, model: Circuit, idLe: (string, string) -> bool)
    requires Exact(t) && Codec(h) && TotalPreorder(idLe) && Editable(model)
    ensures Printed(h, t.pi, model, idLe).Some?
    ensures var r := QasmParser.Meaning(h, t.pi, Printed(h, t.pi, model, idLe).value);
      && (r.Success? <==> forall op :: op in model.operations ==> PrintsPlainly(h, t.pi, op))
      && (r.Success? ==> Editable(r.value) && FinalState(t, r.value) == FinalState(t, CompiledCircuit(h, t.pi, model)))
      && (r.Success? && (forall op :: op in model.operations ==> PrintsExactly(h, t.pi, op)) ==>
            FinalState(t, r.value) == FinalState(t, model))
      && (r.Success? ==> Printed(h, t.pi, r.value, idLe) == Printed(h, t.pi, model, idLe))
  {
    hide PrintsExactly, PrintsPlainly, Exact, Codec, TotalPreorder, Editable, FinalState, CompiledCircuit, Reread,
      Printed, PrintedStatements, QasmParser.Meaning;
    PrintedParses(h, t.pi, model, idLe);
    RoundTripState(t, h, model, idLe);
    if forall op :: op in model.operations ==> PrintsExactly(h, t.pi, op) {
      RoundTripExact(t, h, model, idLe);
    }
    if forall op :: op in model.operations ==> PrintsPlainly(h, t.pi, op) {
      PrintedAgain(h, t.pi, model, idLe);
    }
  }

  // ----- a number with an exponent

  /**
   * One rotation by a tiny angle cannot be read back where one ten-millionth is printed as the source prints it: the
   * exponent is outside the parser's character set.
   */
  lemma ExponentRejected(h: Numerals, pi: real, idLe: (string, string) -> bool)
    requires Codec(h) && h.format(0.0000001) == "1e-7" && TotalPreorder(idLe)
    ensures var model := Circuit(1, [Operation("a", RX, [0], [], [0.0000001], 0)]);
      Editable(model) && Printed(h, pi, model, idLe).Some?
      && QasmParser.Meaning(h, pi, Printed(h, pi, model, idLe).value) == Failure(QasmParser.ErrorCode.InvalidParameter)
  {
    hide Editable, Codec, TotalPreorder, Printed, QasmParser.Meaning, AllStatements, Plain;
    var op := Operation("a", RX, [0], [], [0.0000001], 0);
    var model := Circuit(1, [op]);
    TinyEditable(op);
    TinyExponent();
    assert op in model.operations && 0.0000001 in op.params && !Plain(h.format(0.0000001));
    PrintedParses(h, pi, model, idLe);
  }

  lemma TinyExponent()
    ensures !Plain("1e-7")
  {
    assert "1e-7"[1] == 'e';
  }

  /** A host that prints every number as the source prints one ten-millionth. */
  const TINY := Numerals(x => "1e-7", s => NotFinite, x => x)

  /** Such hosts exist. */
  lemma TinyCodec()
    ensures Codec(TINY) && TINY.format(0.0000001) == "1e-7"
  {
    TinyExponent();
    assert All("1e-7", NumeralChar);
  }

  lemma TinyEditable(op: Operation)
    requires op == Operation("a", RX, [0], [], op.params, 0) && |op.params| == 1
    ensures Editable(Circuit(1, [op]))
  {
    assert Qubits(op) == [0];
    assert Distinct([0]);
  }
}
