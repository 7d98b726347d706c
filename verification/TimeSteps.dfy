/** Stepping through a circuit gate by gate. */
module TimeSteps {
  import opened Bits
  import opened Trigonometry
  import opened Circuits
  import opened Kernels
  import opened Gates
  import opened Sorting
  import opened OrderIndependence
  import opened CircuitValidation
  import opened QasmRoundTrip
  import opened Simulation

  function ClampStep(step: int, totalGates: nat): (r: nat)
    ensures r <= totalGates && (0 <= step <= totalGates ==> r == step)
  {
    if step < 0 then 0 else if step > totalGates then totalGates else step
  }

  function SliceCircuit(circuit: Circuit, step: int, idLe: (string, string) -> bool): Circuit {
    var ordered := SortOperations(circuit.operations, idLe);
    Circuit(circuit.numQubits, ordered[..ClampStep(step, |ordered|)])
  }

  function Ids(ops: seq<Operation>): (r: seq<string>)
    ensures |r| == |ops| && forall k :: 0 <= k < |r| ==> r[k] == ops[k].id
  {
    if ops == [] then [] else [ops[0].id] + Ids(ops[1..])
  }

  function FutureOperationIds(circuit: Circuit, step: int, idLe: (string, string) -> bool): seq<string> {
    var ordered := SortOperations(circuit.operations, idLe);
    Ids(ordered[ClampStep(step, |ordered|)..])
  }

  function ClampOnCircuitChange(previousStep: int, previousTotal: nat, nextTotal: nat): nat {
    var safe := ClampStep(previousStep, previousTotal);
    if safe == previousTotal then nextTotal else if safe < nextTotal then safe else nextTotal
  }

  /** The executed operations are the first ones in (layer, id) order, as many as the step says. */
  lemma SliceExactly(circuit: Circuit, step: int, idLe: (string, string) -> bool)
    ensures var slice, total := SliceCircuit(circuit, step, idLe), |circuit.operations|;
      && slice.numQubits == circuit.numQubits && slice.operations <= SortOperations(circuit.operations, idLe)
      && |slice.operations| == if step < 0 then 0 else if step > total then total else step
  {
    hide SortOperations;
    SortedLength(circuit, idLe);
  }

  /** Executed and future operations partition the circuit: every name is on exactly one side. */
  lemma SlicePartition(circuit: Circuit, step: int, idLe: (string, string) -> bool)
    requires NamedUniquely(circuit.operations)
    ensures var done := Ids(SliceCircuit(circuit, step, idLe).operations);
      var later := FutureOperationIds(circuit, step, idLe);
      && done + later == Ids(SortOperations(circuit.operations, idLe))
      && (forall id :: id in done ==> id !in later)
      && (forall op :: op in circuit.operations ==> op.id in done || op.id in later)
  {
    hide SortOperations, Ids, NamedUniquely, SpansApart, NoRepeats, MeasuredLast;
    var ordered := SortOperations(circuit.operations, idLe);
    SortedKeeps(circuit.operations, idLe);
    SplitIds(ordered, ClampStep(step, |ordered|));
  }

  lemma SortedKeeps(ops: seq<Operation>, idLe: (string, string) -> bool)
    requires NamedUniquely(ops)
    ensures NamedUniquely(SortOperations(ops, idLe)) && forall op :: op in ops <==> op in SortOperations(ops, idLe)
  {
    LegalPermutation(ops, SortOperations(ops, idLe));
    forall op ensures op in ops <==> op in SortOperations(ops, idLe) { InMultiset(ops, SortOperations(ops, idLe), op); }
  }

  lemma SplitIds(ordered: seq<Operation>, k: nat)
    requires NamedUniquely(ordered) && k <= |ordered|
    ensures var done, later := Ids(ordered[..k]), Ids(ordered[k..]);
      && done + later == Ids(ordered)
      && (forall id :: id in done ==> id !in later)
      && (forall op :: op in ordered ==> op.id in done || op.id in later)
  {
    hide Ids;
    var ids := Ids(ordered);
    assert Ids(ordered[..k]) == ids[..k];
    assert Ids(ordered[k..]) == ids[k..];
    forall i, j | 0 <= i < j < |ids| ensures ids[i] != ids[j] {
      assert ordered[i].id != ordered[j].id;
    }
    Sides(ids, k);
    forall op | op in ordered ensures op.id in ids {
      var i :| 0 <= i < |ordered| && ordered[i] == op;
      assert ids[i] == op.id;
    }
  }

  lemma Sides(ids: seq<string>, k: nat)
    requires k <= |ids| && forall i, j :: 0 <= i < j < |ids| ==> ids[i] != ids[j]
    ensures ids[..k] + ids[k..] == ids
    ensures forall id :: id in ids[..k] ==> id !in ids[k..]
    ensures forall id :: id in ids ==> id in ids[..k] || id in ids[k..]
  {
    forall id | id in ids ensures id in ids[..k] || id in ids[k..] {
      assert id in ids[..k] + ids[k..];
    }
  }

  lemma PrefixEditable(ops: seq<Operation>, k: nat, n: nat)
    requires k <= |ops| && Legal(ops) && NamedUniquely(ops) && AllWellFormed(ops, n)
    ensures Legal(ops[..k]) && NamedUniquely(ops[..k]) && AllWellFormed(ops[..k], n)
  {
    hide WellFormed, Distinct, Clash;
    assert forall op :: op in ops[..k] ==> op in ops;
  }

  /** Every slice of an editable circuit is editable. */
  lemma SliceEditable(circuit: Circuit, step: int, idLe: (string, string) -> bool)
    requires TotalPreorder(idLe) && Editable(circuit)
    ensures Editable(SliceCircuit(circuit, step, idLe))
  {
    hide Legal, NamedUniquely, AllWellFormed, TotalPreorder, SortOperations;
    var ordered := SortOperations(circuit.operations, idLe);
    SortedEditable(circuit, idLe);
    SortedNamed(circuit, idLe);
    PrefixEditable(ordered, ClampStep(step, |ordered|), circuit.numQubits);
  }

  lemma {:induction false} RunsSnoc(t: Trig, ops: seq<Operation>, op: Operation, v: Vec)
    ensures DenoteAll(t, ops + [op], v) == Denote(t, op, DenoteAll(t, ops, v))
  {
    hide Denote;
    if ops == [] {
      assert [] + [op] == [op] && [op][1..] == [];
    } else {
      assert (ops + [op])[1..] == ops[1..] + [op];
      RunsSnoc(t, ops[1..], op, Denote(t, ops[0], v));
    }
  }

  lemma SliceState(t: Trig, circuit: Circuit, k: nat, idLe: (string, string) -> bool)
    requires TotalPreorder(idLe) && k <= |circuit.operations|
    ensures FinalState(t, SliceCircuit(circuit, k, idLe)) ==
            DenoteAll(t, SortOperations(circuit.operations, idLe)[..k], Ground(circuit.numQubits))
  {
    hide DenoteAll, Ground, TotalPreorder;
    var ordered := SortOperations(circuit.operations, idLe);
    SortedByLayer(circuit.operations, idLe);
    SortFixed(ordered[..k], ByLayer());
  }

  /** One step further is exactly one more gate on the state. */
  lemma NextStep(t: Trig, circuit: Circuit, k: nat, idLe: (string, string) -> bool)
    requires TotalPreorder(idLe) && k < |circuit.operations|
    ensures FinalState(t, SliceCircuit(circuit, k + 1, idLe)) ==
            Denote(t, SortOperations(circuit.operations, idLe)[k], FinalState(t, SliceCircuit(circuit, k, idLe)))
  {
    hide DenoteAll, Ground, TotalPreorder, SortOperations, FinalState, Denote, SliceCircuit;
    var ordered := SortOperations(circuit.operations, idLe);
    assert |ordered| == |circuit.operations| by { SortedLength(circuit, idLe); }
    SliceState(t, circuit, k, idLe);
    SliceState(t, circuit, k + 1, idLe);
    assert ordered[..k + 1] == ordered[..k] + [ordered[k]];
    RunsSnoc(t, ordered[..k], ordered[k], Ground(circuit.numQubits));
  }

  lemma SortedLength(circuit: Circuit, idLe: (string, string) -> bool)
    ensures |SortOperations(circuit.operations, idLe)| == |circuit.operations|
  {}

  /** The first slice is the ground state, the last one the state of the circuit. */
  lemma FirstAndLast(t: Trig, circuit: Circuit, idLe: (string, string) -> bool)
    requires TotalPreorder(idLe) && Editable(circuit)
    ensures FinalState(t, SliceCircuit(circuit, 0, idLe)) == Ground(circuit.numQubits)
    ensures FinalState(t, SliceCircuit(circuit, |circuit.operations|, idLe)) == FinalState(t, circuit)
  {
    hide TotalPreorder, SortOperations, Proper, LayersApart, Legal, UniqueIds, LayerSorted, Pow2, StableSort,
      MeasuredLast, NamedUniquely, AllWellFormed, Ground, SliceCircuit;
    var n, ops := circuit.numQubits, SortOperations(circuit.operations, idLe);
    SliceState(t, circuit, 0, idLe);
    SliceState(t, circuit, |circuit.operations|, idLe);
    assert |ops| == |circuit.operations| by { SortedLength(circuit, idLe); }
    assert ops[..0] == [] && ops[..|ops|] == ops;
    SortedEditable(circuit, idLe);
    ByLayerSorts(circuit.operations);
    UniquePermutation(ops, StableSort(circuit.operations, ByLayer()));
    SameState(t, ops, StableSort(circuit.operations, ByLayer()), n, Ground(n));
  }

  /** After an edit the step stays in range, at the end if it was at or beyond the end, and where it was if it can. */
  lemma ClampLaws(step: int, total: nat, next: nat)
    ensures ClampOnCircuitChange(step, total, next) <= next
    ensures step >= total ==> ClampOnCircuitChange(step, total, next) == next
    ensures step < total && 0 <= step <= next ==> ClampOnCircuitChange(step, total, next) == step
    ensures step < total && step > next ==> ClampOnCircuitChange(step, total, next) == next
    ensures step < 0 ==> ClampOnCircuitChange(step, total, next) == if total == 0 then next else 0
    ensures ClampOnCircuitChange(ClampOnCircuitChange(step, total, next), next, next) ==
            ClampOnCircuitChange(step, total, next)
  {}
}
