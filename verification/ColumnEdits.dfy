/** Inserting and deleting columns, and changing the number of qubits. */
module ColumnEdits {
  import opened Options
  import opened Text
  import opened Bits
  import opened Trigonometry
  import opened Circuits
  import opened Kernels
  import opened Gates
  import opened Sorting
  import opened OrderIndependence
  import opened CircuitValidation
  import opened Decompositions
  import opened QasmRoundTrip
  import opened Simulation

  // ----- normal form

  /** An operation without a name is named after its position. */
  function Named(ops: seq<Operation>, from: nat): (r: seq<Operation>)
    ensures |r| == |ops|
    ensures forall k :: 0 <= k < |r| ==>
      r[k] == ops[k].(id := if ops[k].id == "" then "op-" + NatText(from + k) else ops[k].id)
  {
    if ops == [] then []
    else [ops[0].(id := if ops[0].id == "" then "op-" + NatText(from) else ops[0].id)] + Named(ops[1..], from + 1)
  }

  function NormalizeCircuit(model: Circuit, idLe: (string, string) -> bool): Circuit {
    Circuit(model.numQubits, SortOperations(Named(model.operations, 0), idLe))
  }

  lemma NamesStay(ops: seq<Operation>, from: nat)
    requires forall op :: op in ops ==> op.id != ""
    ensures Named(ops, from) == ops
  {
    forall k | 0 <= k < |ops| ensures Named(ops, from)[k] == ops[k] { assert ops[k] in ops; }
  }

  lemma NamedHaveNames(ops: seq<Operation>)
    ensures forall op :: op in Named(ops, 0) ==> op.id != ""
  {}

  lemma SortedNames(ops: seq<Operation>, idLe: (string, string) -> bool)
    ensures forall op :: op in SortOperations(Named(ops, 0), idLe) ==> op.id != ""
  {
    var named := Named(ops, 0);
    NamedHaveNames(ops);
    forall op | op in SortOperations(named, idLe) ensures op.id != "" {
      InMultiset(SortOperations(named, idLe), named, op);
    }
  }

  lemma SortTwice(ops: seq<Operation>, idLe: (string, string) -> bool)
    requires TotalPreorder(idLe)
    ensures SortOperations(SortOperations(ops, idLe), idLe) == SortOperations(ops, idLe)
  {
    LayerThenIdOrders(idLe);
    SortSorts(ops, LayerThenId(idLe));
    SortFixed(SortOperations(ops, idLe), LayerThenId(idLe));
  }

  /** Normalising what is normal changes nothing. */
  lemma NormalizeIdempotent(model: Circuit, idLe: (string, string) -> bool)
    requires TotalPreorder(idLe)
    ensures NormalizeCircuit(NormalizeCircuit(model, idLe), idLe) == NormalizeCircuit(model, idLe)
  {
    var ops := SortOperations(Named(model.operations, 0), idLe);
    SortedNames(model.operations, idLe);
    NamesStay(ops, 0);
    SortTwice(Named(model.operations, 0), idLe);
  }

  // ----- column edits

  function Resolved(x: real): nat { if x < 1.0 then 0 else x.Floor }

  function Shift(at: int, delta: int): Operation -> Operation {
    (op: Operation) => op.(layer := if op.layer >= at then op.layer + delta else op.layer)
  }

  function Unshift(at: int, n: nat): Operation -> Operation { Shift(at, -(n as int)) }

  function InsertColumnsBefore(model: Circuit, beforeLayer: real, count: real, idLe: (string, string) -> bool): Circuit
  {
    var before, n := Resolved(beforeLayer), Resolved(count);
    if n == 0 then NormalizeCircuit(model, idLe)
    else NormalizeCircuit(Circuit(model.numQubits, Map(Shift(before, n), model.operations)), idLe)
  }

  datatype DeleteResult = Deleted(model: Circuit) | InvalidRange | Blocked(layer: int, operationId: string)

  /** The first operation in one of the columns `lo .. hi`. */
  function FindIn(ops: seq<Operation>, lo: int, hi: int): (r: Option<Operation>)
    ensures r.None? <==> forall op :: op in ops ==> !(lo <= op.layer < hi)
    ensures r.Some? ==> r.value in ops && lo <= r.value.layer < hi
  {
    if ops == [] then Option.None
    else
      assert ops == [ops[0]] + ops[1..];
      if lo <= ops[0].layer < hi then Option.Some(ops[0]) else FindIn(ops[1..], lo, hi)
  }

  function DeleteEmptyColumnsBefore(model: Circuit, beforeLayer: real, count: real,
                                    idLe: (string, string) -> bool): DeleteResult
  {
    var before, n := Resolved(beforeLayer), Resolved(count);
    if n == 0 then Deleted(NormalizeCircuit(model, idLe))
    else if before - n < 0 then InvalidRange
    else
      match FindIn(model.operations, before - n, before)
      case Some(op) => Blocked(op.layer, op.id)
      case None => Deleted(NormalizeCircuit(Circuit(model.numQubits, Map(Unshift(before, n), model.operations)), idLe))
  }

  /** The columns exist and are empty. */
  predicate Deletable(ops: seq<Operation>, before: nat, n: nat) {
    n == 0 || (n <= before && forall op :: op in ops ==> !(before - n <= op.layer < before))
  }

  /** Deleting succeeds exactly when the columns exist and are empty; otherwise an operation in them is named. */
  lemma DeleteSucceeds(model: Circuit, beforeLayer: real, count: real, idLe: (string, string) -> bool)
    ensures var r := DeleteEmptyColumnsBefore(model, beforeLayer, count, idLe);
      && (r.Deleted? <==> Deletable(model.operations, Resolved(beforeLayer), Resolved(count)))
      && (r.InvalidRange? <==> Resolved(count) > Resolved(beforeLayer))
      && (r.Blocked? ==> Resolved(beforeLayer) - Resolved(count) <= r.layer < Resolved(beforeLayer)
                         && exists op :: op in model.operations && op.layer == r.layer && op.id == r.operationId)
  {}

  // ----- the edits in plain terms

  /** The normal form has the same operations, under their names or numbers, in (layer, id) order. */
  lemma NormalizeExactly(model: Circuit, idLe: (string, string) -> bool)
    requires TotalPreorder(idLe)
    ensures var ops, r := model.operations, NormalizeCircuit(model, idLe);
      && r.numQubits == model.numQubits
      && multiset(r.operations) ==
         multiset(seq(|ops|, (k: nat) requires k < |ops| =>
                        ops[k].(id := if ops[k].id == "" then "op-" + NatText(k) else ops[k].id)))
      && forall i, j :: 0 <= i < j < |r.operations| ==>
        var a, b := r.operations[i], r.operations[j];
        a.layer < b.layer || (a.layer == b.layer && idLe(a.id, b.id))
  {
    hide NatText, TotalPreorder;
    var ops := model.operations;
    LayerThenIdOrders(idLe);
    SortSorts(Named(ops, 0), LayerThenId(idLe));
    assert Named(ops, 0) == seq(|ops|, (k: nat) requires k < |ops| =>
                                  ops[k].(id := if ops[k].id == "" then "op-" + NatText(k) else ops[k].id));
  }

  /** The operations with those at or behind a column moved. */
  function Moved(ops: seq<Operation>, from: int, delta: int): seq<Operation> {
    seq(|ops|, (k: nat) requires k < |ops| =>
      ops[k].(layer := if ops[k].layer >= from then ops[k].layer + delta else ops[k].layer))
  }

  lemma ShiftMoves(ops: seq<Operation>, from: int, delta: int)
    ensures Map(Shift(from, delta), ops) == Moved(ops, from, delta)
  {}

  /** Insertion moves what lies at or behind the column; both numbers are cut off towards zero, and never negative. */
  lemma InsertExactly(model: Circuit, beforeLayer: real, count: real, idLe: (string, string) -> bool)
    ensures var before := if beforeLayer < 0.0 then 0 else beforeLayer.Floor;
      var n := if count < 0.0 then 0 else count.Floor;
      InsertColumnsBefore(model, beforeLayer, count, idLe) ==
          NormalizeCircuit(Circuit(model.numQubits, Moved(model.operations, before, n)), idLe)
  {
    hide NormalizeCircuit, Map;
    ShiftMoves(model.operations, Resolved(beforeLayer), Resolved(count));
    ShiftNothing(model.operations, Resolved(beforeLayer));
  }

  /** This is the first operation in the columns `lo .. hi`. */
  predicate FirstBetween(ops: seq<Operation>, j: nat, lo: int, hi: int) {
    j < |ops| && lo <= ops[j].layer < hi && forall i :: 0 <= i < j ==> !(lo <= ops[i].layer < hi)
  }

  lemma {:induction false} FirstIn(ops: seq<Operation>, lo: int, hi: int) returns (j: nat)
    requires FindIn(ops, lo, hi).Some?
    ensures FirstBetween(ops, j, lo, hi) && FindIn(ops, lo, hi).value == ops[j]
  {
    if lo <= ops[0].layer < hi {
      j := 0;
    } else {
      j := FirstIn(ops[1..], lo, hi);
      assert forall i :: 0 < i <= j + 1 ==> ops[i] == ops[1..][i - 1];
      j := j + 1;
    }
  }

  /** Deletion moves what lies behind the columns back. */
  lemma DeleteExactly(model: Circuit, beforeLayer: real, count: real, idLe: (string, string) -> bool)
    requires DeleteEmptyColumnsBefore(model, beforeLayer, count, idLe).Deleted?
    ensures var before := if beforeLayer < 0.0 then 0 else beforeLayer.Floor;
      var n := if count < 0.0 then 0 else count.Floor;
      DeleteEmptyColumnsBefore(model, beforeLayer, count, idLe) ==
          Deleted(NormalizeCircuit(Circuit(model.numQubits, Moved(model.operations, before, -n)), idLe))
  {
    hide NormalizeCircuit, Map, Moved, Shift;
    ShiftMoves(model.operations, Resolved(beforeLayer), -(Resolved(count) as int));
    ShiftNothing(model.operations, Resolved(beforeLayer));
  }

  /** Without the columns it fails; with an operation in them it names the first one. */
  lemma DeleteFails(model: Circuit, beforeLayer: real, count: real, idLe: (string, string) -> bool) returns (j: nat)
    requires !DeleteEmptyColumnsBefore(model, beforeLayer, count, idLe).Deleted?
    ensures var before := if beforeLayer < 0.0 then 0 else beforeLayer.Floor;
      var n := if count < 0.0 then 0 else count.Floor;
      var r := DeleteEmptyColumnsBefore(model, beforeLayer, count, idLe);
      if n > before then r == InvalidRange
      else
        FirstBetween(model.operations, j, before - n, before)
        && r == Blocked(model.operations[j].layer, model.operations[j].id)
  {
    hide NormalizeCircuit, Map, Moved, Shift;
    var before, n := Resolved(beforeLayer), Resolved(count);
    j := 0;
    if n <= before {
      j := FirstIn(model.operations, before - n, before);
    }
  }

  // ----- relayering in general

  /** `f` changes layers only, and keeps their order on these operations. */
  ghost predicate Relayers(f: Operation -> Operation, ops: seq<Operation>) {
    && (forall op :: op in ops ==> f(op) == op.(layer := f(op).layer))
    && (forall x, y :: x in ops && y in ops ==> (x.layer < y.layer <==> f(x).layer < f(y).layer))
  }

  lemma ShiftRelayers(ops: seq<Operation>, at: int, delta: nat)
    ensures Relayers(Shift(at, delta), ops)
  {}

  lemma ShiftBackRelayers(ops: seq<Operation>, before: nat, n: nat)
    requires Deletable(ops, before, n)
    ensures Relayers(Unshift(before, n), ops)
  {}

  function Renamed(op: Operation, id: string): Operation { op.(id := id) }

  /** `f` neither reads nor writes names. */
  ghost predicate KeepsNames(f: Operation -> Operation) {
    forall op, id :: f(Renamed(op, id)) == Renamed(f(op), id)
  }

  /** Relayering commutes with naming and with sorting. */
  lemma RelayerNormal(ops: seq<Operation>, f: Operation -> Operation, idLe: (string, string) -> bool)
    requires KeepsNames(f) && Relayers(f, Named(ops, 0))
    ensures SortOperations(Named(Map(f, ops), 0), idLe) == Map(f, SortOperations(Named(ops, 0), idLe))
  {
    hide KeepsNames, Named, NatText, Relayers, Map, LayerThenId;
    var named := Named(ops, 0);
    forall k | 0 <= k < |ops| ensures Named(Map(f, ops), 0)[k] == Map(f, named)[k] {
      RelayerName(ops, f, k);
    }
    assert Named(Map(f, ops), 0) == Map(f, named);
    RelayerOrder(named, f, idLe);
    SortMap(named, f, LayerThenId(idLe), LayerThenId(idLe));
  }

  lemma RelayerName(ops: seq<Operation>, f: Operation -> Operation, k: nat)
    requires k < |ops| && KeepsNames(f) && Relayers(f, Named(ops, 0))
    ensures Named(Map(f, ops), 0)[k] == Map(f, Named(ops, 0))[k]
  {
    hide KeepsNames, Named, NatText, Relayers, Map;
    var named := Named(ops, 0);
    assert Map(f, ops)[k] == f(ops[k]) && Map(f, named)[k] == f(named[k]);
    RelayersOne(named, f, k);
    RelayerOne(f, ops[k], named[k].id, "op-" + NatText(0 + k));
  }

  lemma RelayerOne(f: Operation -> Operation, op: Operation, name: string, default: string)
    requires KeepsNames(f) && name == (if op.id == "" then default else op.id) && f(Renamed(op, name)).id == name
    ensures f(op).(id := if f(op).id == "" then default else f(op).id) == f(Renamed(op, name))
  {
    assert op == Renamed(Renamed(op, name), op.id);
    assert f(op) == Renamed(f(Renamed(op, name)), op.id);
  }

  lemma RelayerOrder(ops: seq<Operation>, f: Operation -> Operation, idLe: (string, string) -> bool)
    requires Relayers(f, ops)
    ensures forall x, y :: x in ops && y in ops ==> (LayerThenId(idLe)(x, y) <==> LayerThenId(idLe)(f(x), f(y)))
  {
    forall x, y | x in ops && y in ops ensures LayerThenId(idLe)(x, y) <==> LayerThenId(idLe)(f(x), f(y)) {
      assert f(x).id == x.id && f(y).id == y.id;
      assert x.layer < y.layer <==> f(x).layer < f(y).layer;
      assert y.layer < x.layer <==> f(y).layer < f(x).layer;
    }
  }

  lemma ShiftKeepsNames(at: int, delta: int)
    ensures KeepsNames(Shift(at, delta))
  {}

  lemma ShiftBack(ops: seq<Operation>, at: nat, n: nat)
    ensures Map(Unshift(at + n, n), Map(Shift(at, n), ops)) == ops
    ensures Deletable(Map(Shift(at, n), ops), at + n, n)
  {
    forall k | 0 <= k < |ops| ensures Map(Unshift(at + n, n), Map(Shift(at, n), ops))[k] == ops[k] {}
  }

  lemma ShiftForth(ops: seq<Operation>, before: nat, n: nat)
    requires Deletable(ops, before, n) && n <= before
    ensures Map(Shift(before - n, n), Map(Unshift(before, n), ops)) == ops
  {
    forall k | 0 <= k < |ops| ensures Map(Shift(before - n, n), Map(Unshift(before, n), ops))[k] == ops[k] {
      assert ops[k] in ops;
    }
  }

  lemma NamedLayers(ops: seq<Operation>, before: nat, n: nat)
    requires Deletable(ops, before, n)
    ensures Deletable(Named(ops, 0), before, n)
  {
    forall op | op in Named(ops, 0) ensures n == 0 || !(before - n <= op.layer < before) {
      var k :| 0 <= k < |ops| && Named(ops, 0)[k] == op;
      assert ops[k] in ops;
    }
  }

  lemma SortedLayers(ops: seq<Operation>, before: nat, n: nat, idLe: (string, string) -> bool)
    requires Deletable(ops, before, n)
    ensures Deletable(SortOperations(ops, idLe), before, n)
  {
    forall op ensures op in SortOperations(ops, idLe) <==> op in ops { InMultiset(SortOperations(ops, idLe), ops, op); }
  }

  lemma ShiftNothing(ops: seq<Operation>, at: nat)
    ensures Map(Shift(at, 0), ops) == ops && Map(Unshift(at, 0), ops) == ops
  {
    forall k | 0 <= k < |ops| ensures Map(Shift(at, 0), ops)[k] == ops[k] == Map(Unshift(at, 0), ops)[k] {}
  }

  /** An inserted circuit is the normal form with its layers moved. */
  lemma InsertNormal(model: Circuit, beforeLayer: real, count: real, idLe: (string, string) -> bool)
    ensures InsertColumnsBefore(model, beforeLayer, count, idLe) ==
      Circuit(model.numQubits,
              Map(Shift(Resolved(beforeLayer), Resolved(count)), NormalizeCircuit(model, idLe).operations))
  {
    hide SortOperations, Named, Relayers, KeepsNames, Map, Resolved;
    var at, n := Resolved(beforeLayer), Resolved(count);
    if n == 0 {
      ShiftNothing(NormalizeCircuit(model, idLe).operations, at);
    } else {
      ShiftKeepsNames(at, n);
      ShiftRelayers(Named(model.operations, 0), at, n);
      RelayerNormal(model.operations, Shift(at, n), idLe);
    }
  }

  lemma DeleteNormal(model: Circuit, beforeLayer: real, count: real, idLe: (string, string) -> bool)
    requires DeleteEmptyColumnsBefore(model, beforeLayer, count, idLe).Deleted?
    ensures DeleteEmptyColumnsBefore(model, beforeLayer, count, idLe).model ==
      Circuit(model.numQubits,
              Map(Unshift(Resolved(beforeLayer), Resolved(count)), NormalizeCircuit(model, idLe).operations))
  {
    hide SortOperations, Named, Relayers, KeepsNames, Map, Resolved, Deletable;
    var before, n := Resolved(beforeLayer), Resolved(count);
    DeleteSucceeds(model, beforeLayer, count, idLe);
    if n == 0 {
      ShiftNothing(NormalizeCircuit(model, idLe).operations, before);
    } else {
      ShiftKeepsNames(before, -(n as int));
      NamedLayers(model.operations, before, n);
      ShiftBackRelayers(Named(model.operations, 0), before, n);
      RelayerNormal(model.operations, Unshift(before, n), idLe);
    }
  }

  /** Inserting columns and deleting them again restores the normal form. */
  lemma InsertThenDelete(model: Circuit, beforeLayer: real, count: real, idLe: (string, string) -> bool)
    requires TotalPreorder(idLe)
    ensures DeleteEmptyColumnsBefore(InsertColumnsBefore(model, beforeLayer, count, idLe),
              (Resolved(beforeLayer) + Resolved(count)) as real, count, idLe) == Deleted(NormalizeCircuit(model, idLe))
  {
    hide NormalizeCircuit, TotalPreorder, Deletable, Map;
    var at, n := Resolved(beforeLayer), Resolved(count);
    var normal := NormalizeCircuit(model, idLe);
    var inserted := InsertColumnsBefore(model, beforeLayer, count, idLe);
    assert Resolved((at + n) as real) == at + n by { ResolvedNat(at + n); }
    InsertNormal(model, beforeLayer, count, idLe);
    InsertNormalized(model, beforeLayer, count, idLe);
    ShiftBack(normal.operations, at, n);
    DeleteSucceeds(inserted, (at + n) as real, count, idLe);
    DeleteNormal(inserted, (at + n) as real, count, idLe);
    NormalQubits(model, idLe);
  }

  lemma NormalQubits(model: Circuit, idLe: (string, string) -> bool)
    ensures NormalizeCircuit(model, idLe) == Circuit(model.numQubits, NormalizeCircuit(model, idLe).operations)
  {}

  lemma ResolvedNat(k: nat)
    ensures Resolved(k as real) == k
  {}

  /** The result of an edit is in normal form. */
  lemma InsertNormalized(model: Circuit, beforeLayer: real, count: real, idLe: (string, string) -> bool)
    requires TotalPreorder(idLe)
    ensures NormalizeCircuit(InsertColumnsBefore(model, beforeLayer, count, idLe), idLe) ==
            InsertColumnsBefore(model, beforeLayer, count, idLe)
  {
    hide NormalizeCircuit, TotalPreorder;
    NormalizeIdempotent(model, idLe);
    NormalizeIdempotent(Circuit(model.numQubits, Map(Shift(Resolved(beforeLayer), Resolved(count)), model.operations)),
                        idLe);
  }

  lemma DeleteNormalized(model: Circuit, beforeLayer: real, count: real, idLe: (string, string) -> bool)
    requires TotalPreorder(idLe) && DeleteEmptyColumnsBefore(model, beforeLayer, count, idLe).Deleted?
    ensures var d := DeleteEmptyColumnsBefore(model, beforeLayer, count, idLe).model; NormalizeCircuit(d, idLe) == d
  {
    hide NormalizeCircuit, TotalPreorder;
    NormalizeIdempotent(model, idLe);
    NormalizeIdempotent(Circuit(model.numQubits,
                                Map(Unshift(Resolved(beforeLayer), Resolved(count)), model.operations)), idLe);
  }

  lemma DeletableRange(ops: seq<Operation>, before: nat, n: nat)
    requires Deletable(ops, before, n)
    ensures n <= before
  {}

  /** Deleting empty columns and inserting them again restores the normal form. */
  lemma DeleteThenInsert(model: Circuit, beforeLayer: real, count: real, idLe: (string, string) -> bool)
    requires TotalPreorder(idLe) && DeleteEmptyColumnsBefore(model, beforeLayer, count, idLe).Deleted?
    ensures InsertColumnsBefore(DeleteEmptyColumnsBefore(model, beforeLayer, count, idLe).model,
              (Resolved(beforeLayer) - Resolved(count)) as real, count, idLe) == NormalizeCircuit(model, idLe)
  {
    hide TotalPreorder, Deletable, Map, SortOperations, Named;
    var before, n := Resolved(beforeLayer), Resolved(count);
    var normal := NormalizeCircuit(model, idLe);
    var deleted := DeleteEmptyColumnsBefore(model, beforeLayer, count, idLe).model;
    DeleteSucceeds(model, beforeLayer, count, idLe);
    DeletableRange(model.operations, before, n);
    assert Resolved((before - n) as real) == before - n by { ResolvedNat(before - n); }
    DeleteNormal(model, beforeLayer, count, idLe);
    DeleteNormalized(model, beforeLayer, count, idLe);
    NamedLayers(model.operations, before, n);
    SortedLayers(Named(model.operations, 0), before, n, idLe);
    ShiftForth(normal.operations, before, n);
    InsertNormal(deleted, (before - n) as real, count, idLe);
  }

  // ----- what relayering preserves

  lemma RelayerValid(ops: seq<Operation>, f: Operation -> Operation, n: nat)
    requires Relayers(f, ops)
    ensures NamedUniquely(Map(f, ops)) <==> NamedUniquely(ops)
    ensures Legal(Map(f, ops)) <==> Legal(ops)
    ensures AllWellFormed(Map(f, ops), n) <==> AllWellFormed(ops, n)
  {
    hide Relayers, NamedUniquely, NoRepeats, SpansApart, MeasuredLast, AllWellFormed;
    RelayerPointwise(ops, f);
    var c := Map(f, ops);
    AlikeNames(ops, c);
    AlikeNames(c, ops);
    AlikeShapes(ops, c, n);
    AlikeShapes(c, ops, n);
    AlikeSpans(ops, c);
    AlikeSpans(c, ops);
    AlikeMeasures(ops, c);
    AlikeMeasures(c, ops);
  }

  /** Two lists that differ in their layers only, and order them alike. */
  predicate Alike(a: seq<Operation>, b: seq<Operation>) {
    && |a| == |b|
    && (forall k :: 0 <= k < |a| ==> b[k] == a[k].(layer := b[k].layer))
    && (forall i, j :: 0 <= i < |a| && 0 <= j < |a| ==> (a[i].layer < a[j].layer <==> b[i].layer < b[j].layer))
  }

  lemma RelayerPointwise(ops: seq<Operation>, f: Operation -> Operation)
    requires Relayers(f, ops)
    ensures Alike(ops, Map(f, ops)) && Alike(Map(f, ops), ops)
  {
    hide Map, Relayers;
    var c := Map(f, ops);
    forall k | 0 <= k < |ops| ensures c[k] == ops[k].(layer := c[k].layer) && ops[k] == c[k].(layer := ops[k].layer) {
      RelayersOne(ops, f, k);
    }
    forall i, j | 0 <= i < |ops| && 0 <= j < |ops| ensures ops[i].layer < ops[j].layer <==> c[i].layer < c[j].layer {
      RelayersTwo(ops, f, i, j);
    }
  }

  lemma RelayersOne(ops: seq<Operation>, f: Operation -> Operation, k: nat)
    requires Relayers(f, ops) && k < |ops|
    ensures f(ops[k]) == ops[k].(layer := f(ops[k]).layer)
  {
    assert ops[k] in ops;
  }

  lemma RelayersTwo(ops: seq<Operation>, f: Operation -> Operation, i: nat, j: nat)
    requires Relayers(f, ops) && i < |ops| && j < |ops|
    ensures ops[i].layer < ops[j].layer <==> f(ops[i]).layer < f(ops[j]).layer
  {
    assert ops[i] in ops && ops[j] in ops;
  }

  lemma AlikeNames(a: seq<Operation>, b: seq<Operation>)
    requires Alike(a, b)
    ensures NamedUniquely(a) ==> NamedUniquely(b)
  {
    forall op | NamedUniquely(a) && op in b ensures op.id != "" {
      var k :| 0 <= k < |b| && b[k] == op;
      assert a[k] in a;
    }
  }

  lemma AlikeShapes(a: seq<Operation>, b: seq<Operation>, n: nat)
    requires Alike(a, b)
    ensures NoRepeats(a) ==> NoRepeats(b)
    ensures AllWellFormed(a, n) ==> AllWellFormed(b, n)
  {
    hide Distinct, Within;
    forall op | NoRepeats(a) && op in b ensures Distinct(Qubits(op)) {
      var k :| 0 <= k < |b| && b[k] == op;
      assert a[k] in a && Qubits(op) == Qubits(a[k]);
    }
    forall k | AllWellFormed(a, n) && 0 <= k < |b| ensures WellFormed(b[k], n) {
      assert WellFormed(a[k], n) && Qubits(b[k]) == Qubits(a[k]);
    }
  }

  lemma AlikeSpans(a: seq<Operation>, b: seq<Operation>)
    requires Alike(a, b)
    ensures SpansApart(a) ==> SpansApart(b)
  {
    forall i, j | SpansApart(a) && 0 <= i < j < |b| ensures !Clash(b[i], b[j]) {
      assert !Clash(a[i], a[j]);
      SameSpans(a[i], b[i]);
      SameSpans(a[j], b[j]);
    }
  }

  lemma SameSpans(a: Operation, b: Operation)
    requires b == a.(layer := b.layer)
    ensures forall q: nat :: Spans(a, q) <==> Spans(b, q)
  {
    assert Qubits(a) == Qubits(b);
  }

  lemma AlikeMeasures(a: seq<Operation>, b: seq<Operation>)
    requires Alike(a, b)
    ensures MeasuredLast(a) ==> MeasuredLast(b)
  {
    forall g, m | MeasuredLast(a) && g in b && m in b && g.gate != M && m.gate == M ensures g.layer < m.layer {
      var i :| 0 <= i < |b| && b[i] == g;
      var j :| 0 <= j < |b| && b[j] == m;
      assert a[i] in a && a[j] in a;
    }
  }

  lemma {:induction false} RelayerRuns(t: Trig, a: seq<Operation>, b: seq<Operation>, v: Vec)
    requires |a| == |b| && forall k :: 0 <= k < |a| ==> b[k] == a[k].(layer := b[k].layer)
    ensures DenoteAll(t, b, v) == DenoteAll(t, a, v)
  {
    hide Denote;
    if a != [] {
      SameMeaning(t, b[0], a[0], v);
      RelayerRuns(t, a[1..], b[1..], Denote(t, a[0], v));
    }
  }

  lemma EditableNormal(model: Circuit, idLe: (string, string) -> bool)
    requires Editable(model)
    ensures NormalizeCircuit(model, idLe) == Circuit(model.numQubits, SortOperations(model.operations, idLe))
  {
    NamesStay(model.operations, 0);
  }

  /** Moving the layers of a sorted editable circuit keeps it editable and keeps its state. */
  lemma RelayerKeeps(t: Trig, model: Circuit, f: Operation -> Operation, idLe: (string, string) -> bool)
    requires TotalPreorder(idLe) && Editable(model) && Relayers(f, SortOperations(model.operations, idLe))
    ensures var next := Circuit(model.numQubits, Map(f, SortOperations(model.operations, idLe)));
      Editable(next) && FinalState(t, next) == FinalState(t, model)
  {
    hide SortOperations, TotalPreorder, Proper, LayersApart, Legal, UniqueIds, LayerSorted, Pow2, Ground, DenoteAll,
      StableSort, Relayers, MeasuredLast, NamedUniquely, AllWellFormed, Alike;
    var n, ops := model.numQubits, SortOperations(model.operations, idLe);
    var moved := Map(f, ops);
    SortedEditable(model, idLe);
    SortedNamed(model, idLe);
    RelayerValid(ops, f, n);
    RelayerPointwise(ops, f);
    MovedRuns(t, ops, moved, Ground(n));
    MovedSorted(ops, moved);
    ByLayerSorts(model.operations);
    UniquePermutation(ops, StableSort(model.operations, ByLayer()));
    SameState(t, ops, StableSort(model.operations, ByLayer()), n, Ground(n));
  }

  lemma MovedRuns(t: Trig, a: seq<Operation>, b: seq<Operation>, v: Vec)
    requires Alike(a, b)
    ensures DenoteAll(t, b, v) == DenoteAll(t, a, v)
  {
    RelayerRuns(t, a, b, v);
  }

  lemma MovedSorted(a: seq<Operation>, b: seq<Operation>)
    requires Alike(a, b) && LayerSorted(a)
    ensures StableSort(b, ByLayer()) == b
  {
    forall i, j | 0 <= i < j < |b| ensures ByLayer()(b[i], b[j]) {
      assert !(a[j].layer < a[i].layer);
    }
    SortFixed(b, ByLayer());
  }

  /** Inserting columns keeps a circuit legal and keeps its state. */
  lemma InsertKeeps(t: Trig, model: Circuit, beforeLayer: real, count: real, idLe: (string, string) -> bool)
    requires TotalPreorder(idLe) && Editable(model)
    ensures var next := InsertColumnsBefore(model, beforeLayer, count, idLe);
      Editable(next) && FinalState(t, next) == FinalState(t, model)
  {
    hide TotalPreorder, Editable, SortOperations, FinalState, InsertColumnsBefore, NormalizeCircuit;
    var f := Shift(Resolved(beforeLayer), Resolved(count));
    EditableNormal(model, idLe);
    InsertNormal(model, beforeLayer, count, idLe);
    ShiftRelayers(SortOperations(model.operations, idLe), Resolved(beforeLayer), Resolved(count));
    RelayerKeeps(t, model, f, idLe);
  }

  /** A successful deletion keeps a circuit legal and keeps its state. */
  lemma DeleteKeeps(t: Trig, model: Circuit, beforeLayer: real, count: real, idLe: (string, string) -> bool)
    requires TotalPreorder(idLe) && Editable(model)
      && DeleteEmptyColumnsBefore(model, beforeLayer, count, idLe).Deleted?
    ensures var next := DeleteEmptyColumnsBefore(model, beforeLayer, count, idLe).model;
      Editable(next) && FinalState(t, next) == FinalState(t, model)
  {
    hide TotalPreorder, Editable, SortOperations, FinalState, DeleteEmptyColumnsBefore, NormalizeCircuit, Deletable,
      Relayers, Map, Resolved, Unshift;
    var before, n := Resolved(beforeLayer), Resolved(count);
    EditableNormal(model, idLe);
    DeleteSucceeds(model, beforeLayer, count, idLe);
    DeleteNormal(model, beforeLayer, count, idLe);
    SortedLayers(model.operations, before, n, idLe);
    ShiftBackRelayers(SortOperations(model.operations, idLe), before, n);
    RelayerKeeps(t, model, Unshift(before, n), idLe);
  }

  // ----- the number of qubits

  datatype QubitResult = Adjusted(model: Circuit) | AtBoundary | ShrinkBlocked(operationId: string)

  function FindBeyond(ops: seq<Operation>, n: nat): (r: Option<Operation>)
    ensures r.None? <==> forall op :: op in ops ==> Within(Qubits(op), n)
    ensures r.Some? ==> r.value in ops && !Within(Qubits(r.value), n)
  {
    if ops == [] then Option.None
    else
      assert ops == [ops[0]] + ops[1..];
      if !Within(Qubits(ops[0]), n) then Option.Some(ops[0]) else FindBeyond(ops[1..], n)
  }

  function IncreaseQubits(model: Circuit, maxQubits: nat, idLe: (string, string) -> bool): QubitResult {
    if model.numQubits >= maxQubits then AtBoundary
    else Adjusted(NormalizeCircuit(Circuit(model.numQubits + 1, model.operations), idLe))
  }

  function DecreaseQubits(model: Circuit, minQubits: nat, idLe: (string, string) -> bool): QubitResult {
    if model.numQubits <= minQubits then AtBoundary
    else
      match FindBeyond(model.operations, model.numQubits - 1)
      case Some(op) => ShrinkBlocked(op.id)
      case None => Adjusted(NormalizeCircuit(Circuit(model.numQubits - 1, model.operations), idLe))
  }

  /** The operation names a qubit at or beyond `n`. */
  predicate Beyond(op: Operation, n: nat) {
    exists q :: q in op.targets + op.controls && q >= n
  }

  lemma BeyondExactly(op: Operation, n: nat)
    ensures Beyond(op, n) <==> !Within(Qubits(op), n)
  {
    var qs := op.targets + op.controls;
    if !Within(Qubits(op), n) {
      var k :| 0 <= k < |qs| && qs[k] >= n;
      assert qs[k] in qs;
    }
    if Beyond(op, n) {
      var q :| q in qs && q >= n;
      var k :| 0 <= k < |qs| && qs[k] == q;
    }
  }

  lemma {:induction false} FirstBeyond(ops: seq<Operation>, n: nat) returns (j: nat)
    requires FindBeyond(ops, n).Some?
    ensures j < |ops| && FindBeyond(ops, n).value == ops[j] && Beyond(ops[j], n)
    ensures forall i :: 0 <= i < j ==> !Beyond(ops[i], n)
  {
    hide Beyond, Within, Qubits;
    BeyondExactly(ops[0], n);
    if Beyond(ops[0], n) {
      j := 0;
    } else {
      j := FirstBeyond(ops[1..], n);
      assert forall i :: 0 < i <= j + 1 ==> ops[i] == ops[1..][i - 1];
      j := j + 1;
    }
  }

  /** One qubit more, below the maximum; one less, above the minimum, unless some operation uses the last one. */
  lemma QubitsExactly(model: Circuit, bound: nat, idLe: (string, string) -> bool) returns (j: nat)
    ensures IncreaseQubits(model, bound, idLe) ==
      if model.numQubits >= bound then AtBoundary
      else Adjusted(NormalizeCircuit(Circuit(model.numQubits + 1, model.operations), idLe))
    ensures var r, n, ops := DecreaseQubits(model, bound, idLe), model.numQubits, model.operations;
      if n <= bound then r == AtBoundary
      else if exists op :: op in ops && Beyond(op, n - 1) then
        j < |ops| && r == ShrinkBlocked(ops[j].id) && Beyond(ops[j], n - 1)
        && forall i :: 0 <= i < j ==> !Beyond(ops[i], n - 1)
      else r == Adjusted(NormalizeCircuit(Circuit(n - 1, ops), idLe))
  {
    hide NormalizeCircuit, Beyond, Within, Qubits;
    j := 0;
    var n := model.numQubits;
    if n > bound {
      forall op ensures Beyond(op, n - 1) <==> !Within(Qubits(op), n - 1) { BeyondExactly(op, n - 1); }
      if FindBeyond(model.operations, n - 1).Some? {
        j := FirstBeyond(model.operations, n - 1);
      }
    }
  }

  /** Shrinking succeeds exactly above the minimum and when the last qubit is free; the result is editable again. */
  lemma DecreaseKeeps(model: Circuit, minQubits: nat, idLe: (string, string) -> bool)
    requires TotalPreorder(idLe) && Editable(model)
    ensures var r := DecreaseQubits(model, minQubits, idLe);
      && (r.Adjusted? <==>
          model.numQubits > minQubits && forall op :: op in model.operations ==>
              Within(Qubits(op), model.numQubits - 1))
      && (r.Adjusted? ==> Editable(r.model) && r.model.numQubits == model.numQubits - 1)
  {
    hide TotalPreorder, NormalizeCircuit, Legal, NamedUniquely, Within, SortOperations;
    var r := DecreaseQubits(model, minQubits, idLe);
    if r.Adjusted? {
      var shrunk := Circuit(model.numQubits - 1, model.operations);
      forall k | 0 <= k < |model.operations| ensures WellFormed(model.operations[k], model.numQubits - 1) {
        assert WellFormed(model.operations[k], model.numQubits) && model.operations[k] in model.operations;
      }
      NormalKeeps(shrunk, idLe);
    }
  }

  lemma NormalKeeps(model: Circuit, idLe: (string, string) -> bool)
    requires TotalPreorder(idLe) && Editable(model)
    ensures Editable(NormalizeCircuit(model, idLe)) && NormalizeCircuit(model, idLe).numQubits == model.numQubits
  {
    EditableNormal(model, idLe);
    SortedNamed(model, idLe);
    LegalPermutation(model.operations, SortOperations(model.operations, idLe));
  }

  lemma SortedWithin(model: Circuit, idLe: (string, string) -> bool)
    requires Editable(model)
    ensures forall op :: op in SortOperations(model.operations, idLe) ==> Within(Qubits(op), model.numQubits)
  {
    hide Legal, NamedUniquely, Within;
    var ops := SortOperations(model.operations, idLe);
    forall op | op in ops ensures Within(Qubits(op), model.numQubits) {
      InMultiset(ops, model.operations, op);
      var k :| 0 <= k < |model.operations| && model.operations[k] == op;
      assert WellFormed(model.operations[k], model.numQubits);
    }
  }

  /** Adding a qubit and taking it away again restores the normal form. */
  lemma IncreaseThenDecrease(model: Circuit, minQubits: nat, maxQubits: nat, idLe: (string, string) -> bool)
    requires TotalPreorder(idLe) && Editable(model) && minQubits <= model.numQubits < maxQubits
    ensures var more := IncreaseQubits(model, maxQubits, idLe);
      more.Adjusted? && DecreaseQubits(more.model, minQubits, idLe) == Adjusted(NormalizeCircuit(model, idLe))
  {
    hide TotalPreorder, Editable, SortOperations, Named, Within;
    EditableNormal(model, idLe);
    SortedWithin(model, idLe);
    NormalizeIdempotent(model, idLe);
  }
}
