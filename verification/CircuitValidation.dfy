/** The legality check of the editor: a scan that fills a map of occupied cells. */
module CircuitValidation {
  import opened Options
  import opened Bits
  import opened Circuits
  import opened Sorting
  import opened OrderIndependence

  datatype ErrorCode = CellConflict | InvalidMultiQubitOperation | NonTerminalMeasurement

  datatype Result = Ok | Error(code: ErrorCode, operationId: string)

  datatype Conflict = Conflict(current: Operation, layer: int, qubit: nat)

  // ----- the rule in plain terms

  /** `q` lies between the lowest and the highest qubit of the operation. */
  predicate Spans(op: Operation, q: nat) {
    exists a, b :: a in Qubits(op) && b in Qubits(op) && a <= q <= b
  }

  ghost predicate Clash(a: Operation, b: Operation) {
    a.layer == b.layer && exists q: nat :: Spans(a, q) && Spans(b, q)
  }

  ghost predicate SpansApart(ops: seq<Operation>) {
    forall i, j :: 0 <= i < j < |ops| ==> !Clash(ops[i], ops[j])
  }

  predicate NoRepeats(ops: seq<Operation>) {
    forall op :: op in ops ==> Distinct(Qubits(op))
  }

  predicate MeasuredLast(ops: seq<Operation>) {
    forall g, m :: g in ops && m in ops && g.gate != M && m.gate == M ==> g.layer < m.layer
  }

  ghost predicate Legal(ops: seq<Operation>) {
    NoRepeats(ops) && SpansApart(ops) && MeasuredLast(ops)
  }

  predicate NamedUniquely(ops: seq<Operation>) {
    UniqueIds(ops) && forall op :: op in ops ==> op.id != ""
  }

  // ----- the code

  /** `(layer, id)` order; `idLe` stands for the host's string comparison. */
  function LayerThenId(idLe: (string, string) -> bool): (Operation, Operation) -> bool {
    (a: Operation, b: Operation) => a.layer < b.layer || (a.layer == b.layer && idLe(a.id, b.id))
  }

  function SortOperations(ops: seq<Operation>, idLe: (string, string) -> bool): seq<Operation> {
    StableSort(ops, LayerThenId(idLe))
  }

  /** The elements of a list without repetition, in first-seen order. */
  function Unique(s: seq<nat>): (r: seq<nat>)
    ensures forall q :: q in r <==> q in s
    ensures |r| <= |s| && (|r| == |s| <==> Distinct(s))
  {
    if s == [] then []
    else
      var last, front := s[|s| - 1], s[..|s| - 1];
      assert s == front + [last];
      var r := Unique(front);
      assert Distinct(s) <==> Distinct(front) && last !in front by { DistinctSnoc(s); }
      if last in r then r else r + [last]
  }

  lemma DistinctSnoc(s: seq<nat>)
    requires s != []
    ensures Distinct(s) <==> Distinct(s[..|s| - 1]) && s[|s| - 1] !in s[..|s| - 1]
  {}

  function Min(s: seq<nat>): (m: nat)
    requires s != []
    ensures m in s && forall q :: q in s ==> m <= q
  {
    if |s| == 1 then s[0]
    else
      var m := Min(s[1..]);
      assert s == [s[0]] + s[1..];
      if s[0] < m then s[0] else m
  }

  function Max(s: seq<nat>): (m: nat)
    requires s != []
    ensures m in s && forall q :: q in s ==> q <= m
  {
    if |s| == 1 then s[0]
    else
      var m := Max(s[1..]);
      assert s == [s[0]] + s[1..];
      if s[0] > m then s[0] else m
  }

  function ToOccupiedQubits(op: Operation): (r: seq<nat>)
    ensures forall q: nat :: q in r <==> Spans(op, q)
  {
    var touched := Unique(Qubits(op));
    if |touched| < 2 then
      assert forall q :: q in touched ==> q == touched[0];
      touched
    else
      var minQubit, maxQubit := Min(touched), Max(touched);
      Between(op, minQubit, maxQubit);
      Range(minQubit, maxQubit)
  }

  /** The occupied cells in plain terms. */
  lemma OccupiedExactly(op: Operation, q: nat)
    ensures q in ToOccupiedQubits(op) <==>
      exists a, b :: a in op.targets + op.controls && b in op.targets + op.controls && a <= q <= b
  {
    hide ToOccupiedQubits;
    assert q in ToOccupiedQubits(op) <==> Spans(op, q);
    var both := op.targets + op.controls;
    if Spans(op, q) {
      var a, b :| a in Qubits(op) && b in Qubits(op) && a <= q <= b;
      assert a in both && b in both;
    }
    if a, b :| a in both && b in both && a <= q <= b {
      assert a in Qubits(op) && b in Qubits(op);
    }
  }

  function Range(lo: nat, hi: nat): (r: seq<nat>)
    requires lo <= hi
    ensures forall q :: q in r <==> lo <= q <= hi
    decreases hi - lo
  {
    [lo] + if lo == hi then [] else Range(lo + 1, hi)
  }

  lemma Between(op: Operation, lo: nat, hi: nat)
    requires lo in Qubits(op) && hi in Qubits(op)
    requires forall q :: q in Qubits(op) ==> lo <= q <= hi
    ensures forall q: nat :: Spans(op, q) <==> lo <= q <= hi
  {}

  /** This is the first operation that names a qubit twice. */
  predicate FirstRepeat(ops: seq<Operation>, j: nat, found: Operation) {
    j < |ops| && found == ops[j] && !Distinct(ops[j].targets + ops[j].controls)
    && forall i :: 0 <= i < j ==> Distinct(ops[i].targets + ops[i].controls)
  }

  method FindInvalidMultiQubitOperation(ops: seq<Operation>) returns (found: Option<Operation>)
    ensures found.None? <==> NoRepeats(ops)
    ensures found.Some? ==> exists j :: FirstRepeat(ops, j, found.value)
  {
    for k := 0 to |ops|
      invariant forall j :: 0 <= j < k ==> Distinct(Qubits(ops[j]))
    {
      var touched := Qubits(ops[k]);
      var uniqueTouched := Unique(touched);
      if |uniqueTouched| != |touched| {
        assert FirstRepeat(ops, k, ops[k]);
        return Some(ops[k]);
      }
    }
    return None;
  }

  /** Operation `op` owns cell `c`. */
  predicate Owns(op: Operation, c: (int, nat)) {
    op.layer == c.0 && Spans(op, c.1)
  }

  /** The last operation that owns a cell. */
  function LastOwner(ops: seq<Operation>, c: (int, nat)): (r: Option<nat>)
    ensures r.Some? ==> r.value < |ops| && Owns(ops[r.value], c) && forall k :: r.value < k < |ops| ==> !Owns(ops[k], c)
    ensures r.None? ==> forall k :: 0 <= k < |ops| ==> !Owns(ops[k], c)
  {
    if ops == [] then None
    else if Owns(ops[|ops| - 1], c) then Some(|ops| - 1)
    else LastOwner(ops[..|ops| - 1], c)
  }

  /** The cell was last taken under a name, and under another one. */
  predicate Taken(done: seq<Operation>, op: Operation, c: (int, nat)) {
    var owner := LastOwner(done, c);
    owner.Some? && done[owner.value].id != "" && done[owner.value].id != op.id
  }

  /** No operation meets a cell that is taken. */
  ghost predicate CellsFree(ops: seq<Operation>) {
    forall k, q: nat :: 0 <= k < |ops| && Spans(ops[k], q) ==> !Taken(ops[..k], ops[k], (ops[k].layer, q))
  }

  /**
   * The rule of the scan in plain terms: of two operations that follow one another in a cell, the first has no name, or
   * both have the same name.
   */
  lemma CellsExactly(ops: seq<Operation>)
    ensures CellsFree(ops) <==>
      forall i, j, q: nat :: 0 <= i < j < |ops| && Follows(ops, i, j, q) ==> ops[i].id == "" || ops[i].id == ops[j].id
  {
    hide Spans;
    if CellsFree(ops) {
      forall i, j, q: nat | 0 <= i < j < |ops| && Follows(ops, i, j, q)
        ensures ops[i].id == "" || ops[i].id == ops[j].id
      {
        assert !Taken(ops[..j], ops[j], (ops[j].layer, q));
        LastIs(ops, i, j, q);
      }
    } else {
      var j, q: nat :| 0 <= j < |ops| && Spans(ops[j], q) && Taken(ops[..j], ops[j], (ops[j].layer, q));
      var i := LastOwner(ops[..j], (ops[j].layer, q)).value;
      assert forall k :: 0 <= k < j ==> ops[..j][k] == ops[k];
      assert Owns(ops[..j][i], (ops[j].layer, q));
      assert Follows(ops, i, j, q);
    }
  }

  /** Both occupy the cell, and none between them does. */
  predicate Follows(ops: seq<Operation>, i: nat, j: nat, q: nat)
    requires i < j < |ops|
  {
    && ops[i].layer == ops[j].layer && Spans(ops[i], q) && Spans(ops[j], q)
    && forall k :: i < k < j && ops[k].layer == ops[j].layer ==> !Spans(ops[k], q)
  }

  lemma LastIs(ops: seq<Operation>, i: nat, j: nat, q: nat)
    requires i < j < |ops| && Follows(ops, i, j, q)
    ensures LastOwner(ops[..j], (ops[j].layer, q)) == Some(i)
  {
    hide Spans;
    var c, done := (ops[j].layer, q), ops[..j];
    assert Owns(done[i], c);
    forall k | i < k < j ensures !Owns(done[k], c) {}
  }

  /** Between operations that are named uniquely, that is the rule. */
  lemma NamedCells(ops: seq<Operation>)
    requires NamedUniquely(ops)
    ensures CellsFree(ops) <==> SpansApart(ops)
  {
    hide Spans;
    if CellsFree(ops) {
      forall i, j | 0 <= i < j < |ops| ensures !Clash(ops[i], ops[j]) {
        if Clash(ops[i], ops[j]) {
          var q: nat :| Spans(ops[i], q) && Spans(ops[j], q);
          MeetsTaken(ops, i, j, q);
        }
      }
    }
    if SpansApart(ops) {
      forall k, q: nat | 0 <= k < |ops| && Spans(ops[k], q) ensures !Taken(ops[..k], ops[k], (ops[k].layer, q)) {
        ApartUntaken(ops, k, q);
      }
    }
  }

  lemma MeetsTaken(ops: seq<Operation>, i: nat, j: nat, q: nat)
    requires NamedUniquely(ops) && i < j < |ops| && ops[i].layer == ops[j].layer && Spans(ops[i], q)
    ensures Taken(ops[..j], ops[j], (ops[j].layer, q))
  {
    hide Spans;
    var done := ops[..j];
    assert Owns(done[i], (ops[j].layer, q));
    var owner := LastOwner(done, (ops[j].layer, q));
    assert ops[owner.value] in ops && done[owner.value] == ops[owner.value];
  }

  lemma ApartUntaken(ops: seq<Operation>, k: nat, q: nat)
    requires SpansApart(ops) && k < |ops| && Spans(ops[k], q)
    ensures !Taken(ops[..k], ops[k], (ops[k].layer, q))
  {
    hide Spans;
    forall i | 0 <= i < k ensures !Owns(ops[..k][i], (ops[k].layer, q)) { assert !Clash(ops[i], ops[k]); }
  }

  /** The map of cells after the operations `done` and some cells of the current one. */
  ghost predicate Filled(cells: map<(int, nat), string>, done: seq<Operation>, current: Operation, part: seq<nat>) {
    forall c :: FilledAt(cells, done, current, part, c)
  }

  predicate FilledAt(cells: map<(int, nat), string>, done: seq<Operation>, current: Operation, part: seq<nat>,
                     c: (int, nat))
  {
    if c.0 == current.layer && c.1 in part then c in cells && cells[c] == current.id
    else
      var owner := LastOwner(done, c);
      (c in cells <==> owner.Some?) && (owner.Some? ==> cells[c] == done[owner.value].id)
  }

  lemma FillCell(cells: map<(int, nat), string>, done: seq<Operation>, current: Operation, part: seq<nat>, q: nat)
    requires Filled(cells, done, current, part)
    ensures Filled(cells[(current.layer, q) := current.id], done, current, part + [q])
  {
    hide LastOwner;
    var next, more := cells[(current.layer, q) := current.id], part + [q];
    forall c ensures FilledAt(next, done, current, more, c) {
      assert FilledAt(cells, done, current, part, c);
    }
  }

  lemma FillNext(cells: map<(int, nat), string>, done: seq<Operation>, current: Operation, later: Operation)
    requires Filled(cells, done, current, ToOccupiedQubits(current))
    ensures Filled(cells, done + [current], later, [])
  {
    hide ToOccupiedQubits, Spans;
    OccupiedSpans(current);
    forall c: (int, nat) ensures FilledAt(cells, done + [current], later, [], c) {
      assert FilledAt(cells, done, current, ToOccupiedQubits(current), c);
      assert (done + [current])[..|done|] == done && (c.0, c.1) == c;
    }
  }

  lemma FreeNext(done: seq<Operation>, current: Operation)
    requires CellsFree(done)
    requires forall x :: 0 <= x < |ToOccupiedQubits(current)| ==>
      !Taken(done, current, (current.layer, ToOccupiedQubits(current)[x]))
    ensures CellsFree(done + [current])
  {
    hide ToOccupiedQubits, Spans, Taken;
    var more := done + [current];
    OccupiedSpans(current);
    forall k, q: nat | 0 <= k < |more| && Spans(more[k], q) ensures !Taken(more[..k], more[k], (more[k].layer, q)) {
      if k < |done| {
        assert more[..k] == done[..k] && more[k] == done[k];
      } else {
        assert more[..k] == done && q in ToOccupiedQubits(current);
      }
    }
  }

  lemma OccupiedSpans(op: Operation)
    ensures forall q: nat :: q in ToOccupiedQubits(op) <==> Spans(op, q)
  {}

  /** The test of the scan on one cell. */
  lemma CellTest(cells: map<(int, nat), string>, done: seq<Operation>, current: Operation, part: seq<nat>, q: nat)
    requires Filled(cells, done, current, part)
    requires forall x :: 0 <= x < |part| ==> !Taken(done, current, (current.layer, part[x]))
    ensures var key := (current.layer, q);
      (key in cells && cells[key] != "" && cells[key] != current.id) <==> Taken(done, current, key)
  {
    hide LastOwner;
    assert FilledAt(cells, done, current, part, (current.layer, q));
  }

  method FindCellConflict(ops: seq<Operation>) returns (found: Option<Conflict>)
    ensures found.None? <==> CellsFree(ops)
    ensures found.Some? ==> exists j :: 0 <= j < |ops| && Reports(found.value, ops, j)
  {
    hide ToOccupiedQubits, Spans, Taken, Filled, CellsFree, Qubits, Reports;
    var occupied: map<(int, nat), string> := map[];
    NothingFilled(ops);
    for k := 0 to |ops|
      invariant k < |ops| ==> Filled(occupied, ops[..k], ops[k], [])
      invariant CellsFree(ops[..k])
    {
      var operation := ops[k];
      var qubits := ToOccupiedQubits(operation);
      assert qubits[..0] == [];
      for m := 0 to |qubits|
        invariant Filled(occupied, ops[..k], operation, qubits[..m])
        invariant forall x :: 0 <= x < m ==> !Taken(ops[..k], operation, (operation.layer, qubits[x]))
      {
        var key := (operation.layer, qubits[m]);
        CellTest(occupied, ops[..k], operation, qubits[..m], qubits[m]);
        if key in occupied && occupied[key] != "" && occupied[key] != operation.id {
          found := Some(Conflict(operation, operation.layer, qubits[m]));
          OccupiedSpans(operation);
          ConflictReported(ops, k, qubits[m]);
          return;
        }
        FillCell(occupied, ops[..k], operation, qubits[..m], qubits[m]);
        assert qubits[..m + 1] == qubits[..m] + [qubits[m]];
        occupied := occupied[key := operation.id];
      }
      assert qubits[..|qubits|] == qubits;
      assert ops[..k + 1] == ops[..k] + [operation];
      FillNext(occupied, ops[..k], operation, if k + 1 < |ops| then ops[k + 1] else operation);
      FreeNext(ops[..k], operation);
    }
    assert ops[..|ops|] == ops;
    return None;
  }

  /** The first operation that meets a taken cell, and that cell. */
  ghost predicate Reports(c: Conflict, ops: seq<Operation>, j: nat)
    requires j < |ops|
  {
    && CellsFree(ops[..j]) && c.current == ops[j] && c.layer == ops[j].layer
    && Spans(ops[j], c.qubit) && Taken(ops[..j], ops[j], (c.layer, c.qubit))
  }

  lemma ConflictReported(ops: seq<Operation>, k: nat, q: nat)
    requires k < |ops| && CellsFree(ops[..k]) && Spans(ops[k], q) && Taken(ops[..k], ops[k], (ops[k].layer, q))
    ensures !CellsFree(ops) && Reports(Conflict(ops[k], ops[k].layer, q), ops, k)
  {
    hide Spans, Taken;
  }

  lemma NothingFilled(ops: seq<Operation>)
    ensures ops[..0] == [] && CellsFree(ops[..0]) && (0 < |ops| ==> Filled(map[], ops[..0], ops[0], []))
  {}

  /** Two gates of one name in one cell: they clash, and the scan does not see it. */
  lemma SameNameAccepted()
    ensures var ops := [Operation("a", X, [0], [], [], 0), Operation("a", Y, [0], [], [], 0)];
      CellsFree(ops) && !SpansApart(ops)
  {
    hide LastOwner;
    var ops := [Operation("a", X, [0], [], [], 0), Operation("a", Y, [0], [], [], 0)];
    assert Qubits(ops[0]) == [0] == Qubits(ops[1]);
    assert 0 in Qubits(ops[0]) && 0 in Qubits(ops[1]);
    assert Spans(ops[0], 0) && Spans(ops[1], 0);
    assert Clash(ops[0], ops[1]);
  }

  // ----- measurements come last

  function MeasurementLayers(ops: seq<Operation>): (r: seq<int>)
    ensures forall op :: op in ops && op.gate == M ==> op.layer in r
    ensures forall l :: l in r ==> exists op :: op in ops && op.gate == M && op.layer == l
  {
    if ops == [] then []
    else
      assert ops == [ops[0]] + ops[1..];
      (if ops[0].gate == M then [ops[0].layer] else []) + MeasurementLayers(ops[1..])
  }

  function LeastLayer(layers: seq<int>): (r: Option<int>)
    ensures r.None? <==> layers == []
    ensures r.Some? ==> r.value in layers && forall l :: l in layers ==> r.value <= l
  {
    if layers == [] then None
    else
      assert layers == [layers[0]] + layers[1..];
      match LeastLayer(layers[1..])
      case None => Some(layers[0])
      case Some(l) => Some(if layers[0] < l then layers[0] else l)
  }

  function FindGateFrom(ops: seq<Operation>, layer: int): (r: Option<Operation>)
    ensures r.None? ==> forall op :: op in ops && op.gate != M ==> op.layer < layer
    ensures r.Some? ==> r.value in ops && r.value.gate != M && r.value.layer >= layer
  {
    if ops == [] then None
    else
      assert ops == [ops[0]] + ops[1..];
      if ops[0].gate != M && ops[0].layer >= layer then Some(ops[0]) else FindGateFrom(ops[1..], layer)
  }

  lemma {:induction false} FirstGateFrom(ops: seq<Operation>, layer: int) returns (j: nat)
    requires FindGateFrom(ops, layer).Some?
    ensures j < |ops| && FindGateFrom(ops, layer).value == ops[j]
    ensures forall i :: 0 <= i < j && ops[i].gate != M ==> ops[i].layer < layer
  {
    if ops[0].gate != M && ops[0].layer >= layer {
      j := 0;
    } else {
      j := FirstGateFrom(ops[1..], layer);
      assert forall i :: 0 < i <= j ==> ops[i] == ops[1..][i - 1];
      j := j + 1;
    }
  }

  /** This is the first gate that does not lie before every measurement. */
  ghost predicate FirstUnmeasured(ops: seq<Operation>, j: nat, found: Operation) {
    j < |ops| && found == ops[j] && ops[j].gate != M
    && (exists m :: m in ops && m.gate == M && m.layer <= ops[j].layer)
    && forall i, m :: 0 <= i < j && ops[i].gate != M && m in ops && m.gate == M ==> ops[i].layer < m.layer
  }

  function FindNonTerminalMeasurement(ops: seq<Operation>): (r: Option<Operation>)
    ensures r.None? <==> MeasuredLast(ops)
  {
    match LeastLayer(MeasurementLayers(ops))
    case None => None
    case Some(first) => FindGateFrom(ops, first)
  }

  lemma FoundIsFirst(ops: seq<Operation>) returns (j: nat)
    requires FindNonTerminalMeasurement(ops).Some?
    ensures FirstUnmeasured(ops, j, FindNonTerminalMeasurement(ops).value)
  {
    var layer := LeastLayer(MeasurementLayers(ops)).value;
    j := FirstGateFrom(ops, layer);
    var m :| m in ops && m.gate == M && m.layer == layer;
  }

  // ----- the whole check

  /** The rule does not depend on the order in which the operations are listed. */
  lemma LegalPermutation(ops: seq<Operation>, sorted: seq<Operation>)
    requires multiset(ops) == multiset(sorted)
    ensures NoRepeats(ops) <==> NoRepeats(sorted)
    ensures MeasuredLast(ops) <==> MeasuredLast(sorted)
    ensures NamedUniquely(ops) ==> NamedUniquely(sorted) && (SpansApart(ops) <==> SpansApart(sorted))
  {
    forall op ensures op in ops <==> op in sorted { InMultiset(ops, sorted, op); }
    if NamedUniquely(ops) {
      UniquePermutation(ops, sorted);
      ApartPermutation(ops, sorted);
      ApartPermutation(sorted, ops);
    }
  }

  lemma UniquePermutation(ops: seq<Operation>, sorted: seq<Operation>)
    requires multiset(ops) == multiset(sorted) && UniqueIds(ops)
    ensures UniqueIds(sorted)
  {
    forall i, j | 0 <= i < j < |sorted| ensures sorted[i].id != sorted[j].id {
      if sorted[i].id == sorted[j].id {
        InMultiset(ops, sorted, sorted[i]);
        InMultiset(ops, sorted, sorted[j]);
        Twice(sorted, i, j);
        Once(ops, sorted[i]);
      }
    }
  }

  lemma Twice(s: seq<Operation>, i: nat, j: nat)
    requires i < j < |s| && s[i] == s[j]
    ensures multiset(s)[s[i]] >= 2
  {
    assert s == s[..i] + [s[i]] + s[i + 1..j] + [s[j]] + s[j + 1..];
  }

  lemma {:induction false} Once(s: seq<Operation>, op: Operation)
    requires UniqueIds(s)
    ensures multiset(s)[op] <= 1
  {
    if s != [] {
      assert s == [s[0]] + s[1..];
      Once(s[1..], op);
      assert forall k :: 0 <= k < |s[1..]| ==> s[1..][k].id != s[0].id;
    }
  }

  lemma ApartPermutation(ops: seq<Operation>, sorted: seq<Operation>)
    requires multiset(ops) == multiset(sorted) && UniqueIds(ops) && UniqueIds(sorted)
    ensures SpansApart(ops) ==> SpansApart(sorted)
  {
    hide Spans;
    forall i, j | 0 <= i < j < |sorted| && SpansApart(ops) ensures !Clash(sorted[i], sorted[j]) {
      InMultiset(ops, sorted, sorted[i]);
      InMultiset(ops, sorted, sorted[j]);
      var a :| 0 <= a < |ops| && ops[a] == sorted[i];
      var b :| 0 <= b < |ops| && ops[b] == sorted[j];
      assert a != b;
      assert !Clash(ops[if a < b then a else b], ops[if a < b then b else a]);
    }
  }

  /** Operation number `j` has this name and is the first one that breaks the rule. */
  ghost predicate Blamed(ops: seq<Operation>, j: nat, code: ErrorCode, id: string) {
    j < |ops| && ops[j].id == id &&
    match code
    case InvalidMultiQubitOperation => FirstRepeat(ops, j, ops[j])
    case CellConflict => exists q :: Reports(Conflict(ops[j], ops[j].layer, q), ops, j)
    case NonTerminalMeasurement => FirstUnmeasured(ops, j, ops[j])
  }

  lemma RepeatBlamed(ops: seq<Operation>, found: Operation)
    requires exists j :: FirstRepeat(ops, j, found)
    ensures exists j :: Blamed(ops, j, InvalidMultiQubitOperation, found.id)
  {
    var j :| FirstRepeat(ops, j, found);
    assert Blamed(ops, j, InvalidMultiQubitOperation, found.id);
  }

  lemma ConflictBlamed(ops: seq<Operation>, c: Conflict)
    requires exists j :: 0 <= j < |ops| && Reports(c, ops, j)
    ensures exists j :: Blamed(ops, j, CellConflict, c.current.id)
  {
    hide CellsFree, Taken, Spans;
    var j :| 0 <= j < |ops| && Reports(c, ops, j);
    assert Reports(Conflict(ops[j], ops[j].layer, c.qubit), ops, j);
    assert Blamed(ops, j, CellConflict, c.current.id);
  }

  lemma UnmeasuredBlamed(ops: seq<Operation>)
    requires FindNonTerminalMeasurement(ops).Some?
    ensures exists j :: Blamed(ops, j, NonTerminalMeasurement, FindNonTerminalMeasurement(ops).value.id)
  {
    hide FindNonTerminalMeasurement;
    var j := FoundIsFirst(ops);
    assert Blamed(ops, j, NonTerminalMeasurement, FindNonTerminalMeasurement(ops).value.id);
  }

  /**
   * Soundness and completeness: the sorted circuit passes exactly when no operation repeats a qubit, none meets a taken
   * cell, and measurements come last; with unique names, exactly when the circuit is legal.
   */
  method ValidateCircuitModel(model: Circuit, idLe: (string, string) -> bool) returns (result: Result)
    ensures var free := CellsFree(SortOperations(model.operations, idLe));
      && (result.Ok? <==> NoRepeats(model.operations) && free && MeasuredLast(model.operations))
      && (result.Error? && result.code == InvalidMultiQubitOperation <==> !NoRepeats(model.operations))
      && (result.Error? && result.code == CellConflict <==> NoRepeats(model.operations) && !free)
    // the error names the first operation that breaks the rule
    ensures result.Error? ==>
      exists j :: Blamed(SortOperations(model.operations, idLe), j, result.code, result.operationId)
    ensures NamedUniquely(model.operations) ==> (result.Ok? <==> Legal(model.operations))
    ensures NamedUniquely(model.operations) ==>
      (CellsFree(SortOperations(model.operations, idLe)) <==> SpansApart(model.operations))
  {
    hide Clash, SpansApart, NoRepeats, MeasuredLast, NamedUniquely, CellsFree, LayerThenId, FirstRepeat,
      FirstUnmeasured, Reports, Blamed;
    var ops := SortOperations(model.operations, idLe);
    LegalPermutation(model.operations, ops);
    if NamedUniquely(model.operations) { NamedCells(ops); }
    var invalidOperation := FindInvalidMultiQubitOperation(ops);
    if invalidOperation.Some? {
      RepeatBlamed(ops, invalidOperation.value);
      return Error(InvalidMultiQubitOperation, invalidOperation.value.id);
    }
    var conflict := FindCellConflict(ops);
    if conflict.Some? {
      ConflictBlamed(ops, conflict.value);
      return Error(CellConflict, conflict.value.current.id);
    }
    var nonTerminal := FindNonTerminalMeasurement(ops);
    if nonTerminal.Some? {
      UnmeasuredBlamed(ops);
      return Error(NonTerminalMeasurement, nonTerminal.value.id);
    }
    return Ok;
  }

  /** What legality gives the simulator: distinct operands, and disjoint operands within a layer. */
  lemma LegalMeansApart(ops: seq<Operation>, n: nat)
    requires Legal(ops) && UniqueIds(ops) && AllWellFormed(ops, n)
    ensures Proper(ops, n) && LayersApart(ops)
  {
    hide WellFormed, Distinct;
    forall a, b | a in ops && b in ops && a.id != b.id && a.layer == b.layer
      ensures Disjoint(Qubits(a), Qubits(b))
    {
      var i :| 0 <= i < |ops| && ops[i] == a;
      var j :| 0 <= j < |ops| && ops[j] == b;
      assert !Clash(ops[if i < j then i else j], ops[if i < j then j else i]);
      forall q | q in Qubits(a) ensures q !in Qubits(b) {
        assert Spans(a, q);
        assert q in Qubits(b) ==> Spans(b, q);
      }
    }
  }
}
