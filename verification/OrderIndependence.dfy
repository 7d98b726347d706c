/**
 * The operations of one layer act on disjoint qubits, so the order inside a layer does not matter: any two
 * arrangements of a circuit that respect the layers compute the same state.
 */
module OrderIndependence {
  import opened Bits
  import opened Trigonometry
  import opened Circuits
  import opened Kernels
  import opened Gates
  import opened Sorting

  predicate UniqueIds(ops: seq<Operation>) {
    forall i, j :: 0 <= i < j < |ops| ==> ops[i].id != ops[j].id
  }

  /** Operations that share a layer share no qubit. */
  predicate LayersApart(ops: seq<Operation>) {
    forall a, b :: a in ops && b in ops && a.id != b.id && a.layer == b.layer ==> Disjoint(Qubits(a), Qubits(b))
  }

  predicate LayerSorted(ops: seq<Operation>) {
    forall i, j :: 0 <= i < j < |ops| ==> ops[i].layer <= ops[j].layer
  }

  /** Every operation has its operands, in range and pairwise distinct. */
  predicate Proper(ops: seq<Operation>, n: nat) {
    forall op :: op in ops ==> WellFormed(op, n) && Distinct(Qubits(op))
  }

  lemma DenoteCommute(t: Trig, a: Operation, b: Operation, n: nat, v: Vec)
    requires WellFormed(a, n) && WellFormed(b, n) && Distinct(Qubits(a)) && Distinct(Qubits(b))
    requires Disjoint(Qubits(a), Qubits(b)) && |v| == Pow2(n)
    ensures Denote(t, a, Denote(t, b, v)) == Denote(t, b, Denote(t, a, v))
  {
    hide KernelOf, Apply, WellFormed, Pow2, Fits;
    if a.gate != M && b.gate != M {
      KernelFits(t, a, n);
      KernelFits(t, b, n);
      Commute(KernelOf(t, a), KernelOf(t, b), v, n);
    }
  }

  /** An operation that shares no qubit with its predecessors can be executed before them. */
  lemma {:induction false} MoveFront(t: Trig, ops: seq<Operation>, k: nat, n: nat, v: Vec)
    requires k < |ops| && Proper(ops, n) && |v| == Pow2(n)
    requires forall j :: 0 <= j < k ==> Disjoint(Qubits(ops[j]), Qubits(ops[k]))
    ensures DenoteAll(t, ops, v) == DenoteAll(t, ops[..k] + ops[k + 1..], Denote(t, ops[k], v))
    decreases k
  {
    hide Denote, WellFormed, Distinct, Disjoint, Pow2;
    if k == 0 {
      assert ops[..0] + ops[1..] == ops[1..];
    } else {
      var rest := ops[1..];
      var a, b := ops[0], ops[k];
      assert rest[k - 1] == b;
      assert forall j :: 0 <= j < k - 1 ==> rest[j] == ops[j + 1];
      MoveFront(t, rest, k - 1, n, Denote(t, a, v));
      DenoteCommute(t, a, b, n, v);
      var others := ops[..k] + ops[k + 1..];
      assert others[0] == a && others[1..] == rest[..k - 1] + rest[k..];
    }
  }

  function Without(ops: seq<Operation>, k: nat): seq<Operation>
    requires k < |ops|
  {
    ops[..k] + ops[k + 1..]
  }

  lemma WithoutLaws(ops: seq<Operation>, k: nat)
    requires k < |ops|
    ensures multiset(ops) == multiset{ops[k]} + multiset(Without(ops, k))
    ensures LayerSorted(ops) ==> LayerSorted(Without(ops, k))
    ensures UniqueIds(ops) ==> UniqueIds(Without(ops, k))
  {
    assert ops == ops[..k] + [ops[k]] + ops[k + 1..];
    forall i | 0 <= i < |ops| - 1
      ensures Without(ops, k)[i] == ops[if i < k then i else i + 1]
    {}
  }

  lemma TailLaws(ops: seq<Operation>, n: nat)
    requires ops != []
    ensures multiset(ops) == multiset{ops[0]} + multiset(ops[1..])
    ensures LayerSorted(ops) ==> LayerSorted(ops[1..])
    ensures Proper(ops, n) ==> Proper(ops[1..], n)
    ensures LayersApart(ops) ==> LayersApart(ops[1..])
  {
    assert ops == [ops[0]] + ops[1..];
    assert forall op :: op in ops[1..] ==> op in ops;
  }

  /** In a layer-sorted arrangement, whatever precedes the other arrangement's first operation shares its layer. */
  lemma Predecessors(left: seq<Operation>, right: seq<Operation>, k: nat)
    requires multiset(left) == multiset(right) && left != [] && k < |right| && right[k] == left[0]
    requires LayerSorted(left) && LayerSorted(right) && LayersApart(left) && UniqueIds(right)
    ensures forall j :: 0 <= j < k ==> Disjoint(Qubits(right[j]), Qubits(right[k]))
  {
    hide Disjoint;
    var a := left[0];
    forall j | 0 <= j < k
      ensures Disjoint(Qubits(right[j]), Qubits(a))
    {
      var b := right[j];
      InMultiset(left, right, b);
      var x :| 0 <= x < |left| && left[x] == b;
      assert a.layer <= b.layer <= a.layer;
    }
  }

  lemma {:induction false} SameState(t: Trig, left: seq<Operation>, right: seq<Operation>, n: nat, v: Vec)
    requires multiset(left) == multiset(right) && |v| == Pow2(n)
    requires LayerSorted(left) && LayerSorted(right)
    requires Proper(left, n) && LayersApart(left) && UniqueIds(right)
    ensures DenoteAll(t, left, v) == DenoteAll(t, right, v)
    decreases |left|
  {
    hide Denote, LayerSorted, LayersApart, UniqueIds, Pow2, WellFormed, Distinct;
    if left == [] {
      assert |multiset(right)| == |right|;
    } else {
      var a := left[0];
      InMultiset(left, right, a);
      var k :| 0 <= k < |right| && right[k] == a;
      Predecessors(left, right, k);
      forall op | op in right ensures op in left { InMultiset(left, right, op); }
      MoveFront(t, right, k, n, v);
      WithoutLaws(right, k);
      TailLaws(left, n);
      assert multiset(left[1..]) == multiset(left) - multiset{a} == multiset(Without(right, k));
      SameState(t, left[1..], Without(right, k), n, Denote(t, a, v));
    }
  }
}
