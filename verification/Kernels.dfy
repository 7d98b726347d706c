/**
 * The linear operators a gate stands for.  A kernel multiplies, for every choice of the remaining
 * bits, the amplitudes of the `targets` subspace by a matrix, provided all `controls` are set.
 */
module Kernels {
  import opened Bits
  import opened Complex

  type Vec = seq<C>

  datatype Kernel = Kernel(controls: seq<nat>, targets: seq<nat>, rows: seq<seq<C>>)

  function Touched(k: Kernel): seq<nat> { k.targets + k.controls }

  /** The kernel names distinct qubits below `n` and has a square matrix of the right size. */
  predicate Fits(k: Kernel, n: nat) {
    && Within(Touched(k), n)
    && Distinct(Touched(k))
    && |k.rows| == Pow2(|k.targets|)
    && forall r :: 0 <= r < |k.rows| ==> |k.rows[r]| == Pow2(|k.targets|)
  }

  function At(v: Vec, i: nat): C {
    if i < |v| then v[i] else ZERO
  }

  function Entry(k: Kernel, r: nat, c: nat): C {
    if r < |k.rows| && c < |k.rows[r]| then k.rows[r][c] else ZERO
  }

  /** The contribution of column `x` to amplitude `i`. */
  function Term(k: Kernel, v: Vec, i: nat, x: nat): C {
    Mul(Entry(k, Row(i, k.targets), x), At(v, Sub(i, k.targets, x)))
  }

  function Amp(k: Kernel, v: Vec, i: nat): C {
    if Active(i, k.controls) then Sum(Pow2(|k.targets|), (x: nat) => Term(k, v, i, x)) else At(v, i)
  }

  function Apply(k: Kernel, v: Vec): (w: Vec)
    ensures |w| == |v|
  {
    seq(|v|, (i: nat) => Amp(k, v, i))
  }

  // ----- closed forms for one and two targets

  lemma Amp1(k: Kernel, v: Vec, i: nat)
    requires |k.targets| == 1
    ensures var t, r := k.targets[0], if Bit(i, k.targets[0]) then 1 else 0;
      Amp(k, v, i) == if Active(i, k.controls)
                      then Plus(Mul(Entry(k, r, 0), At(v, Set(i, t, false))),
                                Mul(Entry(k, r, 1), At(v, Set(i, t, true))))
                      else At(v, i)
  {
    var f := (x: nat) => Term(k, v, i, x);
    assert Row(i, k.targets) == (if Bit(i, k.targets[0]) then 1 else 0) + 2 * Row(i, k.targets[1..]);
    assert Pow2(1) == 2 * Pow2(0);
    assert Sum(2, f) == Plus(Sum(1, f), f(1));
    assert Sum(1, f) == Plus(Sum(0, f), f(0));
    assert Sub(i, k.targets, 0) == Set(i, k.targets[0], false);
    assert Sub(i, k.targets, 1) == Set(i, k.targets[0], true);
  }

  /** Selected bits and index substitution for a pair of targets. */
  lemma Pair(i: nat, ts: seq<nat>, a: bool, b: bool)
    requires |ts| == 2
    ensures Row(i, ts) == (if Bit(i, ts[0]) then 1 else 0) + (if Bit(i, ts[1]) then 2 else 0)
    ensures Sub(i, ts, (if a then 1 else 0) + (if b then 2 else 0)) == Set(Set(i, ts[0], a), ts[1], b)
  {
    var us := ts[1..];
    var x: nat := (if a then 1 else 0) + (if b then 2 else 0);
    assert us[0] == ts[1] && us[1..] == [];
    assert Row(i, us) == (if Bit(i, ts[1]) then 1 else 0);
    assert x % 2 == (if a then 1 else 0) && x / 2 == (if b then 1 else 0);
    var j := Set(i, ts[0], a);
    assert Sub(i, ts, x) == Sub(j, us, x / 2);
    assert Sub(j, us, x / 2) == Sub(Set(j, us[0], x / 2 % 2 == 1), us[1..], x / 2 / 2);
  }

  lemma Amp2(k: Kernel, v: Vec, i: nat)
    requires |k.targets| == 2 && Active(i, k.controls)
    ensures Amp(k, v, i) ==
            Plus(Plus(Plus(Term(k, v, i, 0), Term(k, v, i, 1)), Term(k, v, i, 2)), Term(k, v, i, 3))
  {
    var f := (x: nat) => Term(k, v, i, x);
    assert Pow2(2) == 2 * Pow2(1) && Pow2(1) == 2 * Pow2(0);
    SumFour(f);
  }

  lemma SumFour(f: nat -> C)
    ensures Sum(4, f) == Plus(Plus(Plus(f(0), f(1)), f(2)), f(3))
  {
    assert Sum(1, f) == Plus(Sum(0, f), f(0));
    assert Sum(2, f) == Plus(Sum(1, f), f(1));
    assert Sum(3, f) == Plus(Sum(2, f), f(2));
  }

  // ----- operators on disjoint qubits commute

  predicate Apart(k: Kernel, l: Kernel) {
    Disjoint(Touched(k), Touched(l))
  }

  lemma ApartParts(k: Kernel, l: Kernel)
    requires Apart(k, l)
    ensures Apart(l, k)
    ensures Disjoint(k.targets, l.targets) && Disjoint(l.controls, k.targets)
    ensures Disjoint(l.targets, k.targets) && Disjoint(k.controls, l.targets)
  {
    assert forall q :: q in k.targets ==> q in Touched(k);
    assert forall q :: q in k.controls ==> q in Touched(k);
    assert forall q :: q in l.targets ==> q in Touched(l);
    assert forall q :: q in l.controls ==> q in Touched(l);
  }

  lemma TargetsRange(k: Kernel, n: nat, i: nat, x: nat)
    requires Fits(k, n) && i < Pow2(n)
    ensures Sub(i, k.targets, x) < Pow2(n)
  {
    forall q | 0 <= q < |k.targets| ensures k.targets[q] < n { assert Touched(k)[q] == k.targets[q]; }
    SubRange(i, k.targets, x, n);
  }

  /** Amplitude `i` of the state after `l`, seen from an index that differs only on qubits `l` ignores. */
  lemma SeenFrom(k: Kernel, l: Kernel, i: nat, x: nat)
    requires Apart(k, l)
    ensures Active(Sub(i, k.targets, x), l.controls) == Active(i, l.controls)
    ensures Row(Sub(i, k.targets, x), l.targets) == Row(i, l.targets)
  {
    ApartParts(k, l);
    ActiveOfSub(i, k.targets, x, l.controls);
    RowOfSub(i, k.targets, x, l.targets);
  }

  /** The double sum behind two successive kernels on disjoint qubits. */
  function Cross(k: Kernel, l: Kernel, v: Vec, i: nat, x: nat, y: nat): C {
    Mul(Entry(k, Row(i, k.targets), x),
        Mul(Entry(l, Row(i, l.targets), y), At(v, Sub(Sub(i, k.targets, x), l.targets, y))))
  }

  lemma CrossSwap(k: Kernel, l: Kernel, v: Vec, i: nat, x: nat, y: nat)
    requires Apart(k, l)
    ensures Cross(l, k, v, i, y, x) == Cross(k, l, v, i, x, y)
  {
    ApartParts(k, l);
    SubCommute(i, k.targets, x, l.targets, y);
    MulSwap(Entry(k, Row(i, k.targets), x), Entry(l, Row(i, l.targets), y),
            At(v, Sub(Sub(i, k.targets, x), l.targets, y)));
  }

  lemma OneSide(k: Kernel, l: Kernel, v: Vec, n: nat, i: nat, x: nat)
    requires Fits(k, n) && Fits(l, n) && Apart(k, l) && |v| == Pow2(n) && i < |v|
    requires Active(i, l.controls)
    ensures Term(k, Apply(l, v), i, x) == Sum(Pow2(|l.targets|), (y: nat) => Cross(k, l, v, i, x, y))
  {
    TargetsRange(k, n, i, x);
    SeenFrom(k, l, i, x);
    var j := Sub(i, k.targets, x);
    var e := Entry(k, Row(i, k.targets), x);
    var f := (y: nat) => Term(l, v, j, y);
    var g := (y: nat) => Cross(k, l, v, i, x, y);
    assert At(Apply(l, v), j) == Amp(l, v, j) == Sum(Pow2(|l.targets|), f);
    forall y: nat ensures g(y) == Mul(e, f(y)) {
      CrossIsProduct(k, l, v, i, x, y);
    }
    SumScale(Pow2(|l.targets|), f, e, g);
  }

  lemma CrossIsProduct(k: Kernel, l: Kernel, v: Vec, i: nat, x: nat, y: nat)
    requires Apart(k, l)
    ensures Cross(k, l, v, i, x, y) == Mul(Entry(k, Row(i, k.targets), x), Term(l, v, Sub(i, k.targets, x), y))
  {
    SeenFrom(k, l, i, x);
  }

  lemma CommuteActive(k: Kernel, l: Kernel, v: Vec, n: nat, i: nat)
    requires Fits(k, n) && Fits(l, n) && Apart(k, l) && |v| == Pow2(n) && i < |v|
    requires Active(i, k.controls) && Active(i, l.controls)
    ensures Amp(k, Apply(l, v), i) == Amp(l, Apply(k, v), i)
  {
    var wk, wl := Apply(k, v), Apply(l, v);
    var t := (x: nat, y: nat) => Cross(k, l, v, i, x, y);
    var rows := (x: nat) => Term(k, wl, i, x);
    var cols := (y: nat) => Term(l, wk, i, y);
    var K, L := Pow2(|k.targets|), Pow2(|l.targets|);
    ApartParts(k, l);
    forall x: nat | x < K
      ensures rows(x) == Sum(L, (y: nat) => t(x, y))
    {
      OneSide(k, l, v, n, i, x);
      SumExt(L, (y: nat) => Cross(k, l, v, i, x, y), (y: nat) => t(x, y));
    }
    forall y: nat | y < L
      ensures cols(y) == Sum(K, (x: nat) => t(x, y))
    {
      OneSide(l, k, v, n, i, y);
      forall x: nat ensures Cross(l, k, v, i, y, x) == t(x, y) { CrossSwap(k, l, v, i, x, y); }
      SumExt(K, (x: nat) => Cross(l, k, v, i, y, x), (x: nat) => t(x, y));
    }
    SumExchange(K, L, t, rows, cols);
  }

  /** Where `l` is switched off by its controls, applying it first changes nothing `k` reads. */
  lemma CommuteIdle(k: Kernel, l: Kernel, v: Vec, n: nat, i: nat)
    requires Fits(k, n) && Apart(k, l) && |v| == Pow2(n) && i < |v|
    requires !Active(i, l.controls)
    ensures Amp(k, Apply(l, v), i) == Amp(l, Apply(k, v), i)
  {
    var wl := Apply(l, v);
    var f, g := (x: nat) => Term(k, wl, i, x), (x: nat) => Term(k, v, i, x);
    forall x: nat ensures f(x) == g(x) {
      TargetsRange(k, n, i, x);
      SeenFrom(k, l, i, x);
      assert At(wl, Sub(i, k.targets, x)) == At(v, Sub(i, k.targets, x));
    }
    SumExt(Pow2(|k.targets|), f, g);
  }

  /** Operators that share no qubit commute on every state. */
  lemma Commute(k: Kernel, l: Kernel, v: Vec, n: nat)
    requires Fits(k, n) && Fits(l, n) && Apart(k, l) && |v| == Pow2(n)
    ensures Apply(k, Apply(l, v)) == Apply(l, Apply(k, v))
  {
    ApartParts(k, l);
    forall i | 0 <= i < |v|
      ensures Amp(k, Apply(l, v), i) == Amp(l, Apply(k, v), i)
    {
      if !Active(i, l.controls) {
        CommuteIdle(k, l, v, n, i);
      } else if !Active(i, k.controls) {
        CommuteIdle(l, k, v, n, i);
      } else {
        CommuteActive(k, l, v, n, i);
      }
    }
  }
}
