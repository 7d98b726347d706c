/** A Bloch vector lists the expectation values of the three Pauli gates. */
module PauliExpectations {
  import opened Bits
  import opened Complex
  import opened Trigonometry
  import opened Circuits
  import opened Kernels
  import opened Gates
  import opened Blocks
  import opened Decompositions
  import opened Conservation
  import opened Simulation

  datatype Axis = AxisX | AxisY | AxisZ

  function Component(a: Axis, b: BlochVector): real {
    match a
    case AxisX => b.x
    case AxisY => b.y
    case AxisZ => b.z
  }

  function Pauli(a: Axis): GateName {
    match a
    case AxisX => X
    case AxisY => Y
    case AxisZ => Z
  }

  function PauliRows(a: Axis): (m: Rows)
    ensures Two(m)
  {
    match a
    case AxisX => X_ROWS
    case AxisY => Y_ROWS
    case AxisZ => Z_ROWS
  }

  function Terms(v: Vec, w: Vec): (s: seq<real>)
    requires |v| == |w|
    ensures |s| == |v| && forall i :: 0 <= i < |s| ==> s[i] == Overlap(v[i], w[i]).re
  {
    seq(|v|, (i: nat) requires i < |v| => Overlap(v[i], w[i]).re)
  }

  /** The real part of the inner product of two states. */
  function Inner(v: Vec, w: Vec): real
    requires |v| == |w|
  {
    Total(Terms(v, w))
  }

  /** What one pair of amplitudes adds to a component. */
  function Contribution(a: Axis, lo: C, hi: C): real {
    match a
    case AxisX => 2.0 * Overlap(lo, hi).re
    case AxisY => 2.0 * Overlap(lo, hi).im
    case AxisZ => Norm2(lo) - Norm2(hi)
  }

  lemma FlipX(lo: C, hi: C)
    ensures Overlap(lo, hi).re + Overlap(hi, lo).re == 2.0 * Overlap(lo, hi).re
  {
    hide Overlap;
    OverlapParts(lo, hi);
    OverlapParts(hi, lo);
  }

  lemma FlipY(lo: C, hi: C)
    ensures Overlap(lo, C(hi.im, -hi.re)).re + Overlap(hi, C(-lo.im, lo.re)).re == 2.0 * Overlap(lo, hi).im
  {
    hide Overlap;
    OverlapParts(lo, hi);
    OverlapParts(lo, C(hi.im, -hi.re));
    OverlapParts(hi, C(-lo.im, lo.re));
  }

  lemma FlipZ(lo: C, hi: C)
    ensures Overlap(lo, lo).re + Overlap(hi, Neg(hi)).re == Norm2(lo) - Norm2(hi)
  {
    hide Overlap;
    OverlapParts(lo, lo);
    OverlapParts(hi, Neg(hi));
  }

  lemma PauliPair(a: Axis, p: Pair2)
    ensures var w := MixPair(PauliRows(a), p);
      (a == AxisX ==> w == Pair2(p.hi, p.lo))
      && (a == AxisY ==> w == Pair2(C(p.hi.im, -p.hi.re), C(-p.lo.im, p.lo.re)))
      && (a == AxisZ ==> w == Pair2(p.lo, Neg(p.hi)))
  {}

  lemma PauliContribution(a: Axis, p: Pair2)
    ensures var w := MixPair(PauliRows(a), p);
      Overlap(p.lo, w.lo).re + Overlap(p.hi, w.hi).re == Contribution(a, p.lo, p.hi)
  {
    hide Overlap, Norm2, MixPair;
    PauliPair(a, p);
    FlipX(p.lo, p.hi);
    FlipY(p.lo, p.hi);
    FlipZ(p.lo, p.hi);
  }

  lemma TermOf(v: Vec, w: Vec, i: nat)
    requires |v| == |w|
    ensures Elem(Terms(v, w), i) == Overlap(At(v, i), At(w, i)).re
  {}

  lemma LowTerm(a: Axis, v: Vec, w: Vec, n: nat, q: nat, i: nat)
    requires q < n && |v| == |w| == Pow2(n) && i < |v|
    requires PairAt(w, i, q) == MixPair(PauliRows(a), PairAt(v, i, q))
    ensures LowPairs(Terms(v, w), q)[i] == if Bit(i, q) then 0.0 else Contribution(a, At(v, i), At(v, Set(i, q, true)))
  {
    hide Bit, Set, Overlap, MixPair, Pow2, Contribution, Terms;
    TermOf(v, w, Set(i, q, false));
    TermOf(v, w, Set(i, q, true));
    PauliContribution(a, PairAt(v, i, q));
    assert !Bit(i, q) ==> Set(i, q, false) == i;
  }

  lemma {:induction false} LowTotal(a: Axis, v: Vec, low: seq<real>, q: nat, k: nat)
    requires k <= |low|
    requires forall i: nat :: i < |low| ==>
      low[i] == if Bit(i, q) then 0.0 else Contribution(a, At(v, i), At(v, Set(i, q, true)))
    ensures Total(low[..k]) == Component(a, BlochOf(HalfSums(v, q, k)))
  {
    hide Bit, Set, HalfSums, BlochOf, Contribution, Component;
    if k == 0 {
      NothingSummed(a, v, q);
    } else {
      LowTotal(a, v, low, q, k - 1);
      NextSum(a, v, q, k - 1);
      assert low[..k][..k - 1] == low[..k - 1];
    }
  }

  lemma NothingSummed(a: Axis, v: Vec, q: nat)
    ensures Component(a, BlochOf(HalfSums(v, q, 0))) == 0.0
  {}

  lemma NextSum(a: Axis, v: Vec, q: nat, k: nat)
    ensures Component(a, BlochOf(HalfSums(v, q, k + 1))) ==
      Component(a, BlochOf(HalfSums(v, q, k)))
          + if Bit(k, q) then 0.0 else Contribution(a, At(v, k), At(v, Set(k, q, true)))
  {
    hide Bit, Set, Overlap, Norm2;
  }

  /** Each component of a qubit's Bloch vector is the inner product of the state with the Pauli gate applied to it. */
  lemma BlochIsExpectation(t: Trig, a: Axis, v: Vec, n: nat, q: nat)
    requires q < n && |v| == Pow2(n)
    ensures |Denote(t, Operation("", Pauli(a), [q], [], [], 0), v)| == |v|
    ensures Component(a, BlochOf(HalfSums(v, q, Pow2(n)))) ==
            Inner(v, Denote(t, Operation("", Pauli(a), [q], [], [], 0), v))
  {
    hide Pow2, Apply, PairAt, MixPair, Contribution, HalfSums, BlochOf, Total, LowPairs, Terms, Active, Bit, Set;
    var w := Apply(Kernel([], [q], PauliRows(a)), v);
    PauliDenotes(t, a, q, v);
    var low := LowPairs(Terms(v, w), q);
    forall i: nat | i < |v|
      ensures low[i] == if Bit(i, q) then 0.0 else Contribution(a, At(v, i), At(v, Set(i, q, true)))
    {
      UncontrolledActive(i);
      ControlledOnPair(v, n, i, [], q, PauliRows(a));
      LowTerm(a, v, w, n, q, i);
    }
    LowTotal(a, v, low, q, |v|);
    LowPairsTotal(Terms(v, w), n, q);
    assert low[..|v|] == low;
  }

  /** The same, gate by gate, with the inner product written out. */
  lemma BlochExactly(t: Trig, v: Vec, n: nat, q: nat)
    requires q < n && |v| == Pow2(n)
    ensures var b := BlochOf(HalfSums(v, q, Pow2(n)));
      && b.x == Product(v, Denote(t, Operation("", X, [q], [], [], 0), v))
      && b.y == Product(v, Denote(t, Operation("", Y, [q], [], [], 0), v))
      && b.z == Product(v, Denote(t, Operation("", Z, [q], [], [], 0), v))
  {
    hide Pow2, Denote, HalfSums, BlochOf, Inner, Product;
    BlochIsExpectation(t, AxisX, v, n, q);
    BlochIsExpectation(t, AxisY, v, n, q);
    BlochIsExpectation(t, AxisZ, v, n, q);
    SameProduct(v, Denote(t, Operation("", X, [q], [], [], 0), v));
    SameProduct(v, Denote(t, Operation("", Y, [q], [], [], 0), v));
    SameProduct(v, Denote(t, Operation("", Z, [q], [], [], 0), v));
  }

  /** The real part of the sum of the products of conjugated first and plain second amplitudes. */
  function Product(v: Vec, w: Vec): real
    requires |v| == |w|
  {
    if v == [] then 0.0
    else
      var k := |v| - 1;
      Product(v[..k], w[..k]) + (v[k].re * w[k].re + v[k].im * w[k].im)
  }

  lemma {:induction false} SameProduct(v: Vec, w: Vec)
    requires |v| == |w|
    ensures Inner(v, w) == Product(v, w)
  {
    hide Overlap;
    if v != [] {
      var k := |v| - 1;
      SameProduct(v[..k], w[..k]);
      assert Terms(v, w)[..k] == Terms(v[..k], w[..k]);
      OverlapParts(v[k], w[k]);
    }
  }

  lemma PauliDenotes(t: Trig, a: Axis, q: nat, v: Vec)
    ensures Denote(t, Operation("", Pauli(a), [q], [], [], 0), v) == Apply(Kernel([], [q], PauliRows(a)), v)
  {
    hide Apply;
  }
}
