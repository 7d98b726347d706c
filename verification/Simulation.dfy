/** Running a circuit from the ground state, and reading probabilities and Bloch vectors off the result. */
module Simulation {
  import opened Bits
  import opened Complex
  import opened Trigonometry
  import opened Circuits
  import opened Kernels
  import opened Gates
  import opened Conservation
  import opened Sorting
  import opened OrderIndependence
  import opened Sweeps
  import SimulationCore

  datatype BlochVector = BlochVector(x: real, y: real, z: real)

  datatype Analysis = Analysis(probabilities: map<string, real>, blochVectors: seq<BlochVector>)

  datatype Outcome = Simulated(analysis: Analysis) | Rejected

  // ----- the state a circuit prepares

  function Ground(n: nat): (v: Vec)
    ensures |v| == Pow2(n) && forall i :: 0 <= i < |v| ==> v[i] == if i == 0 then ONE else ZERO
  {
    seq(Pow2(n), (i: nat) => if i == 0 then ONE else ZERO)
  }

  function ByLayer(): (Operation, Operation) -> bool {
    (a: Operation, b: Operation) => a.layer <= b.layer
  }

  /** The simulator sorts by layer only and keeps the given order within a layer. */
  function FinalState(t: Trig, model: Circuit): (v: Vec)
    ensures |v| == Pow2(model.numQubits)
  {
    DenoteAll(t, StableSort(model.operations, ByLayer()), Ground(model.numQubits))
  }

  lemma ByLayerSorts(ops: seq<Operation>)
    ensures LayerSorted(StableSort(ops, ByLayer()))
  {
    SortSorts(ops, ByLayer());
  }

  // ----- basis labels

  function ToBinary(i: nat): (s: string)
    ensures s != []
  {
    if i < 2 then [if i == 1 then '1' else '0'] else ToBinary(i / 2) + [if i % 2 == 1 then '1' else '0']
  }

  function Zeros(k: nat): (s: string)
    ensures |s| == k && forall c :: c in s ==> c == '0'
  {
    if k == 0 then "" else "0" + Zeros(k - 1)
  }

  function PadStart(s: string, width: nat): string {
    if |s| >= width then s else Zeros(width - |s|) + s
  }

  function ToBasisState(index: nat, n: nat): string {
    PadStart(ToBinary(index), n)
  }

  /** The number a string of binary digits denotes. */
  function FromBinary(s: string): nat {
    if s == [] then 0 else 2 * FromBinary(s[..|s| - 1]) + if s[|s| - 1] == '1' then 1 else 0
  }

  lemma {:induction false} BinaryValue(i: nat)
    ensures FromBinary(ToBinary(i)) == i
  {
    if i < 2 {
      assert ToBinary(i)[..0] == [];
    } else {
      BinaryValue(i / 2);
      assert ToBinary(i)[..|ToBinary(i)| - 1] == ToBinary(i / 2);
    }
  }

  lemma {:induction false} BinaryLength(i: nat, n: nat)
    requires i < Pow2(n) && n >= 1
    ensures |ToBinary(i)| <= n
  {
    if i >= 2 {
      assert n >= 2 by { assert Pow2(1) == 2 * Pow2(0); }
      BinaryLength(i / 2, n - 1);
    }
  }

  lemma {:induction false} PaddedValue(k: nat, s: string)
    ensures FromBinary(Zeros(k) + s) == FromBinary(s)
    decreases |s|, k
  {
    if s == [] {
      assert Zeros(k) + s == Zeros(k);
      ZerosValue(k);
    } else {
      var n := |s| - 1;
      assert (Zeros(k) + s)[..k + n] == Zeros(k) + s[..n];
      PaddedValue(k, s[..n]);
    }
  }

  lemma {:induction false} ZerosValue(k: nat)
    ensures FromBinary(Zeros(k)) == 0
  {
    if k != 0 {
      ZerosValue(k - 1);
      ZerosEnd(k - 1);
    }
  }

  lemma {:induction false} ZerosEnd(k: nat)
    ensures Zeros(k + 1) == Zeros(k) + "0"
  {
    if k != 0 {
      ZerosEnd(k - 1);
    }
  }

  /** A basis label has one character per qubit and determines its index. */
  lemma BasisStateLaws(i: nat, n: nat)
    requires 1 <= n && i < Pow2(n)
    ensures |ToBasisState(i, n)| == n && FromBinary(ToBasisState(i, n)) == i
  {
    BinaryLength(i, n);
    BinaryValue(i);
    PaddedValue(n - |ToBinary(i)|, ToBinary(i));
  }

  lemma {:induction false} BinaryDigit(i: nat, q: nat)
    ensures q < |ToBinary(i)| ==> ToBinary(i)[|ToBinary(i)| - 1 - q] == if i / Pow2(q) % 2 == 1 then '1' else '0'
    ensures q >= |ToBinary(i)| ==> i / Pow2(q) == 0
    decreases i, q
  {
    hide Pow2;
    assert Pow2(0) == 1 by { NoBits(); }
    if q == 0 {
      assert i / 1 == i;
    } else {
      PowNext(q - 1);
      HalfThenQuotient(i, Pow2(q - 1));
      if i >= 2 {
        BinaryDigit(i / 2, q - 1);
      } else {
        assert i / 2 == 0;
        NothingLeft(Pow2(q - 1));
      }
    }
  }

  lemma NoBits()
    ensures Pow2(0) == 1
  {}

  lemma PowNext(q: nat)
    ensures Pow2(q + 1) == 2 * Pow2(q)
  {}

  lemma NothingLeft(p: nat)
    requires p > 0
    ensures 0 / p == 0
  {}

  /** Character `n - 1 - q` of a label is the value of qubit `q`. */
  lemma LabelExactly(i: nat, n: nat, q: nat)
    requires 1 <= n && i < Pow2(n) && q < n
    ensures |ToBasisState(i, n)| == n
    ensures ToBasisState(i, n)[n - 1 - q] == if i / Pow2(q) % 2 == 1 then '1' else '0'
  {
    hide Pow2, ToBinary, Zeros;
    BinaryLength(i, n);
    BinaryDigit(i, q);
    var b := ToBinary(i);
    if q >= |b| {
      assert ToBasisState(i, n)[n - 1 - q] == Zeros(n - |b|)[n - 1 - q];
      assert Zeros(n - |b|)[n - 1 - q] in Zeros(n - |b|);
    }
  }

  // ----- probabilities

  ghost predicate Tabulates(p: map<string, real>, v: Vec, n: nat, k: nat)
    requires k <= |v|
  {
    && |p| == k
    && (forall i: nat :: i < k ==> ToBasisState(i, n) in p && p[ToBasisState(i, n)] == Norm2(v[i]))
    && (forall s :: s in p ==> FromBinary(s) < k && s == ToBasisState(FromBinary(s), n))
  }

  lemma TabulateNext(p: map<string, real>, v: Vec, n: nat, k: nat)
    requires 1 <= n && |v| == Pow2(n) && k < |v| && Tabulates(p, v, n, k)
    ensures Tabulates(p[ToBasisState(k, n) := Norm2(v[k])], v, n, k + 1)
  {
    hide ToBasisState, FromBinary, Norm2, Pow2;
    forall i: nat | i <= k ensures FromBinary(ToBasisState(i, n)) == i { BasisStateLaws(i, n); }
    assert ToBasisState(k, n) !in p;
  }

  /** One entry per basis state, `2^n` distinct labels, each with the squared modulus of its amplitude. */
  method BuildProbabilities(re: array<real>, im: array<real>, n: nat) returns (probabilities: map<string, real>)
    requires Stores(re, im, n) && 1 <= n
    ensures Tabulates(probabilities, Amps(re, im), n, Pow2(n))
  {
    var dimension := Pow2(n);
    ghost var v := Amps(re, im);
    probabilities := map[];
    TabulateNothing(v, n);
    hide *;
    for index := 0 to dimension
      invariant Tabulates(probabilities, v, n, index)
    {
      TabulateNext(probabilities, v, n, index);
      var probability := SquaredModulus(re, im, index);
      probabilities := probabilities[ToBasisState(index, n) := probability];
    }
  }

  method SquaredModulus(re: array<real>, im: array<real>, i: nat) returns (p: real)
    requires re.Length == im.Length && i < re.Length
    ensures p == Norm2(Amps(re, im)[i])
  {
    p := re[i] * re[i] + im[i] * im[i];
  }

  lemma TabulateNothing(v: Vec, n: nat)
    ensures Tabulates(map[], v, n, 0)
  {}

  /** The reported probabilities are non-negative and, for a normalised state, sum to one. */
  lemma ProbabilitiesSum(p: map<string, real>, v: Vec, n: nat)
    requires |v| == Pow2(n) && Tabulates(p, v, n, |v|) && Norm(v) == 1.0
    ensures IsDistribution(p, n)
  {
    hide ToBasisState, FromBinary, Pow2, Total;
    forall s | s in p ensures p[s] >= 0.0 { assert p[s] == Norm2(v[FromBinary(s)]); }
    var count := Pow2(n);
    forall i: nat | i < count ensures ToBasisState(i, n) in p {}
    assert seq(count, (i: nat) requires i < count && ToBasisState(i, n) in p => p[ToBasisState(i, n)]) == Weights(v);
  }

  /** One entry for every basis state of `n` qubits and no other, none negative, with sum 1. */
  ghost predicate IsDistribution(p: map<string, real>, n: nat) {
    var count := Pow2(n);
    && |p| == count
    && (forall s :: s in p ==> p[s] >= 0.0)
    && (forall i: nat :: i < count ==> ToBasisState(i, n) in p)
    && Total(seq(count, (i: nat) requires i < count && ToBasisState(i, n) in p => p[ToBasisState(i, n)])) == 1.0
  }

  // ----- Bloch vectors

  /** Overlap of the two halves of the state, and the weight of each half, over the first `k` indices. */
  datatype Sums = Sums(overlap: C, lower: real, upper: real)

  function HalfSums(v: Vec, q: nat, k: nat): Sums {
    if k == 0 then Sums(ZERO, 0.0, 0.0)
    else
      var s := HalfSums(v, q, k - 1);
      if Bit(k - 1, q) then s
      else
        var a, b := At(v, k - 1), At(v, Set(k - 1, q, true));
        Sums(Plus(s.overlap, Overlap(a, b)), s.lower + Norm2(a), s.upper + Norm2(b))
  }

  function BlochOf(s: Sums): BlochVector {
    BlochVector(2.0 * s.overlap.re, 2.0 * s.overlap.im, s.lower - s.upper)
  }

  function SquaredLength(b: BlochVector): real { b.x * b.x + b.y * b.y + b.z * b.z }

  /** |S + s|^2 <= (A + a)(B + b) when |S|^2 <= A B and |s|^2 = a b. */
  lemma CauchyStep(s: C, o: C, lower: real, upper: real, a: real, b: real)
    requires lower >= 0.0 && upper >= 0.0 && a >= 0.0 && b >= 0.0
    requires Norm2(s) <= lower * upper && Norm2(o) == a * b
    ensures Norm2(Plus(s, o)) <= (lower + a) * (upper + b)
  {
    var cross := Overlap(s, o).re;
    NormPlus(s, o);
    CrossSquare(s, o);
    hide Norm2, Plus, Overlap;
    CrossBound(cross, Norm2(s), lower, upper, a, b);
    Expand(lower, upper, a, b);
  }

  lemma CrossSquare(s: C, o: C)
    ensures Overlap(s, o).re * Overlap(s, o).re <= Norm2(s) * Norm2(o)
  {
    var z := Overlap(s, o);
    NormMul(Conj(s), o);
    assert Norm2(Conj(s)) == Norm2(s);
    hide Overlap;
    assert z.im * z.im >= 0.0;
  }

  lemma CrossBound(cross: real, ss: real, lower: real, upper: real, a: real, b: real)
    requires lower >= 0.0 && upper >= 0.0 && a >= 0.0 && b >= 0.0
    requires ss <= lower * upper && cross * cross <= ss * (a * b)
    ensures 2.0 * cross <= lower * b + a * upper
  {
    ProductSign(a, b);
    ProductSign(lower, b);
    ProductSign(a, upper);
    ProductBound(ss, lower * upper, a * b);
    assert lower * upper * (a * b) == (lower * b) * (a * upper);
    MeanBound(cross, lower * b, a * upper);
  }

  lemma Expand(lower: real, upper: real, a: real, b: real)
    ensures (lower + a) * (upper + b) == lower * upper + (lower * b + a * upper) + a * b
  {}

  lemma ProductSign(x: real, y: real)
    requires x >= 0.0 && y >= 0.0
    ensures x * y >= 0.0
  {}

  lemma ProductBound(x: real, y: real, z: real)
    requires x <= y && z >= 0.0
    ensures x * z <= y * z
  {}

  lemma SquareGrows(x: real, y: real)
    requires 0.0 <= x < y
    ensures x * x < y * y
  {
    assert y * (y - x) > 0.0 && x * (y - x) >= 0.0;
    assert y * y - x * x == y * (y - x) + x * (y - x);
  }

  /** A square below a product is below the square of the arithmetic mean. */
  lemma MeanBound(c: real, p: real, q: real)
    requires p >= 0.0 && q >= 0.0 && c * c <= p * q
    ensures 2.0 * c <= p + q
  {
    var d := p - q;
    assert (p + q) * (p + q) == d * d + 4.0 * (p * q);
    assert d * d >= 0.0;
    assert (2.0 * c) * (2.0 * c) == 4.0 * (c * c);
    if 2.0 * c > p + q {
      SquareGrows(p + q, 2.0 * c);
    }
  }

  lemma NormSign(a: C)
    ensures Norm2(a) >= 0.0
  {}

  lemma OverlapNorm(a: C, b: C)
    ensures Norm2(Overlap(a, b)) == Norm2(a) * Norm2(b)
  {
    NormMul(Conj(a), b);
    assert Norm2(Conj(a)) == Norm2(a);
  }

  /** Cauchy-Schwarz for the two halves of the state. */
  lemma {:induction false} HalfSumsBound(v: Vec, q: nat, k: nat)
    ensures var s := HalfSums(v, q, k);
      s.lower >= 0.0 && s.upper >= 0.0 && Norm2(s.overlap) <= s.lower * s.upper
  {
    hide Norm2, Overlap, Plus, Bit, Set;
    if k == 0 {
      assert Norm2(ZERO) == 0.0 by { NormZero(); }
    } else {
      HalfSumsBound(v, q, k - 1);
      var s := HalfSums(v, q, k - 1);
      var a, b := At(v, k - 1), At(v, Set(k - 1, q, true));
      NormSign(a);
      NormSign(b);
      OverlapNorm(a, b);
      CauchyStep(s.overlap, Overlap(a, b), s.lower, s.upper, Norm2(a), Norm2(b));
    }
  }

  lemma NormZero()
    ensures Norm2(ZERO) == 0.0
  {}

  /** Pair sums at the indices whose bit `q` is clear, zero elsewhere. */
  function LowPairs(s: seq<real>, q: nat): (r: seq<real>)
    ensures |r| == |s| && forall i :: 0 <= i < |s| ==> r[i] == if Bit(i, q) then 0.0 else PairSums(s, q)[i]
  {
    seq(|s|, (i: nat) requires i < |s| => if Bit(i, q) then 0.0 else PairSums(s, q)[i])
  }

  lemma LowPairsTotal(s: seq<real>, n: nat, q: nat)
    requires q < n && |s| == Pow2(n)
    ensures Total(LowPairs(s, q)) == Total(s)
  {
    hide Pow2, Total, Bit, Set;
    var low := LowPairs(s, q);
    var high := FlipSeq(low, q);
    FlipSum(n, q, low);
    forall i | 0 <= i < |s| ensures PairSums(s, q)[i] == low[i] + high[i] {
      FlipRange(i, q, n);
      SetSet(i, q, !Bit(i, q), false);
      SetSet(i, q, !Bit(i, q), true);
    }
    TotalPlus(low, high, PairSums(s, q));
    PairSum(s, n, q);
  }

  lemma {:induction false} HalfSumsTotal(v: Vec, q: nat, k: nat)
    requires k <= |v|
    ensures HalfSums(v, q, k).lower + HalfSums(v, q, k).upper == Total(LowPairs(Weights(v), q)[..k])
  {
    hide Bit, Set, Norm2;
    if k != 0 {
      HalfSumsTotal(v, q, k - 1);
      var low := LowPairs(Weights(v), q);
      assert low[..k][..k - 1] == low[..k - 1];
      WeightOf(v, Set(k - 1, q, false));
      WeightOf(v, Set(k - 1, q, true));
    }
  }

  /** No Bloch vector of a normalised state is longer than one. */
  lemma BlochBound(v: Vec, n: nat, q: nat)
    requires q < n && |v| == Pow2(n) && Norm(v) == 1.0
    ensures SquaredLength(BlochOf(HalfSums(v, q, Pow2(n)))) <= 1.0
  {
    hide HalfSums, LowPairs, Pow2, Total, Weights;
    var s := HalfSums(v, q, Pow2(n));
    HalfSumsBound(v, q, Pow2(n));
    HalfSumsTotal(v, q, Pow2(n));
    LowPairsTotal(Weights(v), n, q);
    var low := LowPairs(Weights(v), q);
    assert low[..|v|] == low;
    assert Norm2(s.overlap) == s.overlap.re * s.overlap.re + s.overlap.im * s.overlap.im;
    BlochAlgebra(s.overlap.re, s.overlap.im, s.lower, s.upper);
  }

  lemma BlochAlgebra(x: real, y: real, a: real, b: real)
    requires a + b == 1.0 && x * x + y * y <= a * b
    ensures (2.0 * x) * (2.0 * x) + (2.0 * y) * (2.0 * y) + (a - b) * (a - b) <= 1.0
  {
    assert (a + b) * (a + b) == (a - b) * (a - b) + 4.0 * (a * b);
  }

  method BuildBlochVectors(re: array<real>, im: array<real>, n: nat) returns (vectors: seq<BlochVector>)
    requires Stores(re, im, n)
    ensures |vectors| == n
    ensures forall q :: 0 <= q < n ==> vectors[q] == BlochOf(HalfSums(Amps(re, im), q, Pow2(n)))
  {
    var dimension := Pow2(n);
    vectors := [];
    hide Pow2, HalfSums, BlochOf, Amps;
    for qubit := 0 to n
      invariant |vectors| == qubit
      invariant forall q :: 0 <= q < qubit ==> vectors[q] == BlochOf(HalfSums(Amps(re, im), q, dimension))
    {
      var vector := BlochSum(re, im, n, qubit);
      vectors := vectors + [vector];
    }
  }

  lemma HalfSumsNext(v: Vec, q: nat, k: nat)
    ensures var b, c := BlochOf(HalfSums(v, q, k)), BlochOf(HalfSums(v, q, k + 1));
      if Bit(k, q) then c == b else c == BlochPlus(b, At(v, k), At(v, Set(k, q, true)))
  {
    hide Bit, Set, At, BlochOf;
    var s := HalfSums(v, q, k);
    if !Bit(k, q) {
      BlochPlusLaw(s, At(v, k), At(v, Set(k, q, true)));
    }
  }

  /** The contribution of one pair of amplitudes. */
  function BlochPlus(b: BlochVector, alpha: C, beta: C): BlochVector {
    BlochVector(b.x + 2.0 * (alpha.re * beta.re + alpha.im * beta.im),
                b.y + 2.0 * (alpha.re * beta.im - alpha.im * beta.re),
                b.z + (alpha.re * alpha.re + alpha.im * alpha.im - beta.re * beta.re - beta.im * beta.im))
  }

  lemma BlochPlusLaw(s: Sums, a: C, b: C)
    ensures BlochOf(Sums(Plus(s.overlap, Overlap(a, b)), s.lower + Norm2(a), s.upper + Norm2(b))) ==
            BlochPlus(BlochOf(s), a, b)
  {
    hide Overlap;
    OverlapParts(a, b);
  }

  lemma OverlapParts(a: C, b: C)
    ensures Overlap(a, b) == C(a.re * b.re + a.im * b.im, a.re * b.im - a.im * b.re)
  {}

  /** One index of the sum: skipped when its bit is set, paired with its upper partner otherwise. */
  method BlochStep(re: array<real>, im: array<real>, n: nat, qubit: nat, basis: nat, mask: nat, sum: BlochVector)
    returns (next: BlochVector)
    requires Stores(re, im, n) && qubit < n && basis < Pow2(n) && mask == Pow2(qubit)
    requires sum == BlochOf(HalfSums(Amps(re, im), qubit, basis))
    ensures next == BlochOf(HalfSums(Amps(re, im), qubit, basis + 1))
  {
    hide Set, Bit, HalfSums, Pow2, And, Or, BlochOf, BlochPlus;
    ghost var v := Amps(re, im);
    MaskLaws(basis, qubit);
    HalfSumsNext(v, qubit, basis);
    if And(basis, mask) != 0 {
      return sum;
    }
    var paired := Or(basis, mask);
    SetRange(basis, qubit, true, n);
    next := BlochPlus(sum, C(re[basis], im[basis]), C(re[paired], im[paired]));
  }

  /** The inner loop over the basis for one qubit. */
  method BlochSum(re: array<real>, im: array<real>, n: nat, qubit: nat) returns (vector: BlochVector)
    requires Stores(re, im, n) && qubit < n
    ensures vector == BlochOf(HalfSums(Amps(re, im), qubit, Pow2(n)))
  {
    hide Pow2, HalfSums, BlochOf;
    var dimension := Pow2(n);
    var mask := Pow2(qubit);
    vector := BlochVector(0.0, 0.0, 0.0);
    BlochStart(Amps(re, im), qubit);
    for basis := 0 to dimension
      invariant vector == BlochOf(HalfSums(Amps(re, im), qubit, basis))
    {
      vector := BlochStep(re, im, n, qubit, basis, mask, vector);
    }
  }

  lemma BlochStart(v: Vec, q: nat)
    ensures BlochVector(0.0, 0.0, 0.0) == BlochOf(HalfSums(v, q, 0))
  {}

  // ----- the simulator

  lemma GroundNorm(n: nat)
    ensures Norm(Ground(n)) == 1.0
  {
    hide Pow2, Total;
    GroundPrefix(n, Pow2(n));
    assert Weights(Ground(n))[..Pow2(n)] == Weights(Ground(n));
  }

  lemma {:induction false} GroundPrefix(n: nat, k: nat)
    requires 1 <= k <= Pow2(n)
    ensures Total(Weights(Ground(n))[..k]) == 1.0
  {
    hide Pow2;
    var w := Weights(Ground(n));
    if k == 1 {
      assert w[..1] == [] + [w[0]] && w[0] == 1.0;
      TotalSnoc([], w[0]);
    } else {
      GroundPrefix(n, k - 1);
      assert w[..k] == w[..k - 1] + [w[k - 1]] && w[k - 1] == 0.0;
      TotalSnoc(w[..k - 1], w[k - 1]);
    }
  }

  lemma FinalNorm(t: Trig, model: Circuit)
    requires Exact(t) && Proper(model.operations, model.numQubits)
    ensures Norm(FinalState(t, model)) == 1.0
  {
    hide WellFormed, Distinct;
    var ops := StableSort(model.operations, ByLayer());
    forall op | op in ops ensures op in model.operations { InMultiset(model.operations, ops, op); }
    GroundNorm(model.numQubits);
    CircuitNorm(t, ops, model.numQubits, Ground(model.numQubits));
  }

  method CreateStateVector(n: nat) returns (re: array<real>, im: array<real>)
    ensures fresh(re) && fresh(im) && Stores(re, im, n) && Amps(re, im) == Ground(n)
  {
    re := new real[Pow2(n)](_ => 0.0);
    im := new real[Pow2(n)](_ => 0.0);
    re[0] := 1.0;
  }

  /** Applying the operations one after the other in the two arrays leaves the final state there. */
  method Evolve(trig: Trig, model: Circuit) returns (re: array<real>, im: array<real>)
    requires Proper(model.operations, model.numQubits)
    ensures fresh(re) && fresh(im) && Stores(re, im, model.numQubits) && Amps(re, im) == FinalState(trig, model)
  {
    var n := model.numQubits;
    re, im := CreateStateVector(n);
    var operations := StableSort(model.operations, ByLayer());
    ghost var goal := FinalState(trig, model);
    assert goal == DenoteAll(trig, operations, Amps(re, im));
    hide Denote, WellFormed, Distinct, Pow2, Amps;
    for k := 0 to |operations|
      invariant Stores(re, im, n) && fresh(re) && fresh(im)
      invariant DenoteAll(trig, operations[k..], Amps(re, im)) == goal
    {
      InMultiset(model.operations, operations, operations[k]);
      assert operations[k..][1..] == operations[k + 1..];
      SimulationCore.ApplyOperation(trig, re, im, n, operations[k]);
    }
    assert operations[|operations|..] == [];
  }

  /** Operations that are listed by layer run in the given order, from the state whose first amplitude alone is 1. */
  lemma ListedRuns(t: Trig, model: Circuit)
    requires forall i, j :: 0 <= i < j < |model.operations| ==> model.operations[i].layer <= model.operations[j].layer
    ensures FinalState(t, model) ==
      DenoteAll(t, model.operations,
                seq(Pow2(model.numQubits), (i: nat) => if i == 0 then C(1.0, 0.0) else C(0.0, 0.0)))
  {
    hide Pow2, DenoteAll;
    SortFixed(model.operations, ByLayer());
    assert Ground(model.numQubits) ==
           seq(Pow2(model.numQubits), (i: nat) => if i == 0 then C(1.0, 0.0) else C(0.0, 0.0));
  }

  lemma TabulatedSquares(p: map<string, real>, v: Vec, n: nat)
    requires |v| == Pow2(n) && Tabulates(p, v, n, |v|)
    ensures |p| == |v| && forall i: nat :: i < |v| ==>
      ToBasisState(i, n) in p && p[ToBasisState(i, n)] == v[i].re * v[i].re + v[i].im * v[i].im
  {
    hide ToBasisState, Pow2;
  }

  /** What holds of the analysis of a normalised state. */
  lemma AnalysisLaws(a: Analysis, v: Vec, n: nat)
    requires |v| == Pow2(n) && Norm(v) == 1.0 && Tabulates(a.probabilities, v, n, |v|)
    requires |a.blochVectors| == n && forall q :: 0 <= q < n ==> a.blochVectors[q] == BlochOf(HalfSums(v, q, Pow2(n)))
    ensures IsDistribution(a.probabilities, n) && forall q :: 0 <= q < n ==> SquaredLength(a.blochVectors[q]) <= 1.0
  {
    hide Tabulates, IsDistribution, Norm, Pow2, HalfSums, BlochOf, SquaredLength;
    ProbabilitiesSum(a.probabilities, v, n);
    forall q | 0 <= q < n ensures SquaredLength(a.blochVectors[q]) <= 1.0 { BlochBound(v, n, q); }
  }

  /**
   * The analysis of a circuit: the squared moduli of its final state, and one Bloch vector per qubit.  With exact
   * trigonometry the probabilities sum to 1 and no Bloch vector is longer than 1.
   */
  method SimulateCircuitAnalysis(trig: Trig, model: Circuit) returns (r: Outcome)
    requires Proper(model.operations, model.numQubits)
    ensures r.Rejected? <==> model.numQubits < 1 || model.numQubits > 10
    ensures r.Simulated? ==> var v, n := FinalState(trig, model), model.numQubits;
      && Tabulates(r.analysis.probabilities, v, n, |v|)
      && |r.analysis.blochVectors| == n
      && forall q :: 0 <= q < n ==> r.analysis.blochVectors[q] == BlochOf(HalfSums(v, q, Pow2(n)))
    ensures r.Simulated? ==> var v, n := FinalState(trig, model), model.numQubits;
      && |r.analysis.probabilities| == |v| == Pow2(n)
      && forall i: nat :: i < |v| ==>
        ToBasisState(i, n) in r.analysis.probabilities
        && r.analysis.probabilities[ToBasisState(i, n)] == v[i].re * v[i].re + v[i].im * v[i].im
    ensures r.Simulated? && Exact(trig) ==>
      && IsDistribution(r.analysis.probabilities, model.numQubits)
      && forall q :: 0 <= q < model.numQubits ==> SquaredLength(r.analysis.blochVectors[q]) <= 1.0
  {
    hide Tabulates, IsDistribution, Norm, Pow2, HalfSums, BlochOf, SquaredLength, FinalState, Exact, Proper;
    if model.numQubits < 1 || model.numQubits > 10 {
      return Rejected;
    }
    var re, im := Evolve(trig, model);
    var probabilities := BuildProbabilities(re, im, model.numQubits);
    var blochVectors := BuildBlochVectors(re, im, model.numQubits);
    TabulatedSquares(probabilities, FinalState(trig, model), model.numQubits);
    if Exact(trig) {
      FinalNorm(trig, model);
      AnalysisLaws(Analysis(probabilities, blochVectors), FinalState(trig, model), model.numQubits);
    }
    return Simulated(Analysis(probabilities, blochVectors));
  }
}
