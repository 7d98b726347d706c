/**
 * In-place sweeps over a state vector: what a loop that overwrites amplitudes while it reads them has
 * done when it reaches a given basis index, and what its next iteration must do.
 */
module Sweeps {
  import opened Bits
  import opened Complex
  import opened Kernels

  /** The complex vector held in two arrays. */
  ghost function Amps(re: array<real>, im: array<real>): (v: Vec)
    requires re.Length == im.Length
    reads re, im
    ensures |v| == re.Length
    ensures forall j :: 0 <= j < |v| ==> v[j] == C(re[j], im[j])
  {
    seq(re.Length, (j: nat) requires j < re.Length reads re, im => C(re[j], im[j]))
  }

  ghost predicate Stores(re: array<real>, im: array<real>, n: nat) {
    re != im && re.Length == im.Length == Pow2(n)
  }

  /** Overwrite one amplitude. */
  method StoreAmplitude(re: array<real>, im: array<real>, i: nat, x: real, y: real)
    requires re != im && re.Length == im.Length && i < re.Length
    modifies re, im
    ensures Amps(re, im) == old(Amps(re, im))[i := C(x, y)]
  {
    re[i] := x;
    im[i] := y;
  }

  /** Exchange two amplitudes through temporaries, as the permuting kernels do. */
  method ExchangeAmplitudes(re: array<real>, im: array<real>, i: nat, j: nat)
    requires re != im && re.Length == im.Length && i < re.Length && j < re.Length
    modifies re, im
    ensures Amps(re, im) == old(Amps(re, im)[i := Amps(re, im)[j]][j := Amps(re, im)[i]])
  {
    var tempReal := re[i];
    var tempImag := im[i];
    re[i] := re[j];
    im[i] := im[j];
    re[j] := tempReal;
    im[j] := tempImag;
  }

  /**
   * The sweep handles index `j` together with its group, when it reaches the group's representative
   * `rep(j)`.  Before position `b` the vector holds the new amplitudes `w`, from there on the old ones `v`.
   */
  ghost predicate Swept(cur: Vec, v: Vec, w: Vec, rep: nat -> nat, b: nat) {
    && |cur| == |v| == |w|
    && forall j: nat :: j < |v| ==> cur[j] == if rep(j) < b then w[j] else v[j]
  }

  /** No index represented by `b` changes. */
  ghost predicate IdleStep(v: Vec, w: Vec, rep: nat -> nat, b: nat) {
    |v| == |w| && forall j: nat :: j < |v| && rep(j) == b ==> w[j] == v[j]
  }

  /** `b` represents exactly itself and `p`. */
  ghost predicate ExactPair(size: nat, rep: nat -> nat, b: nat, p: nat) {
    && b < size && p < size && p != b && rep(b) == b == rep(p)
    && forall j: nat :: j < size && rep(j) == b ==> j == b || j == p
  }

  lemma SweepStart(v: Vec, w: Vec, rep: nat -> nat)
    requires |v| == |w|
    ensures Swept(v, v, w, rep, 0)
  {}

  lemma SweepSkip(cur: Vec, v: Vec, w: Vec, rep: nat -> nat, b: nat)
    requires Swept(cur, v, w, rep, b)
    requires IdleStep(v, w, rep, b)
    ensures Swept(cur, v, w, rep, b + 1)
  {}

  lemma SweepPair(cur: Vec, v: Vec, w: Vec, rep: nat -> nat, b: nat, p: nat)
    requires Swept(cur, v, w, rep, b) && b < |v| && p < |v|
    requires ExactPair(|v|, rep, b, p)
    ensures p < |v| == |cur| == |w| && p != b && cur[b] == v[b] && cur[p] == v[p]
    ensures Swept(cur[b := w[b]][p := w[p]], v, w, rep, b + 1)
  {}

  lemma SweepOne(cur: Vec, v: Vec, w: Vec, b: nat)
    requires Swept(cur, v, w, Itself(), b) && b < |v|
    ensures |cur| == |v| == |w| && cur[b] == v[b]
    ensures Swept(cur[b := w[b]], v, w, Itself(), b + 1)
  {}

  lemma SweepGroup(cur: Vec, next: Vec, v: Vec, w: Vec, rep: nat -> nat, b: nat)
    requires Swept(cur, v, w, rep, b) && |next| == |v|
    requires forall j: nat :: j < |v| ==> next[j] == if rep(j) == b then w[j] else cur[j]
    ensures Swept(next, v, w, rep, b + 1)
  {}

  lemma SweepDone(cur: Vec, v: Vec, w: Vec, rep: nat -> nat)
    requires Swept(cur, v, w, rep, |v|)
    requires forall j: nat :: j < |v| ==> rep(j) < |v|
    ensures cur == w
  {}

  // ----- one target: pairs of indices that differ in bit `t`

  ghost function Lower(t: nat): nat -> nat {
    (j: nat) => Set(j, t, false)
  }

  lemma LowerLaws(t: nat, n: nat, b: nat)
    requires t < n && b < Pow2(n)
    ensures !Bit(b, t) ==> Lower(t)(b) == b && Lower(t)(Set(b, t, true)) == b && Set(b, t, true) < Pow2(n)
    ensures forall j: nat :: Lower(t)(j) == b ==> !Bit(b, t) && (j == b || j == Set(b, t, true))
    ensures forall j: nat :: j < Pow2(n) ==> Lower(t)(j) < Pow2(n)
  {
    SetSet(b, t, true, false);
    SetRange(b, t, true, n);
    forall j: nat | Lower(t)(j) == b
      ensures !Bit(b, t) && (j == b || j == Set(b, t, true))
    {
      SetSet(j, t, false, Bit(j, t));
    }
    forall j: nat | j < Pow2(n)
      ensures Lower(t)(j) < Pow2(n)
    {
      SetRange(j, t, false, n);
    }
  }

  /** The two amplitudes of a pair after a one-target kernel. */
  ghost predicate PairStep(k: Kernel, v: Vec, w: Vec, t: nat, b: nat, p: nat) {
    && |v| == |w| && ExactPair(|v|, Lower(t), b, p)
    && w[b] == Plus(Mul(Entry(k, 0, 0), v[b]), Mul(Entry(k, 0, 1), v[p]))
    && w[p] == Plus(Mul(Entry(k, 1, 0), v[b]), Mul(Entry(k, 1, 1), v[p]))
  }

  lemma OneTargetStep(k: Kernel, v: Vec, n: nat, t: nat, b: nat)
    requires k.targets == [t] && Fits(k, n) && |v| == Pow2(n) && b < |v|
    ensures var w := Apply(k, v);
      if And(b, Pow2(t)) != 0 || !Active(b, k.controls) then IdleStep(v, w, Lower(t), b)
      else PairStep(k, v, w, t, b, Or(b, Pow2(t)))
  {
    MaskLaws(b, t);
    assert Touched(k)[0] == t;
    LowerLaws(t, n, b);
    Amp1(k, v, b);
    if !Bit(b, t) {
      var p := Set(b, t, true);
      SetSet(b, t, true, false);
      SetSet(b, t, true, true);
      Amp1(k, v, p);
      forall c | c in k.controls
        ensures Bit(p, c) == Bit(b, c)
      {
        var x :| 0 <= x < |k.controls| && k.controls[x] == c;
        assert Touched(k)[x + 1] == c;
        BitOfSet(b, t, true, c);
      }
    }
  }

  // ----- diagonal sweeps: every index is its own group

  ghost function Itself(): nat -> nat {
    (j: nat) => j
  }

  lemma DiagonalStep(k: Kernel, v: Vec, t: nat, z: C, b: nat)
    requires k.targets == [t] && b < |v| && k.rows == [[ONE, ZERO], [ZERO, z]]
    ensures Apply(k, v)[b] == if Active(b, k.controls) && Bit(b, t) then Mul(z, v[b]) else v[b]
  {
    Amp1(k, v, b);
    if Active(b, k.controls) {
      var lo, hi := At(v, Set(b, t, false)), At(v, Set(b, t, true));
      if Bit(b, t) {
        assert Entry(k, 1, 0) == ZERO && Entry(k, 1, 1) == z && hi == v[b];
        Absorb(z, lo, hi);
      } else {
        assert Entry(k, 0, 0) == ONE && Entry(k, 0, 1) == ZERO && lo == v[b];
        Absorb(ONE, hi, lo);
      }
    }
  }

  lemma Absorb(z: C, a: C, b: C)
    ensures Plus(Mul(ZERO, a), Mul(z, b)) == Mul(z, b) == Plus(Mul(z, b), Mul(ZERO, a))
    ensures Mul(ONE, b) == b
  {}
}
