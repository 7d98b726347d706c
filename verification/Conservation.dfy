/** Every operation of the simulator preserves the total squared norm of the state. */
module Conservation {
  import opened Bits
  import opened Complex
  import opened Trigonometry
  import opened Circuits
  import opened Kernels
  import opened Gates
  import opened Blocks
  import opened QasmStatements
  import opened Decompositions
  import SimulationControlled

  /** The squared moduli of the amplitudes. */
  function Weights(v: Vec): (w: seq<real>)
    ensures |w| == |v| && forall i :: 0 <= i < |v| ==> w[i] == Norm2(v[i])
  {
    seq(|v|, (i: nat) requires i < |v| => Norm2(v[i]))
  }

  function Norm(v: Vec): real {
    Total(Weights(v))
  }

  // ----- sums over all basis indices, regrouped by one bit

  function Flip(i: nat, t: nat): nat {
    Set(i, t, !Bit(i, t))
  }

  lemma FlipParts(k: nat, t: nat)
    ensures t == 0 ==> Flip(2 * k, t) == 2 * k + 1 && Flip(2 * k + 1, t) == 2 * k
    ensures t > 0 ==> Flip(2 * k, t) == 2 * Flip(k, t - 1) && Flip(2 * k + 1, t) == 2 * Flip(k, t - 1) + 1
  {
    assert 2 * k / 2 == k == (2 * k + 1) / 2 && 2 * k % 2 == 0 && (2 * k + 1) % 2 == 1;
  }

  lemma FlipRange(i: nat, t: nat, n: nat)
    requires i < Pow2(n) && t < n
    ensures Flip(i, t) < Pow2(n)
  {
    SetRange(i, t, !Bit(i, t), n);
  }

  function Evens(s: seq<real>): (r: seq<real>)
    ensures |r| == (|s| + 1) / 2 && forall k :: 0 <= k < |r| ==> r[k] == s[2 * k]
  {
    seq((|s| + 1) / 2, (k: nat) requires 2 * k < |s| => s[2 * k])
  }

  function Odds(s: seq<real>): (r: seq<real>)
    ensures |r| == |s| / 2 && forall k :: 0 <= k < |r| ==> r[k] == s[2 * k + 1]
  {
    seq(|s| / 2, (k: nat) requires 2 * k + 1 < |s| => s[2 * k + 1])
  }

  /** Splitting a sum by the lowest bit. */
  lemma {:induction false} EvenOdd(s: seq<real>)
    requires |s| % 2 == 0
    ensures Total(s) == Total(Evens(s)) + Total(Odds(s))
  {
    if s != [] {
      var n := |s|;
      var shorter := s[..n - 2];
      EvenOdd(shorter);
      assert s[..n - 1][..n - 2] == shorter;
      assert Total(s) == Total(shorter) + s[n - 2] + s[n - 1];
      EvensShorter(s);
    }
  }

  lemma EvensShorter(s: seq<real>)
    requires |s| % 2 == 0 && s != []
    ensures var n := |s|;
      && Total(Evens(s)) == Total(Evens(s[..n - 2])) + s[n - 2]
      && Total(Odds(s)) == Total(Odds(s[..n - 2])) + s[n - 1]
  {
    hide Total, Evens, Odds;
    var n := |s|;
    var shorter := s[..n - 2];
    assert Evens(s) == Evens(shorter) + [s[n - 2]] && Odds(s) == Odds(shorter) + [s[n - 1]];
    TotalSnoc(Evens(shorter), s[n - 2]);
    TotalSnoc(Odds(shorter), s[n - 1]);
  }

  /** `s` listed by the index with bit `t` flipped. */
  function FlipSeq(s: seq<real>, t: nat): (r: seq<real>)
    ensures |r| == |s|
  {
    seq(|s|, (i: nat) => if Flip(i, t) < |s| then s[Flip(i, t)] else 0.0)
  }

  lemma FlippedHalves(n: nat, t: nat, s: seq<real>)
    requires t < n && |s| == Pow2(n)
    ensures |s| % 2 == 0 && |Evens(s)| == |Odds(s)| == Pow2(n - 1)
    ensures t == 0 ==> Evens(FlipSeq(s, t)) == Odds(s) && Odds(FlipSeq(s, t)) == Evens(s)
    ensures t > 0 ==> Evens(FlipSeq(s, t)) == FlipSeq(Evens(s), t - 1) && Odds(FlipSeq(s, t)) == FlipSeq(Odds(s), t - 1)
  {
    var m := Pow2(n - 1);
    assert |s| == 2 * m;
    hide Flip, FlipSeq, Evens, Odds, Pow2;
    forall k: nat | k < m
      ensures t == 0 ==> Evens(FlipSeq(s, t))[k] == Odds(s)[k] && Odds(FlipSeq(s, t))[k] == Evens(s)[k]
      ensures t > 0 ==>
        Evens(FlipSeq(s, t))[k] == FlipSeq(Evens(s), t - 1)[k] && Odds(FlipSeq(s, t))[k] == FlipSeq(Odds(s), t - 1)[k]
    {
      FlippedEntry(t, s, m, k);
    }
  }

  lemma FlippedEntry(t: nat, s: seq<real>, m: nat, k: nat)
    requires |s| == 2 * m && k < m
    ensures t == 0 ==> FlipSeq(s, t)[2 * k] == s[2 * k + 1] && FlipSeq(s, t)[2 * k + 1] == s[2 * k]
    ensures t > 0 ==>
      FlipSeq(s, t)[2 * k] == FlipSeq(Evens(s), t - 1)[k] && FlipSeq(s, t)[2 * k + 1] == FlipSeq(Odds(s), t - 1)[k]
  {
    hide Flip;
    FlipParts(k, t);
  }

  /** Flipping one bit of the index permutes the terms of the sum. */
  lemma {:induction false} FlipSum(n: nat, t: nat, s: seq<real>)
    requires t < n && |s| == Pow2(n)
    ensures Total(FlipSeq(s, t)) == Total(s)
    decreases n
  {
    if t != 0 {
      FlipSum(n - 1, t - 1, Evens(s));
      FlipSum(n - 1, t - 1, Odds(s));
    }
    FlipStep(n, t, s);
  }

  lemma FlipStep(n: nat, t: nat, s: seq<real>)
    requires t < n && |s| == Pow2(n)
    requires t != 0 ==>
      Total(FlipSeq(Evens(s), t - 1)) == Total(Evens(s)) && Total(FlipSeq(Odds(s), t - 1)) == Total(Odds(s))
    ensures Total(FlipSeq(s, t)) == Total(s)
  {
    FlippedHalves(n, t, s);
    hide Total, FlipSeq, Evens, Odds, Pow2;
    EvenOdd(s);
    EvenOdd(FlipSeq(s, t));
  }

  function Elem(s: seq<real>, i: nat): real {
    if i < |s| then s[i] else 0.0
  }

  /** For every index, the sum over the two indices that differ from it at most in bit `t`. */
  function PairSums(s: seq<real>, t: nat): (r: seq<real>)
    ensures |r| == |s| && forall i :: 0 <= i < |s| ==> r[i] == Elem(s, Set(i, t, false)) + Elem(s, Set(i, t, true))
  {
    seq(|s|, (i: nat) => Elem(s, Set(i, t, false)) + Elem(s, Set(i, t, true)))
  }

  lemma PairSum(s: seq<real>, n: nat, t: nat)
    requires t < n && |s| == Pow2(n)
    ensures Total(PairSums(s, t)) == 2.0 * Total(s)
  {
    hide Bit, Set, Pow2, Total;
    var r := FlipSeq(s, t);
    FlipSum(n, t, s);
    forall i | 0 <= i < |s| ensures PairSums(s, t)[i] == s[i] + r[i] {
      FlipRange(i, t, n);
      assert Set(i, t, Bit(i, t)) == i;
    }
    TotalPlus(s, r, PairSums(s, t));
  }

  function PairWeight(p: Pair2): real { Norm2(p.lo) + Norm2(p.hi) }

  lemma WeightOf(v: Vec, i: nat)
    ensures Elem(Weights(v), i) == Norm2(At(v, i))
  {}

  /** Two states whose pairs weigh the same have the same norm. */
  lemma SamePairWeights(v: Vec, w: Vec, n: nat, t: nat)
    requires t < n && |v| == |w| == Pow2(n)
    requires forall i: nat :: i < |v| ==> PairWeight(PairAt(v, i, t)) == PairWeight(PairAt(w, i, t))
    ensures Norm(v) == Norm(w)
  {
    hide Pow2, Total, Set, Weights;
    PairSum(Weights(v), n, t);
    PairSum(Weights(w), n, t);
    forall i | 0 <= i < |v| ensures PairSums(Weights(v), t)[i] == PairSums(Weights(w), t)[i] {
      WeightOf(v, Set(i, t, false));
      WeightOf(v, Set(i, t, true));
      WeightOf(w, Set(i, t, false));
      WeightOf(w, Set(i, t, true));
      assert PairWeight(PairAt(v, i, t)) == PairWeight(PairAt(w, i, t));
    }
    assert PairSums(Weights(v), t) == PairSums(Weights(w), t);
  }

  function QuadWeight(q: Quad): real { Norm2(q.v00) + Norm2(q.v01) + (Norm2(q.v10) + Norm2(q.v11)) }

  lemma QuadSums(v: Vec, n: nat, a: nat, b: nat, i: nat)
    requires a < n && b < n && i < |v| == Pow2(n)
    ensures PairSums(PairSums(Weights(v), b), a)[i] == QuadWeight(QuadAt(v, i, a, b))
  {
    hide Pow2, Set, Norm2, Weights;
    forall x: bool ensures Set(i, a, x) < |v| { SetRange(i, a, x, n); }
    forall x: bool, y: bool ensures Elem(Weights(v), Corner(i, a, b, x, y)) == Norm2(At(v, Corner(i, a, b, x, y))) {
      WeightOf(v, Corner(i, a, b, x, y));
    }
  }

  /** Two states whose quadruples weigh the same have the same norm. */
  lemma SameQuadWeights(v: Vec, w: Vec, n: nat, a: nat, b: nat)
    requires a < n && b < n && |v| == |w| == Pow2(n)
    requires forall i: nat :: i < |v| ==> QuadWeight(QuadAt(v, i, a, b)) == QuadWeight(QuadAt(w, i, a, b))
    ensures Norm(v) == Norm(w)
  {
    hide Pow2, Total, Set, Weights, QuadWeight, QuadAt, PairSums;
    PairSum(Weights(v), n, b);
    PairSum(Weights(w), n, b);
    PairSum(PairSums(Weights(v), b), n, a);
    PairSum(PairSums(Weights(w), b), n, a);
    var p, q := PairSums(PairSums(Weights(v), b), a), PairSums(PairSums(Weights(w), b), a);
    forall i | 0 <= i < |v| ensures p[i] == q[i] {
      QuadSums(v, n, a, b, i);
      QuadSums(w, n, a, b, i);
    }
    assert p == q;
  }

  // ----- isometric 2x2 matrices

  function Overlap(a: C, b: C): C { Mul(Conj(a), b) }

  predicate Isometric(m: Rows) {
    && Two(m)
    && Norm2(m[0][0]) + Norm2(m[1][0]) == 1.0 && Norm2(m[0][1]) + Norm2(m[1][1]) == 1.0
    && Plus(Overlap(m[0][0], m[0][1]), Overlap(m[1][0], m[1][1])) == ZERO
  }

  lemma NormPlus(a: C, b: C)
    ensures Norm2(Plus(a, b)) == Norm2(a) + Norm2(b) + 2.0 * Overlap(a, b).re
  {}

  lemma OverlapMul(x: C, y: C, p: C, q: C)
    ensures Overlap(Mul(x, p), Mul(y, q)) == Mul(Overlap(x, y), Overlap(p, q))
  {
    assert Conj(Mul(x, p)) == Mul(Conj(x), Conj(p));
    hide Mul;
    MulAssoc(Conj(x), Conj(p), Mul(y, q));
    MulSwap(Conj(p), y, q);
    MulAssoc(Conj(x), y, Mul(Conj(p), q));
  }

  lemma MixWeight(x: C, y: C, p: C, q: C)
    ensures Norm2(MixTwo([x, y], p, q)) ==
            Norm2(x) * Norm2(p) + Norm2(y) * Norm2(q) + 2.0 * Mul(Overlap(x, y), Overlap(p, q)).re
  {
    hide Mul, Norm2, Overlap, Plus;
    NormPlus(Mul(x, p), Mul(y, q));
    NormMul(x, p);
    NormMul(y, q);
    OverlapMul(x, y, p, q);
  }

  lemma IsometryKeepsWeight(m: Rows, p: C, q: C)
    requires Isometric(m)
    ensures Norm2(MixTwo(m[0], p, q)) + Norm2(MixTwo(m[1], p, q)) == Norm2(p) + Norm2(q)
  {
    hide Norm2, Overlap, MixTwo;
    var a, b, c, d := m[0][0], m[0][1], m[1][0], m[1][1];
    assert m[0] == [a, b] && m[1] == [c, d];
    MixWeight(a, b, p, q);
    MixWeight(c, d, p, q);
    WeightAlgebra(Norm2(a), Norm2(c), Norm2(b), Norm2(d), Norm2(p), Norm2(q));
    CrossCancels(Overlap(a, b), Overlap(c, d), Overlap(p, q));
  }

  lemma WeightAlgebra(a: real, c: real, b: real, d: real, p: real, q: real)
    requires a + c == 1.0 && b + d == 1.0
    ensures a * p + b * q + (c * p + d * q) == p + q
  {
    assert a * p + c * p == (a + c) * p && b * q + d * q == (b + d) * q;
  }

  lemma CrossCancels(x: C, y: C, o: C)
    requires Plus(x, y) == ZERO
    ensures Mul(x, o).re + Mul(y, o).re == 0.0
  {
    assert y == Neg(x);
  }

  /** A controlled isometry on one target preserves the norm. */
  lemma OneTargetNorm(v: Vec, n: nat, controls: seq<nat>, t: nat, m: Rows)
    requires Isometric(m) && t < n && t !in controls && |v| == Pow2(n)
    ensures Norm(Apply(Kernel(controls, [t], m), v)) == Norm(v)
  {
    hide Apply, Pow2, Norm, Isometric, MixTwo, Norm2, PairAt, Active;
    var w := Apply(Kernel(controls, [t], m), v);
    assert Two(m) by { IsometricShape(m); }
    forall i: nat | i < |v| ensures PairWeight(PairAt(v, i, t)) == PairWeight(PairAt(w, i, t)) {
      ControlledOnPair(v, n, i, controls, t, m);
      IsometryKeepsWeight(m, PairAt(v, i, t).lo, PairAt(v, i, t).hi);
    }
    SamePairWeights(v, w, n, t);
  }

  lemma IsometricShape(m: Rows)
    requires Isometric(m)
    ensures Two(m)
  {}

  // ----- the matrices of the gates

  lemma Entries(a: C, b: C, c: C, d: C)
    requires Norm2(a) + Norm2(c) == 1.0 && Norm2(b) + Norm2(d) == 1.0 && Plus(Overlap(a, b), Overlap(c, d)) == ZERO
    ensures Isometric([[a, b], [c, d]])
  {
    hide Norm2, Overlap, Plus;
    var m := [[a, b], [c, d]];
    assert m[0][0] == a && m[0][1] == b && m[1][0] == c && m[1][1] == d;
  }

  /** The same with the conditions spelled out on the real and imaginary parts. */
  lemma EntriesParts(a: C, b: C, c: C, d: C)
    requires a.re * a.re + a.im * a.im + (c.re * c.re + c.im * c.im) == 1.0
    requires b.re * b.re + b.im * b.im + (d.re * d.re + d.im * d.im) == 1.0
    requires a.re * b.re + a.im * b.im + (c.re * d.re + c.im * d.im) == 0.0
    requires a.re * b.im - a.im * b.re + (c.re * d.im - c.im * d.re) == 0.0
    ensures Isometric([[a, b], [c, d]])
  {
    Entries(a, b, c, d);
  }

  lemma UnitPhaseIsometric(z: C)
    requires Norm2(z) == 1.0
    ensures Isometric(PhaseRows(z))
  {
    hide Isometric;
    EntriesParts(ONE, ZERO, ZERO, z);
  }

  lemma PauliIsometric()
    ensures Isometric(X_ROWS) && Isometric(Y_ROWS) && Isometric(Z_ROWS)
  {
    hide Isometric;
    EntriesParts(ZERO, ONE, ONE, ZERO);
    EntriesParts(ZERO, C(0.0, -1.0), C(0.0, 1.0), ZERO);
    EntriesParts(ONE, ZERO, ZERO, Real(-1.0));
  }

  lemma HadamardIsometric(t: Trig)
    requires Exact(t)
    ensures Isometric(HRows(t))
    ensures Isometric([[Real(R(t)), Real(-1.0 / t.sqrt2)], [Real(R(t)), Real(R(t))]])
  {
    Half(t);
    var r := R(t);
    assert -1.0 / t.sqrt2 == -r;
    hide Exact, Isometric, R;
    EntriesParts(Real(r), Real(r), Real(r), Real(-r));
    EntriesParts(Real(r), Real(-r), Real(r), Real(r));
  }

  lemma RootsIsometric()
    ensures Isometric([[ONE, ZERO], [ZERO, ONE]])
    ensures Isometric([[C(0.5, 0.5), C(0.5, -0.5)], [C(0.5, -0.5), C(0.5, 0.5)]])
  {
    hide Isometric;
    EntriesParts(ONE, ZERO, ZERO, ONE);
    EntriesParts(C(0.5, 0.5), C(0.5, -0.5), C(0.5, -0.5), C(0.5, 0.5));
  }

  lemma FixedIsometric(t: Trig, g: GateName, params: seq<real>)
    requires Exact(t) && g in {I, X, Y, Z, H, SX, SY, S, SDG, T, TDG}
    ensures Isometric(MatrixForGate(t, g, params))
  {
    hide Isometric, Exact, HRows, R, MatrixForSingleQubitParamGate;
    PauliIsometric();
    HadamardIsometric(t);
    RootsIsometric();
    CisNorm(t, t.pi / 4.0);
    CisNorm(t, -t.pi / 4.0);
    UnitPhaseIsometric(C(0.0, 1.0));
    UnitPhaseIsometric(C(0.0, -1.0));
    UnitPhaseIsometric(Cis(t, t.pi / 4.0));
    UnitPhaseIsometric(Cis(t, -t.pi / 4.0));
  }

  lemma RotationRows(t: Trig, params: seq<real>)
    ensures var theta := Param(params, 0); var c, s := t.cos(theta / 2.0), t.sin(theta / 2.0);
      && MatrixForGate(t, RX, params) == [[Real(c), C(0.0, -s)], [C(0.0, -s), Real(c)]]
      && MatrixForGate(t, RY, params) == [[Real(c), Real(-s)], [Real(s), Real(c)]]
      && MatrixForGate(t, RZ, params) == [[Cis(t, -theta / 2.0), ZERO], [ZERO, Cis(t, theta / 2.0)]]
      && MatrixForGate(t, P, params) == [[ONE, ZERO], [ZERO, Cis(t, theta)]]
  {}

  lemma RealRotationIsometric(c: real, s: real)
    requires c * c + s * s == 1.0
    ensures Isometric([[Real(c), C(0.0, -s)], [C(0.0, -s), Real(c)]])
    ensures Isometric([[Real(c), Real(-s)], [Real(s), Real(c)]])
  {
    hide Isometric;
    Entries(Real(c), C(0.0, -s), C(0.0, -s), Real(c));
    Entries(Real(c), Real(-s), Real(s), Real(c));
  }

  lemma NothingOverlaps(a: C)
    ensures Overlap(a, ZERO) == ZERO == Overlap(ZERO, a) && Norm2(ZERO) == 0.0 && Plus(ZERO, ZERO) == ZERO
  {}

  lemma PhasesIsometric(a: C, b: C)
    requires Norm2(a) == 1.0 && Norm2(b) == 1.0
    ensures Isometric([[a, ZERO], [ZERO, b]])
  {
    hide Isometric, Norm2, Overlap, Plus;
    NothingOverlaps(a);
    NothingOverlaps(b);
    Entries(a, ZERO, ZERO, b);
  }

  lemma UIsometric(t: Trig, params: seq<real>)
    requires Exact(t)
    ensures Isometric(MatrixForGate(t, U, params))
  {
    hide Exact, Isometric, UMatrix;
    var theta, phi, lam := Param(params, 0), Param(params, 1), Param(params, 2);
    CisNorm(t, theta / 2.0);
    CisNorm(t, phi);
    CisNorm(t, lam);
    CisSum(t, phi, lam);
    UAlgebra(t.cos(theta / 2.0), t.sin(theta / 2.0), Cis(t, phi), Cis(t, lam));
    URows(t, theta, phi, lam);
  }

  lemma RotationIsometric(t: Trig, g: GateName, params: seq<real>)
    requires Exact(t) && g in {RX, RY, RZ, P, U}
    ensures Isometric(MatrixForGate(t, g, params))
  {
    hide Exact, Isometric, MatrixForGate;
    var theta := Param(params, 0);
    RotationRows(t, params);
    CisNorm(t, theta / 2.0);
    CisNorm(t, -theta / 2.0);
    CisNorm(t, theta);
    RealRotationIsometric(t.cos(theta / 2.0), t.sin(theta / 2.0));
    PhasesIsometric(Cis(t, -theta / 2.0), Cis(t, theta / 2.0));
    PhasesIsometric(ONE, Cis(t, theta));
    UIsometric(t, params);
  }

  lemma UAlgebra(c: real, s: real, e: C, f: C)
    requires c * c + s * s == 1.0 && Norm2(e) == 1.0 && Norm2(f) == 1.0
    ensures Isometric([[Real(c), Scale(-s, f)], [Scale(s, e), Scale(c, Mul(e, f))]])
  {
    hide Isometric, Norm2, Scale, Mul, Overlap, Plus, Real;
    UnitScale(s, e);
    UnitScale(-s, f);
    UnitMul(e, f);
    UnitScale(c, Mul(e, f));
    NormReal(c);
    var y := s * c;
    NegativeOverlap(c, s, y, f);
    assert Overlap(Scale(s, e), Scale(c, Mul(e, f))) == Scale(y, f) by { UnitOverlap(s, c, e, f); }
    OppositeScales(-y, y, f);
    assert (-s) * (-s) == s * s;
    Entries(Real(c), Scale(-s, f), Scale(s, e), Scale(c, Mul(e, f)));
  }

  lemma UnitScale(x: real, a: C)
    requires Norm2(a) == 1.0
    ensures Norm2(Scale(x, a)) == x * x
  {
    hide Norm2, Scale;
    NormScale(x, a);
  }

  lemma UnitMul(a: C, b: C)
    requires Norm2(a) == 1.0 && Norm2(b) == 1.0
    ensures Norm2(Mul(a, b)) == 1.0
  {
    hide Norm2, Mul;
    NormMul(a, b);
  }

  lemma NormReal(c: real)
    ensures Norm2(Real(c)) == c * c
  {}

  lemma OppositeScales(x: real, y: real, f: C)
    requires x == -y
    ensures Plus(Scale(x, f), Scale(y, f)) == ZERO
  {
    assert x * f.re == -(y * f.re) && x * f.im == -(y * f.im);
  }

  lemma NormScale(x: real, a: C)
    ensures Norm2(Scale(x, a)) == x * x * Norm2(a)
  {
    assert (x * a.re) * (x * a.re) == x * x * (a.re * a.re) && (x * a.im) * (x * a.im) == x * x * (a.im * a.im);
  }

  lemma NegativeOverlap(c: real, s: real, y: real, f: C)
    requires y == s * c
    ensures Overlap(Real(c), Scale(-s, f)) == Scale(-y, f)
  {
    assert c * (-s * f.re) == -y * f.re && c * (-s * f.im) == -y * f.im;
  }

  lemma UnitOverlap(s: real, c: real, e: C, f: C)
    requires Norm2(e) == 1.0
    ensures Overlap(Scale(s, e), Scale(c, Mul(e, f))) == Scale(s * c, f)
  {
    var g := Mul(e, f);
    assert Conj(Scale(s, e)) == Scale(s, Conj(e));
    hide Mul, Scale;
    MulScale(c, Scale(s, Conj(e)), g);
    ScaleMul(s, Conj(e), g);
    MulAssoc(Conj(e), e, f);
    ConjTimes(e);
    OneTimes(f);
    ScaleScale(c, s, f);
  }

  lemma ConjTimes(e: C)
    requires Norm2(e) == 1.0
    ensures Mul(Conj(e), e) == ONE
  {}

  lemma ScaleScale(c: real, s: real, f: C)
    ensures Scale(c, Scale(s, f)) == Scale(s * c, f)
  {
    assert c * (s * f.re) == s * c * f.re && c * (s * f.im) == s * c * f.im;
  }

  // ----- swaps

  lemma SwapOnQuad(v: Vec, n: nat, i: nat, controls: seq<nat>, a: nat, b: nat)
    requires a != b && a < n && b < n && a !in controls && b !in controls && i < |v| == Pow2(n)
    ensures var q, r := QuadAt(v, i, a, b), QuadAt(Apply(Kernel(controls, [b, a], SWAP_ROWS), v), i, a, b);
      r == if Active(i, controls) then Quad(q.v00, q.v10, q.v01, q.v11) else q
  {
    hide Apply, Bit, Set, Pow2, Corner, Active, SimulationControlled.Exchange;
    forall x: bool, y: bool
      ensures At(Apply(Kernel(controls, [b, a], SWAP_ROWS), v), Corner(i, a, b, x, y)) ==
              if Active(i, controls) then At(v, Corner(i, a, b, y, x)) else At(v, Corner(i, a, b, x, y))
    {
      SwapOnCorner(v, n, i, controls, a, b, x, y);
    }
  }

  lemma SwapOnCorner(v: Vec, n: nat, i: nat, controls: seq<nat>, a: nat, b: nat, x: bool, y: bool)
    requires a != b && a < n && b < n && a !in controls && b !in controls && i < |v| == Pow2(n)
    ensures At(Apply(Kernel(controls, [b, a], SWAP_ROWS), v), Corner(i, a, b, x, y)) ==
            if Active(i, controls) then At(v, Corner(i, a, b, y, x)) else At(v, Corner(i, a, b, x, y))
  {
    hide Bit, Set, Pow2, Active;
    var j := Corner(i, a, b, x, y);
    CornerLaws(i, a, b, x, y, n);
    CornerLaws(i, a, b, y, y, n);
    ActiveOfSet(i, a, x, controls);
    ActiveOfSet(Set(i, a, x), b, y, controls);
    if Active(i, controls) {
      SimulationControlled.SwapAt(v, controls, a, b, j);
      assert SimulationControlled.Exchange(j, a, b) == Corner(i, a, b, y, x);
    }
  }

  lemma SwapNorm(v: Vec, n: nat, controls: seq<nat>, a: nat, b: nat)
    requires a != b && a < n && b < n && a !in controls && b !in controls && |v| == Pow2(n)
    ensures Norm(Apply(Kernel(controls, [b, a], SWAP_ROWS), v)) == Norm(v)
  {
    hide Apply, Pow2, Norm, QuadAt, Active, Norm2;
    var w := Apply(Kernel(controls, [b, a], SWAP_ROWS), v);
    forall i: nat | i < |v| ensures QuadWeight(QuadAt(v, i, a, b)) == QuadWeight(QuadAt(w, i, a, b)) {
      SwapOnQuad(v, n, i, controls, a, b);
    }
    SameQuadWeights(v, w, n, a, b);
  }

  // ----- every operation

  lemma SimpleNorm(t: Trig, op: Operation, n: nat, v: Vec)
    requires Exact(t) && WellFormed(op, n) && Distinct(Qubits(op)) && |v| == Pow2(n)
    requires op.gate !in {M, SWAP, CSWAP, RXX, RYY, RZZ, RZX}
    ensures Norm(Denote(t, op, v)) == Norm(v)
  {
    hide Exact, Apply, Pow2, Norm, Isometric, MatrixForGate, HRows, Cis, PhaseRows;
    var q := op.targets[0];
    assert op.targets == [q] && Qubits(op)[0] == q;
    assert q !in op.controls by { TargetNotControl(op); }
    var m := KernelOf(t, op).rows;
    assert Isometric(m) by { SimpleIsometric(t, op); }
    OneTargetNorm(v, n, KernelOf(t, op).controls, q, m);
  }

  lemma TargetNotControl(op: Operation)
    requires Distinct(Qubits(op)) && |op.targets| >= 1
    ensures op.targets[0] !in op.controls
  {
    forall k | 0 <= k < |op.controls| ensures op.controls[k] != op.targets[0] {
      assert Qubits(op)[|op.targets| + k] == op.controls[k] && Qubits(op)[0] == op.targets[0];
    }
  }

  lemma SimpleIsometric(t: Trig, op: Operation)
    requires Exact(t) && op.gate !in {M, SWAP, CSWAP, RXX, RYY, RZZ, RZX}
    ensures Isometric(KernelOf(t, op).rows)
  {
    hide Exact, Isometric, MatrixForGate, HRows, Cis, PhaseRows;
    PauliIsometric();
    HadamardIsometric(t);
    var theta := Param(op.params, 0);
    assert Norm2(Cis(t, theta)) == 1.0 by { CisUnit(t, theta); }
    UnitPhaseIsometric(Cis(t, theta));
    if op.gate in {RX, RY, RZ, P, U} {
      RotationIsometric(t, op.gate, op.params);
    } else if op.gate in {I, X, Y, Z, H, SX, SY, S, SDG, T, TDG} {
      FixedIsometric(t, op.gate, op.params);
    }
  }

  /** A statement that is a one-target gate on qubits of the register. */
  predicate OneTarget(s: Stmt, n: nat) {
    var op := Meaning(s);
    WellFormed(op, n) && Distinct(Qubits(op)) && op.gate !in {M, SWAP, CSWAP, RXX, RYY, RZZ, RZX}
  }

  lemma {:induction false} StatementsNorm(t: Trig, stmts: seq<Stmt>, n: nat, v: Vec)
    requires Exact(t) && |v| == Pow2(n)
    requires forall k :: 0 <= k < |stmts| ==> OneTarget(stmts[k], n)
    ensures Norm(Execute(t, stmts, v)) == Norm(v)
  {
    hide Exact, Norm, Denote, Pow2, WellFormed, Distinct, Qubits, Meaning;
    if stmts != [] {
      SimpleNorm(t, Meaning(stmts[0]), n, v);
      StatementsNorm(t, stmts[1..], n, Denote(t, Meaning(stmts[0]), v));
    }
  }

  lemma PlainStatement(g: GateName, params: seq<real>, q: nat, n: nat)
    requires g in {H, S, SDG, RZ} && |params| == ParamCount(g) && q < n
    ensures OneTarget(GateStmt(g, params, [q]), n)
  {}

  lemma FlipStatement(a: nat, b: nat, n: nat)
    requires a != b && a < n && b < n
    ensures OneTarget(GateStmt(CX, [], [a, b]), n)
  {
    assert [a, b][..1] == [a] && [a, b][1..] == [b];
  }

  /** The statements of a two-qubit rotation are one-target gates. */
  lemma RotationStatements(pi: real, op: Operation, n: nat)
    requires WellFormed(op, n) && Distinct(Qubits(op)) && op.gate in {RXX, RYY, RZZ, RZX}
    ensures forall k :: 0 <= k < |Statements(pi, op)| ==> OneTarget(Statements(pi, op)[k], n)
  {
    hide OneTarget;
    var a, b, theta := op.targets[0], op.targets[1], op.params[0];
    assert Qubits(op)[0] == a && Qubits(op)[1] == b;
    FlipStatement(a, b, n);
    PlainStatement(RZ, [theta], b, n);
    PlainStatement(H, [], a, n);
    PlainStatement(H, [], b, n);
    PlainStatement(S, [], a, n);
    PlainStatement(S, [], b, n);
    PlainStatement(SDG, [], a, n);
    PlainStatement(SDG, [], b, n);
  }

  /** Every operation preserves the norm of every state. */
  lemma OperationNorm(t: Trig, op: Operation, n: nat, v: Vec)
    requires Exact(t) && WellFormed(op, n) && Distinct(Qubits(op)) && |v| == Pow2(n)
    ensures Norm(Denote(t, op, v)) == Norm(v)
  {
    hide Exact, Apply, Pow2, Norm, Statements, Execute;
    if op.gate in {SWAP, CSWAP} {
      var a, b := op.targets[0], op.targets[1];
      assert Qubits(op)[0] == a && Qubits(op)[1] == b;
      forall k | 0 <= k < |op.controls| ensures op.controls[k] != a && op.controls[k] != b {
        assert Qubits(op)[2 + k] == op.controls[k];
      }
      SwapNorm(v, n, KernelOf(t, op).controls, a, b);
    } else if op.gate in {RXX, RYY, RZZ, RZX} {
      StatementsPreserve(t, op, n, v);
      RotationStatements(t.pi, op, n);
      StatementsNorm(t, Statements(t.pi, op), n, v);
    } else if op.gate != M {
      SimpleNorm(t, op, n, v);
    }
  }

  lemma {:induction false} CircuitNorm(t: Trig, ops: seq<Operation>, n: nat, v: Vec)
    requires Exact(t) && |v| == Pow2(n) && forall op :: op in ops ==> WellFormed(op, n) && Distinct(Qubits(op))
    ensures Norm(DenoteAll(t, ops, v)) == Norm(v)
  {
    hide Exact, Norm, Denote, Pow2, WellFormed, Distinct;
    if ops != [] {
      OperationNorm(t, ops[0], n, v);
      CircuitNorm(t, ops[1..], n, Denote(t, ops[0], v));
    }
  }
}
