/** Every operation means the same as the statements it is printed as. */
module Decompositions {
  import opened Bits
  import opened Complex
  import opened Trigonometry
  import opened Circuits
  import opened Kernels
  import opened Gates
  import opened Blocks
  import opened QasmStatements

  /** Two Hadamards in one step: the amplitudes of a block summed with the four sign patterns. */
  function HalfSum(q: Quad): Quad {
    Quad(Scale(0.5, Plus(Plus(q.v00, q.v01), Plus(q.v10, q.v11))),
         Scale(0.5, Plus(Plus(q.v00, Neg(q.v01)), Plus(q.v10, Neg(q.v11)))),
         Scale(0.5, Plus(Plus(q.v00, q.v01), Neg(Plus(q.v10, q.v11)))),
         Scale(0.5, Plus(Plus(q.v00, Neg(q.v01)), Neg(Plus(q.v10, Neg(q.v11))))))
  }

  lemma HalfScale(r: real, x: real)
    requires r * r == 0.5
    ensures r * (r * x) == 0.5 * x
  {
    assert r * (r * x) == (r * r) * x;
  }

  lemma MixHadamard(t: Trig, p: C, q: C)
    ensures MixTwo(HRows(t)[0], p, q) == Scale(R(t), Plus(p, q))
    ensures MixTwo(HRows(t)[1], p, q) == Scale(R(t), Plus(p, Neg(q)))
  {
    assert -1.0 / t.sqrt2 == -R(t);
  }

  lemma TwiceScaled(r: real, p: C, q: C)
    requires r * r == 0.5
    ensures Scale(r, Plus(Scale(r, p), Scale(r, q))) == Scale(0.5, Plus(p, q))
    ensures Scale(r, Plus(Scale(r, p), Neg(Scale(r, q)))) == Scale(0.5, Plus(p, Neg(q)))
  {
    HalfScale(r, p.re);
    HalfScale(r, q.re);
    HalfScale(r, p.im);
    HalfScale(r, q.im);
  }

  lemma HadamardBoth(t: Trig, q: Quad)
    requires Exact(t)
    ensures OnSecond(HRows(t), OnFirst(HRows(t), q)) == HalfSum(q)
  {
    hide MixTwo, Exact, HRows, R;
    assert Two(HRows(t)) by { HadamardShape(t); }
    Half(t);
    var r := R(t);
    MixHadamard(t, q.v00, q.v10);
    MixHadamard(t, q.v01, q.v11);
    var p := OnFirst(HRows(t), q);
    MixHadamard(t, p.v00, p.v01);
    MixHadamard(t, p.v10, p.v11);
    TwiceScaled(r, Plus(q.v00, q.v10), Plus(q.v01, q.v11));
    TwiceScaled(r, Plus(q.v00, Neg(q.v10)), Plus(q.v01, Neg(q.v11)));
  }

  lemma HadamardShape(t: Trig)
    ensures Two(HRows(t))
  {}

  lemma HadamardsOnQuad(t: Trig, v: Vec, n: nat, i: nat, a: nat, b: nat)
    requires Exact(t) && a != b && a < n && b < n && i < |v| == Pow2(n)
    ensures QuadAt(Execute(t, [OneQubit(H, a), OneQubit(H, b)], v), i, a, b) == HalfSum(QuadAt(v, i, a, b))
  {
    hide QuadAt, Apply, Pow2, Mul, Plus, Denote, Meaning, MixTwo, Execute, OnFirst, OnSecond, HalfSum, Exact, HRows;
    HadamardShape(t);
    ExecuteTwo(t, OneQubit(H, a), OneQubit(H, b), v);
    OneQubitStmt(t, H, [], a, v);
    var v1 := Apply(Kernel([], [a], HRows(t)), v);
    OneQubitStmt(t, H, [], b, v1);
    FirstOnQuad(v, n, i, a, b, HRows(t));
    SecondOnQuad(v1, n, i, a, b, HRows(t));
    HadamardBoth(t, QuadAt(v, i, a, b));
  }

  // ----- the rotations about two qubits, on one block

  lemma HalfSumTwice(q: Quad)
    ensures HalfSum(HalfSum(q)) == q
  {}

  /** cos - i sin times the exchange of opposite corners. */
  function Crossed(c: real, s: real, q: Quad): Quad {
    Quad(Plus(Scale(c, q.v00), Turn(-s, q.v11)), Plus(Scale(c, q.v01), Turn(-s, q.v10)),
         Plus(Scale(c, q.v10), Turn(-s, q.v01)), Plus(Scale(c, q.v11), Turn(-s, q.v00)))
  }

  /** Multiplication by `x * i`. */
  function Turn(x: real, a: C): C { C(-x * a.im, x * a.re) }

  /** A phase on one corner of the sum. */
  lemma CornerPhase(c: real, s: real, p: C, q: C, r: C, w: C)
    ensures Mul(C(c, s), Scale(0.5, Plus(Plus(p, q), Plus(r, w)))) ==
            Scale(0.5, Plus(Plus(Plus(Scale(c, p), Turn(s, w)), Plus(Scale(c, q), Turn(s, r))),
                            Plus(Plus(Scale(c, r), Turn(s, q)), Plus(Scale(c, w), Turn(s, p)))))
  {
    var z := Plus(Plus(p, q), Plus(r, w));
    assert c * z.re == c * p.re + c * q.re + (c * r.re + c * w.re);
    assert c * z.im == c * p.im + c * q.im + (c * r.im + c * w.im);
    assert s * z.re == s * p.re + s * q.re + (s * r.re + s * w.re);
    assert s * z.im == s * p.im + s * q.im + (s * r.im + s * w.im);
    assert Mul(C(c, s), Scale(0.5, z)) == Scale(0.5, C(c * z.re - s * z.im, c * z.im + s * z.re)) by {
      HalfPhase(c, s, z);
    }
  }

  lemma HalfPhase(c: real, s: real, z: C)
    ensures Mul(C(c, s), Scale(0.5, z)) == Scale(0.5, C(c * z.re - s * z.im, c * z.im + s * z.re))
  {}

  lemma Signs(c: real, s: real, p: C, q: C)
    ensures Plus(Scale(c, Neg(p)), Turn(s, q)) == Neg(Plus(Scale(c, p), Turn(-s, q)))
    ensures Plus(Scale(c, p), Turn(s, Neg(q))) == Plus(Scale(c, p), Turn(-s, q))
    ensures Plus(Scale(c, Neg(p)), Turn(s, Neg(q))) == Neg(Plus(Scale(c, p), Turn(s, q)))
  {}

  lemma NegPlus(p: C, q: C)
    ensures Neg(Plus(p, q)) == Plus(Neg(p), Neg(q))
  {}

  lemma XxStepEven(c: real, s: real, q: Quad)
    ensures var l, r := ParityPhases(C(c, -s), C(c, s), HalfSum(q)), HalfSum(Crossed(c, s, q));
      l.v00 == r.v00 && l.v11 == r.v11
  {
    hide Mul, Scale, Plus, Turn, Neg;
    CornerPhase(c, -s, q.v00, q.v01, q.v10, q.v11);
    CornerPhase(c, -s, q.v00, Neg(q.v01), Neg(q.v10), q.v11);
    Signs(c, -s, q.v01, q.v10);
    Signs(c, -s, q.v10, q.v01);
    var x := Crossed(c, s, q);
    NegPlus(q.v10, Neg(q.v11));
    NegTwice(q.v11);
    NegPlus(x.v10, Neg(x.v11));
    NegTwice(x.v11);
  }

  lemma XxStepOdd(c: real, s: real, q: Quad)
    ensures var l, r := ParityPhases(C(c, -s), C(c, s), HalfSum(q)), HalfSum(Crossed(c, s, q));
      l.v01 == r.v01 && l.v10 == r.v10
  {
    hide Mul, Scale, Plus, Turn, Neg;
    CornerPhase(c, s, q.v00, Neg(q.v01), q.v10, Neg(q.v11));
    CornerPhase(c, s, q.v00, q.v01, Neg(q.v10), Neg(q.v11));
    Signs(c, s, q.v00, q.v11);
    Signs(c, s, q.v01, q.v10);
    Signs(c, s, q.v10, q.v01);
    Signs(c, s, q.v11, q.v00);
    var x := Crossed(c, s, q);
    NegPlus(q.v10, q.v11);
    NegPlus(x.v10, x.v11);
  }

  lemma XxStep(c: real, s: real, q: Quad)
    ensures ParityPhases(C(c, -s), C(c, s), HalfSum(q)) == HalfSum(Crossed(c, s, q))
  {
    hide ParityPhases, HalfSum, Crossed;
    XxStepEven(c, s, q);
    XxStepOdd(c, s, q);
  }

  lemma XxAlgebra(c: real, s: real, q: Quad)
    ensures HalfSum(ParityPhases(C(c, -s), C(c, s), HalfSum(q))) == Crossed(c, s, q)
  {
    hide HalfSum, Crossed, ParityPhases;
    XxStep(c, s, q);
    HalfSumTwice(Crossed(c, s, q));
  }

  /** The phase of S (`x == 1.0`) or of its inverse (`x == -1.0`) on both bits. */
  function PhaseBoth(x: real, q: Quad): Quad {
    Quad(q.v00, Turn(x, q.v01), Turn(x, q.v10), Neg(q.v11))
  }

  lemma YyAlgebra(c: real, s: real, q: Quad)
    ensures PhaseBoth(1.0, Crossed(c, s, PhaseBoth(-1.0, q))) ==
            Quad(Plus(Scale(c, q.v00), Turn(s, q.v11)), Plus(Scale(c, q.v01), Turn(-s, q.v10)),
                 Plus(Scale(c, q.v10), Turn(-s, q.v01)), Plus(Scale(c, q.v11), Turn(s, q.v00)))
  {}

  // ----- matrices of the two-qubit rotations on a block

  function Rotation(g: GateName, theta: real, a: nat, b: nat): Operation {
    Operation("", g, [a, b], [], [theta], 0)
  }

  lemma RotationOnQuad(t: Trig, g: GateName, theta: real, v: Vec, n: nat, i: nat, a: nat, b: nat)
    requires g in {RXX, RYY, RZZ, RZX} && a != b && a < n && b < n && i < |v| == Pow2(n)
    ensures Four(MatrixForTwoQubitGate(t, g, [theta]))
    ensures QuadAt(Denote(t, Rotation(g, theta, a, b), v), i, a, b) ==
            OnBoth(MatrixForTwoQubitGate(t, g, [theta]), QuadAt(v, i, a, b))
  {
    hide Apply, QuadAt, Pow2, MixFour, Cis;
    BothOnQuad(v, n, i, a, b, MatrixForTwoQubitGate(t, g, [theta]));
  }

  lemma Sparse(x: C, y: C, q: Quad)
    ensures MixFour([x, ZERO, ZERO, y], q) == Plus(Mul(x, q.v00), Mul(y, q.v11))
    ensures MixFour([ZERO, x, y, ZERO], q) == Plus(Mul(x, q.v01), Mul(y, q.v10))
    ensures MixFour([x, y, ZERO, ZERO], q) == Plus(Mul(x, q.v00), Mul(y, q.v01))
    ensures MixFour([ZERO, ZERO, x, y], q) == Plus(Mul(x, q.v10), Mul(y, q.v11))
  {
    Vanish(q.v00);
    Vanish(q.v01);
    Vanish(q.v10);
    Vanish(q.v11);
  }

  lemma Vanish(a: C)
    ensures Mul(ZERO, a) == ZERO
  {}

  lemma RealTimes(c: real, a: C)
    ensures Mul(Real(c), a) == Scale(c, a)
    ensures Mul(C(0.0, c), a) == Turn(c, a)
    ensures Plus(Scale(c, a), Turn(0.0, a)) == Scale(c, a)
  {}

  lemma XxMatrix(t: Trig, theta: real, q: Quad)
    ensures OnBoth(MatrixForTwoQubitGate(t, RXX, [theta]), q) ==
            Crossed(t.cos(theta / 2.0), t.sin(theta / 2.0), q)
  {
    hide MixFour, Mul, Plus, Scale, Turn;
    var c, s := t.cos(theta / 2.0), t.sin(theta / 2.0);
    assert Neg(C(0.0, s)) == C(0.0, -s);
    Sparse(Real(c), C(0.0, -s), q);
    Sparse(C(0.0, -s), Real(c), q);
    forall z: C ensures Mul(Real(c), z) == Scale(c, z) && Mul(C(0.0, -s), z) == Turn(-s, z) {
      RealTimes(c, z);
      RealTimes(-s, z);
    }
    forall y: C, z: C ensures Plus(y, z) == Plus(z, y) { PlusSymmetric(y, z); }
  }

  lemma PlusSymmetric(a: C, b: C)
    ensures Plus(a, b) == Plus(b, a)
  {}

  lemma YyMatrix(t: Trig, theta: real, q: Quad)
    ensures var c, s := t.cos(theta / 2.0), t.sin(theta / 2.0);
      OnBoth(MatrixForTwoQubitGate(t, RYY, [theta]), q) ==
            Quad(Plus(Scale(c, q.v00), Turn(s, q.v11)), Plus(Scale(c, q.v01), Turn(-s, q.v10)),
                 Plus(Scale(c, q.v10), Turn(-s, q.v01)), Plus(Scale(c, q.v11), Turn(s, q.v00)))
  {
    hide MixFour, Mul, Plus, Scale, Turn;
    var c, s := t.cos(theta / 2.0), t.sin(theta / 2.0);
    assert Neg(C(0.0, s)) == C(0.0, -s);
    Sparse(Real(c), C(0.0, s), q);
    Sparse(C(0.0, s), Real(c), q);
    Sparse(Real(c), C(0.0, -s), q);
    Sparse(C(0.0, -s), Real(c), q);
    forall z: C
      ensures Mul(Real(c), z) == Scale(c, z) && Mul(C(0.0, -s), z) == Turn(-s, z) && Mul(C(0.0, s), z) == Turn(s, z)
    {
      RealTimes(c, z);
      RealTimes(-s, z);
      RealTimes(s, z);
    }
    forall y: C, z: C ensures Plus(y, z) == Plus(z, y) { PlusSymmetric(y, z); }
  }

  lemma ZzMatrix(t: Trig, theta: real, q: Quad)
    ensures OnBoth(MatrixForTwoQubitGate(t, RZZ, [theta]), q) ==
            ParityPhases(Cis(t, -theta / 2.0), Cis(t, theta / 2.0), q)
  {
    hide Mul, Cis;
    Vanish(q.v00);
    Vanish(q.v01);
    Vanish(q.v10);
    Vanish(q.v11);
  }

  lemma ZxMatrix(t: Trig, theta: real, q: Quad)
    ensures var c, s := t.cos(theta / 2.0), t.sin(theta / 2.0);
      OnBoth(MatrixForTwoQubitGate(t, RZX, [theta]), q) ==
            Quad(Plus(Scale(c, q.v00), Turn(-s, q.v01)), Plus(Turn(-s, q.v00), Scale(c, q.v01)),
                 Plus(Scale(c, q.v10), Turn(s, q.v11)), Plus(Turn(s, q.v10), Scale(c, q.v11)))
  {
    hide MixFour, Mul, Plus, Scale, Turn, Real;
    var c, s := t.cos(theta / 2.0), t.sin(theta / 2.0);
    assert Neg(C(0.0, s)) == C(0.0, -s);
    ZxRow(c, s, q);
    ZxRow(c, -s, q);
  }

  lemma ZxRow(c: real, s: real, q: Quad)
    ensures MixFour([Real(c), C(0.0, s), ZERO, ZERO], q) == Plus(Scale(c, q.v00), Turn(s, q.v01))
    ensures MixFour([C(0.0, s), Real(c), ZERO, ZERO], q) == Plus(Turn(s, q.v00), Scale(c, q.v01))
    ensures MixFour([ZERO, ZERO, Real(c), C(0.0, s)], q) == Plus(Scale(c, q.v10), Turn(s, q.v11))
    ensures MixFour([ZERO, ZERO, C(0.0, s), Real(c)], q) == Plus(Turn(s, q.v10), Scale(c, q.v11))
  {
    hide MixFour, Mul, Plus, Scale, Turn, Real;
    Sparse(Real(c), C(0.0, s), q);
    Sparse(C(0.0, s), Real(c), q);
    RealTimes(c, q.v00);
    RealTimes(s, q.v00);
    RealTimes(c, q.v01);
    RealTimes(s, q.v01);
    RealTimes(c, q.v10);
    RealTimes(s, q.v10);
    RealTimes(c, q.v11);
    RealTimes(s, q.v11);
  }

  /** Hadamard, parity phases, Hadamard on the second bit of one row of the block. */
  lemma ZxAlgebra(t: Trig, c: real, s: real, p: C, q: C)
    requires Exact(t)
    ensures var r := R(t);
      var x, y := Mul(C(c, -s), Scale(r, Plus(p, q))), Mul(C(c, s), Scale(r, Plus(p, Neg(q))));
      Scale(r, Plus(x, y)) == Plus(Scale(c, p), Turn(-s, q))
          && Scale(r, Plus(x, Neg(y))) == Plus(Turn(-s, p), Scale(c, q))
  {
    hide Exact, R, Mul, Plus, Scale, Turn, Neg;
    var r := R(t);
    Half(t);
    ZxRing(c, s, p, q);
    var x0, y0 := Mul(C(c, -s), Plus(p, q)), Mul(C(c, s), Plus(p, Neg(q)));
    MulScale(r, C(c, -s), Plus(p, q));
    MulScale(r, C(c, s), Plus(p, Neg(q)));
    TwiceScaled(r, x0, y0);
  }

  lemma ZxRing(c: real, s: real, p: C, q: C)
    ensures var x, y := Mul(C(c, -s), Plus(p, q)), Mul(C(c, s), Plus(p, Neg(q)));
      Scale(0.5, Plus(x, y)) == Plus(Scale(c, p), Turn(-s, q))
          && Scale(0.5, Plus(x, Neg(y))) == Plus(Turn(-s, p), Scale(c, q))
  {
    hide Mul, Plus, Scale, Turn, Neg;
    var u, w := Plus(Scale(c, p), Turn(-s, q)), Plus(Scale(c, q), Turn(-s, p));
    CrossingPlus(c, s, p, q);
    CrossingMinus(c, s, p, q);
    HalfOfBoth(u, w);
    PlusSymmetric(Scale(c, q), Turn(-s, p));
  }

  lemma CrossingPlus(c: real, s: real, p: C, q: C)
    ensures Mul(C(c, -s), Plus(p, q)) == Plus(Plus(Scale(c, p), Turn(-s, q)), Plus(Scale(c, q), Turn(-s, p)))
  {}

  lemma CrossingMinus(c: real, s: real, p: C, q: C)
    ensures Mul(C(c, s), Plus(p, Neg(q))) == Plus(Plus(Scale(c, p), Turn(-s, q)), Neg(Plus(Scale(c, q), Turn(-s, p))))
  {}

  /** Half the sum and half the difference of a sum and a difference. */
  lemma HalfOfBoth(u: C, w: C)
    ensures Scale(0.5, Plus(Plus(u, w), Plus(u, Neg(w)))) == u
      && Scale(0.5, Plus(Plus(u, w), Neg(Plus(u, Neg(w))))) == w
  {}

  // ----- each decomposition, on the whole state

  lemma XxPreserved(t: Trig, theta: real, v: Vec, n: nat, a: nat, b: nat)
    requires Exact(t) && a != b && a < n && b < n && |v| == Pow2(n)
    ensures var hs := [OneQubit(H, a), OneQubit(H, b)];
      Execute(t, hs + SerializeRzz(theta, a, b) + hs, v) == Denote(t, Rotation(RXX, theta, a, b), v)
  {
    hide QuadAt, Apply, Pow2, Denote, Meaning, Execute, HalfSum, Exact, Crossed, ParityPhases, Cis,
      MatrixForTwoQubitGate, SerializeRzz, OnBoth;
    var hs, rzz := [OneQubit(H, a), OneQubit(H, b)], SerializeRzz(theta, a, b);
    var c, s := t.cos(theta / 2.0), t.sin(theta / 2.0);
    CisHalves(t, theta);
    ExecuteConcat(t, hs + rzz, hs, v);
    ExecuteConcat(t, hs, rzz, v);
    var v1 := Execute(t, hs, v);
    var v2 := Execute(t, rzz, v1);
    var w, u := Execute(t, hs, v2), Denote(t, Rotation(RXX, theta, a, b), v);
    forall i: nat | i < |v| ensures QuadAt(w, i, a, b) == QuadAt(u, i, a, b) {
      HadamardsOnQuad(t, v, n, i, a, b);
      RzzOnQuad(t, theta, v1, n, i, a, b);
      HadamardsOnQuad(t, v2, n, i, a, b);
      XxAlgebra(c, s, QuadAt(v, i, a, b));
      RotationOnQuad(t, RXX, theta, v, n, i, a, b);
      XxMatrix(t, theta, QuadAt(v, i, a, b));
    }
    SameQuads(w, u, a, b);
  }

  lemma CisHalves(t: Trig, theta: real)
    requires Exact(t)
    ensures Cis(t, -theta / 2.0) == C(t.cos(theta / 2.0), -t.sin(theta / 2.0))
    ensures Cis(t, theta / 2.0) == C(t.cos(theta / 2.0), t.sin(theta / 2.0))
  {
    hide Exact;
    assert -theta / 2.0 == -(theta / 2.0);
    CisNeg(t, theta / 2.0);
  }

  lemma PhasesOnQuad(t: Trig, g: GateName, x: real, v: Vec, n: nat, i: nat, a: nat, b: nat)
    requires (g == S && x == 1.0) || (g == SDG && x == -1.0)
    requires a != b && a < n && b < n && i < |v| == Pow2(n)
    ensures QuadAt(Execute(t, [OneQubit(g, a), OneQubit(g, b)], v), i, a, b) == PhaseBoth(x, QuadAt(v, i, a, b))
  {
    hide QuadAt, Apply, Pow2, Mul, Plus, Denote, Meaning, MixTwo, Execute, OnFirst, OnSecond;
    var m := [[ONE, ZERO], [ZERO, C(0.0, x)]];
    assert MatrixForGate(t, g, []) == m && Two(m);
    ExecuteTwo(t, OneQubit(g, a), OneQubit(g, b), v);
    OneQubitStmt(t, g, [], a, v);
    var v1 := Apply(Kernel([], [a], m), v);
    OneQubitStmt(t, g, [], b, v1);
    FirstOnQuad(v, n, i, a, b, m);
    SecondOnQuad(v1, n, i, a, b, m);
    DiagonalOnFirst(ONE, C(0.0, x), QuadAt(v, i, a, b));
    DiagonalOnSecond(ONE, C(0.0, x), QuadAt(v1, i, a, b));
    QuarterTurns(x, QuadAt(v, i, a, b));
  }

  lemma QuarterTurns(x: real, q: Quad)
    requires x * x == 1.0
    ensures var z := C(0.0, x);
      Quad(Mul(ONE, Mul(ONE, q.v00)), Mul(z, Mul(ONE, q.v01)), Mul(ONE, Mul(z, q.v10)), Mul(z, Mul(z, q.v11))) ==
          PhaseBoth(x, q)
  {
    hide Mul, Turn, Neg;
    OneTimes(q.v00);
    OneTimes(q.v01);
    OneTimes(Mul(C(0.0, x), q.v10));
    RealTimes(x, q.v01);
    RealTimes(x, q.v10);
    RealTimes(x, q.v11);
    RealTimes(x, Turn(x, q.v11));
    TurnTwice(x, q.v11);
  }

  lemma TurnTwice(x: real, a: C)
    requires x * x == 1.0
    ensures Turn(x, Turn(x, a)) == Neg(a)
  {
    assert x * (x * a.re) == x * x * a.re && x * (x * a.im) == x * x * a.im;
  }

  lemma YyPreserved(t: Trig, theta: real, v: Vec, n: nat, a: nat, b: nat)
    requires Exact(t) && a != b && a < n && b < n && |v| == Pow2(n)
    ensures var hs := [OneQubit(H, a), OneQubit(H, b)];
      Execute(t, [OneQubit(SDG, a), OneQubit(SDG, b)] + hs + SerializeRzz(theta, a, b) + hs
              + [OneQubit(S, a), OneQubit(S, b)], v)
      == Denote(t, Rotation(RYY, theta, a, b), v)
  {
    hide QuadAt, Apply, Pow2, Denote, Meaning, Execute, HalfSum, Exact, Crossed, ParityPhases, PhaseBoth, Cis,
      MatrixForTwoQubitGate, SerializeRzz, OnBoth;
    var hs, rzz := [OneQubit(H, a), OneQubit(H, b)], SerializeRzz(theta, a, b);
    var before, after := [OneQubit(SDG, a), OneQubit(SDG, b)], [OneQubit(S, a), OneQubit(S, b)];
    var c, s := t.cos(theta / 2.0), t.sin(theta / 2.0);
    var v1 := Execute(t, before, v);
    assert before + hs + rzz + hs + after == before + (hs + rzz + hs) + after;
    ExecuteConcat(t, before + (hs + rzz + hs), after, v);
    ExecuteConcat(t, before, hs + rzz + hs, v);
    XxPreserved(t, theta, v1, n, a, b);
    var v2 := Denote(t, Rotation(RXX, theta, a, b), v1);
    var w, u := Execute(t, after, v2), Denote(t, Rotation(RYY, theta, a, b), v);
    forall i: nat | i < |v| ensures QuadAt(w, i, a, b) == QuadAt(u, i, a, b) {
      PhasesOnQuad(t, SDG, -1.0, v, n, i, a, b);
      RotationOnQuad(t, RXX, theta, v1, n, i, a, b);
      XxMatrix(t, theta, QuadAt(v1, i, a, b));
      PhasesOnQuad(t, S, 1.0, v2, n, i, a, b);
      YyAlgebra(c, s, QuadAt(v, i, a, b));
      RotationOnQuad(t, RYY, theta, v, n, i, a, b);
      YyMatrix(t, theta, QuadAt(v, i, a, b));
    }
    SameQuads(w, u, a, b);
  }

  lemma ZzPreserved(t: Trig, theta: real, v: Vec, n: nat, a: nat, b: nat)
    requires a != b && a < n && b < n && |v| == Pow2(n)
    ensures Execute(t, SerializeRzz(theta, a, b), v) == Denote(t, Rotation(RZZ, theta, a, b), v)
  {
    hide QuadAt, Apply, Pow2, Denote, Meaning, Execute, ParityPhases, Cis, MatrixForTwoQubitGate, SerializeRzz, OnBoth;
    var w, u := Execute(t, SerializeRzz(theta, a, b), v), Denote(t, Rotation(RZZ, theta, a, b), v);
    forall i: nat | i < |v| ensures QuadAt(w, i, a, b) == QuadAt(u, i, a, b) {
      RzzOnQuad(t, theta, v, n, i, a, b);
      RotationOnQuad(t, RZZ, theta, v, n, i, a, b);
      ZzMatrix(t, theta, QuadAt(v, i, a, b));
    }
    SameQuads(w, u, a, b);
  }

  function HadamardSecond(t: Trig, q: Quad): Quad {
    var r := R(t);
    Quad(Scale(r, Plus(q.v00, q.v01)), Scale(r, Plus(q.v00, Neg(q.v01))), Scale(r, Plus(q.v10, q.v11)),
         Scale(r, Plus(q.v10, Neg(q.v11))))
  }

  lemma HadamardSecondOnQuad(t: Trig, v: Vec, n: nat, i: nat, a: nat, b: nat)
    requires a != b && a < n && b < n && i < |v| == Pow2(n)
    ensures QuadAt(Execute(t, [OneQubit(H, b)], v), i, a, b) == HadamardSecond(t, QuadAt(v, i, a, b))
  {
    hide QuadAt, Apply, Pow2, Mul, Plus, Denote, Meaning, MixTwo, Execute, HRows, R;
    HadamardShape(t);
    ExecuteOne(t, OneQubit(H, b), v);
    OneQubitStmt(t, H, [], b, v);
    SecondOnQuad(v, n, i, a, b, HRows(t));
    var q := QuadAt(v, i, a, b);
    MixHadamard(t, q.v00, q.v01);
    MixHadamard(t, q.v10, q.v11);
  }

  lemma ZxPreserved(t: Trig, theta: real, v: Vec, n: nat, a: nat, b: nat)
    requires Exact(t) && a != b && a < n && b < n && |v| == Pow2(n)
    ensures Execute(t, [OneQubit(H, b)] + SerializeRzz(theta, a, b) + [OneQubit(H, b)], v) ==
            Denote(t, Rotation(RZX, theta, a, b), v)
  {
    hide QuadAt, Apply, Pow2, Denote, Meaning, Execute, Exact, Cis, MatrixForTwoQubitGate, SerializeRzz, OnBoth,
      Scale, Turn, Plus, Mul, R;
    var h, rzz := [OneQubit(H, b)], SerializeRzz(theta, a, b);
    var c, s := t.cos(theta / 2.0), t.sin(theta / 2.0);
    CisHalves(t, theta);
    ExecuteConcat(t, h + rzz, h, v);
    ExecuteConcat(t, h, rzz, v);
    var v1 := Execute(t, h, v);
    var v2 := Execute(t, rzz, v1);
    var w, u := Execute(t, h, v2), Denote(t, Rotation(RZX, theta, a, b), v);
    forall i: nat | i < |v| ensures QuadAt(w, i, a, b) == QuadAt(u, i, a, b) {
      var q := QuadAt(v, i, a, b);
      HadamardSecondOnQuad(t, v, n, i, a, b);
      RzzOnQuad(t, theta, v1, n, i, a, b);
      HadamardSecondOnQuad(t, v2, n, i, a, b);
      ZxAlgebra(t, c, s, q.v00, q.v01);
      ZxAlgebra(t, c, -s, q.v10, q.v11);
      RotationOnQuad(t, RZX, theta, v, n, i, a, b);
      ZxMatrix(t, theta, q);
    }
    SameQuads(w, u, a, b);
  }

  // ----- one target

  /** A controlled matrix on the pairs of its target, whose controls lie elsewhere. */
  lemma ControlledOnPair(v: Vec, n: nat, i: nat, controls: seq<nat>, t: nat, m: Rows)
    requires Two(m) && t < n && t !in controls && i < |v| == Pow2(n)
    ensures PairAt(Apply(Kernel(controls, [t], m), v), i, t) ==
            if Active(i, controls) then MixPair(m, PairAt(v, i, t)) else PairAt(v, i, t)
  {
    hide Bit, Set, Mul, Plus, Pow2, Active;
    forall x: bool
      ensures Set(i, t, x) < |v| && Active(Set(i, t, x), controls) == Active(i, controls) && Bit(Set(i, t, x), t) == x
      ensures Set(Set(i, t, x), t, false) == Set(i, t, false) && Set(Set(i, t, x), t, true) == Set(i, t, true)
    {
      SetRange(i, t, x, n);
      ActiveOfSet(i, t, x, controls);
      SetSet(i, t, x, false);
      SetSet(i, t, x, true);
      BitOfSet(i, t, x, t);
    }
    Amp1(Kernel(controls, [t], m), v, Set(i, t, false));
    Amp1(Kernel(controls, [t], m), v, Set(i, t, true));
  }

  lemma ActiveOfSet(i: nat, t: nat, x: bool, controls: seq<nat>)
    requires t !in controls
    ensures Active(Set(i, t, x), controls) == Active(i, controls)
  {
    hide Bit, Set;
    forall c | c in controls ensures Bit(Set(i, t, x), c) == Bit(i, c) { BitOfSet(i, t, x, c); }
  }

  lemma UncontrolledActive(i: nat)
    ensures Active(i, [])
  {}

  lemma HadamardOnPair(t: Trig, v: Vec, n: nat, i: nat, q: nat)
    requires q < n && i < |v| == Pow2(n)
    ensures var p := PairAt(v, i, q);
      PairAt(Denote(t, Meaning(OneQubit(H, q)), v), i, q) ==
          Pair2(Scale(R(t), Plus(p.lo, p.hi)), Scale(R(t), Plus(p.lo, Neg(p.hi))))
  {
    hide PairAt, Apply, Pow2, Denote, Meaning, MixTwo, Active, HRows, R, Mul, Plus, Neg, Scale;
    HadamardShape(t);
    OneQubitStmt(t, H, [], q, v);
    ControlledOnPair(v, n, i, [], q, HRows(t));
    UncontrolledActive(i);
    MixHadamard(t, PairAt(v, i, q).lo, PairAt(v, i, q).hi);
  }

  lemma FlipsPair(p: Pair2)
    ensures MixPair(X_ROWS, p) == Pair2(p.hi, p.lo)
    ensures MixPair(Z_ROWS, p) == Pair2(p.lo, Neg(p.hi))
  {}

  /** Hadamard, flip, Hadamard is a sign; Hadamard twice is nothing. */
  lemma HadamardConjugation(r: real, p: C, q: C)
    requires r * r == 0.5
    ensures var x, y := Scale(r, Plus(p, q)), Scale(r, Plus(p, Neg(q)));
      Scale(r, Plus(x, y)) == p && Scale(r, Plus(x, Neg(y))) == q
      && Scale(r, Plus(y, x)) == p && Scale(r, Plus(y, Neg(x))) == Neg(q)
  {
    TwiceScaled(r, Plus(p, q), Plus(p, Neg(q)));
    TwiceScaled(r, Plus(p, Neg(q)), Plus(p, q));
  }

  lemma CczPreserved(t: Trig, v: Vec, n: nat, c0: nat, c1: nat, q: nat)
    requires Exact(t) && c0 < n && c1 < n && q < n && q != c0 && q != c1 && |v| == Pow2(n)
    ensures Execute(t, [OneQubit(H, q), GateStmt(CCX, [], [c0, c1, q]), OneQubit(H, q)], v) ==
            Apply(Kernel([c0, c1], [q], Z_ROWS), v)
  {
    hide PairAt, Apply, Pow2, Denote, Meaning, Active, HRows, R, Mul, Plus, Neg, Scale, Exact, MixPair;
    var h, x := OneQubit(H, q), GateStmt(CCX, [], [c0, c1, q]);
    var controls := [c0, c1];
    Half(t);
    ExecuteThree(t, h, x, h, v);
    var v1 := Denote(t, Meaning(h), v);
    ToffoliStmt(t, c0, c1, q, v1);
    var v2 := Denote(t, Meaning(x), v1);
    var w, u := Denote(t, Meaning(h), v2), Apply(Kernel(controls, [q], Z_ROWS), v);
    forall i: nat | i < |v| ensures PairAt(w, i, q) == PairAt(u, i, q) {
      var p := PairAt(v, i, q);
      HadamardOnPair(t, v, n, i, q);
      ControlledOnPair(v1, n, i, controls, q, X_ROWS);
      HadamardOnPair(t, v2, n, i, q);
      ControlledOnPair(v, n, i, controls, q, Z_ROWS);
      FlipsPair(PairAt(v1, i, q));
      FlipsPair(p);
      HadamardConjugation(R(t), p.lo, p.hi);
    }
    SamePairs(w, u, q);
  }

  lemma ToffoliStmt(t: Trig, c0: nat, c1: nat, q: nat, v: Vec)
    ensures Denote(t, Meaning(GateStmt(CCX, [], [c0, c1, q])), v) == Apply(Kernel([c0, c1], [q], X_ROWS), v)
  {
    hide Apply;
    assert [c0, c1, q][..2] == [c0, c1] && [c0, c1, q][2..] == [q];
  }

  lemma SyRows(t: Trig)
    requires Exact(t)
    ensures MatrixForGate(t, RY, [t.pi / 2.0]) == MatrixForGate(t, SY, [])
  {
    hide Exact;
    Half(t);
    assert t.pi / 2.0 / 2.0 == t.pi / 4.0;
    assert -1.0 / t.sqrt2 == -R(t);
  }

  // ----- the compiler is correct

  lemma DirectPreserved(t: Trig, op: Operation, n: nat, v: Vec)
    requires WellFormed(op, n) && op.gate !in {SY, CCZ, M, RXX, RYY, RZZ, RZX}
    ensures Execute(t, Statements(t.pi, op), v) == Denote(t, op, v)
  {
    hide Apply;
    var s := Statements(t.pi, op);
    ExecuteOne(t, s[0], v);
    assert s[0].operands == op.controls + op.targets && s[0].params == op.params;
    assert Meaning(s[0]).(id := op.id, layer := op.layer) == op;
    SameMeaning(t, Meaning(s[0]), op, v);
  }

  /** Names and layers carry no meaning of their own. */
  lemma SameMeaning(t: Trig, a: Operation, b: Operation, v: Vec)
    requires a.(id := b.id, layer := b.layer) == b
    ensures Denote(t, a, v) == Denote(t, b, v)
  {
    hide Apply, MatrixForGate, MatrixForTwoQubitGate, PhaseRows, Cis, HRows;
    assert KernelOf(t, a) == KernelOf(t, b);
  }

  /** Running the printed statements of an operation has exactly the effect of the operation. */
  lemma StatementsPreserve(t: Trig, op: Operation, n: nat, v: Vec)
    requires Exact(t) && WellFormed(op, n) && Distinct(Qubits(op)) && |v| == Pow2(n)
    ensures Execute(t, Statements(t.pi, op), v) == Denote(t, op, v)
  {
    hide Execute, Denote, Exact, Apply, Pow2, KernelOf;
    var a := op.targets[0];
    assert Qubits(op)[0] == a;
    if op.gate == SY {
      SyPreserved(t, op, v);
    } else if op.gate == CCZ {
      assert Qubits(op)[1] == op.controls[0] && Qubits(op)[2] == op.controls[1];
      CczPreserved(t, v, n, op.controls[0], op.controls[1], a);
      CczKernel(t, op, v);
    } else if op.gate == M {
      MeasurementPreserved(t, op, v);
    } else if op.gate in {RXX, RYY, RZZ, RZX} {
      var b := op.targets[1];
      assert Qubits(op)[1] == b;
      var theta := op.params[0];
      assert op.targets == [a, b] && op.params == [theta] && op.controls == [];
      SameMeaning(t, Rotation(op.gate, theta, a, b), op, v);
      if op.gate == RXX {
        XxPreserved(t, theta, v, n, a, b);
      } else if op.gate == RYY {
        YyPreserved(t, theta, v, n, a, b);
      } else if op.gate == RZZ {
        ZzPreserved(t, theta, v, n, a, b);
      } else {
        ZxPreserved(t, theta, v, n, a, b);
      }
    } else {
      DirectPreserved(t, op, n, v);
    }
  }

  lemma SyPreserved(t: Trig, op: Operation, v: Vec)
    requires Exact(t) && op.gate == SY && |op.targets| == 1 && op.params == [] && op.controls == []
    ensures Execute(t, Statements(t.pi, op), v) == Denote(t, op, v)
  {
    hide Exact, Apply, MatrixForGate;
    var q := op.targets[0];
    assert op.targets == [q];
    ExecuteOne(t, GateStmt(RY, [t.pi / 2.0], [q]), v);
    OneQubitStmt(t, RY, [t.pi / 2.0], q, v);
    SyRows(t);
  }

  lemma CczKernel(t: Trig, op: Operation, v: Vec)
    requires op.gate == CCZ && |op.targets| == 1 && |op.controls| == 2
    ensures Denote(t, op, v) == Apply(Kernel([op.controls[0], op.controls[1]], [op.targets[0]], Z_ROWS), v)
  {
    hide Apply;
    assert op.controls == [op.controls[0], op.controls[1]] && op.targets == [op.targets[0]];
  }

  lemma MeasurementPreserved(t: Trig, op: Operation, v: Vec)
    requires op.gate == M && |op.targets| == 1
    ensures Execute(t, Statements(t.pi, op), v) == Denote(t, op, v)
  {
    ExecuteOne(t, MeasureStmt(op.targets[0], op.targets[0]), v);
  }
}
