/**
 * The backend's own compilation of a circuit payload to a gate list: Toffoli as fifteen gates, controlled
 * phase as five, phase as a rotation.
 */
module BackendCircuit {
  import opened Bits
  import opened Complex
  import opened Trigonometry
  import opened Circuits
  import opened Kernels
  import opened Gates
  import opened Blocks
  import opened QasmStatements
  import opened Decompositions
  import Sweeps
  import opened Text

  function Cnot(c: nat, q: nat): Stmt { GateStmt(CX, [], [c, q]) }

  function Rz(q: nat, theta: real): Stmt { GateStmt(RZ, [theta], [q]) }

  function ToffoliGates(a: nat, b: nat, q: nat): seq<Stmt> {
    [OneQubit(H, q),
     Cnot(b, q), OneQubit(TDG, q), Cnot(a, q), OneQubit(T, q),
     Cnot(b, q), OneQubit(TDG, q), Cnot(a, q), OneQubit(T, b), OneQubit(T, q),
     OneQubit(H, q),
     Cnot(a, b), OneQubit(T, a), OneQubit(TDG, b), Cnot(a, b)]
  }

  function ControlledPhaseGates(lam: real, c: nat, q: nat): seq<Stmt> {
    var halfLambda := lam / 2.0;
    [Rz(c, halfLambda), Cnot(c, q), Rz(q, -halfLambda), Cnot(c, q), Rz(q, halfLambda)]
  }

  // ----- a state seen through three qubits

  function Corner3(i: nat, a: nat, b: nat, q: nat, x: bool, y: bool, z: bool): nat {
    Set(Corner(i, a, b, x, y), q, z)
  }

  /** The amplitude at index `i` with bits `(a, b, q)` set to `(x, y, z)`. */
  function Cell(v: Vec, i: nat, a: nat, b: nat, q: nat, x: bool, y: bool, z: bool): C {
    At(v, Corner3(i, a, b, q, x, y, z))
  }

  predicate Three(a: nat, b: nat, q: nat, n: nat) {
    a < n && b < n && q < n && a != b && a != q && b != q
  }

  lemma Corner3Laws(i: nat, a: nat, b: nat, q: nat, x: bool, y: bool, z: bool, n: nat)
    requires Three(a, b, q, n) && i < Pow2(n)
    ensures var j := Corner3(i, a, b, q, x, y, z);
      && j < Pow2(n) && Bit(j, a) == x && Bit(j, b) == y && Bit(j, q) == z
      && (forall p: bool :: Set(j, a, p) == Corner3(i, a, b, q, p, y, z)
           && Set(j, b, p) == Corner3(i, a, b, q, x, p, z) && Set(j, q, p) == Corner3(i, a, b, q, x, y, p))
  {
    hide Bit, Set, Pow2, Corner;
    var c := Corner(i, a, b, x, y);
    var j := Set(c, q, z);
    CornerLaws(i, a, b, x, y, n);
    SetRange(c, q, z, n);
    BitOfSet(c, q, z, a);
    BitOfSet(c, q, z, b);
    forall p: bool
      ensures Set(j, a, p) == Corner3(i, a, b, q, p, y, z)
      ensures Set(j, b, p) == Corner3(i, a, b, q, x, p, z) && Set(j, q, p) == Corner3(i, a, b, q, x, y, p)
    {
      SetCommute(c, q, z, a, p);
      SetCommute(c, q, z, b, p);
      SetSet(c, q, z, p);
    }
  }

  /** States that agree on every cell are equal. */
  lemma SameCells(v: Vec, w: Vec, a: nat, b: nat, q: nat)
    requires |v| == |w|
    requires forall i: nat :: i < |v| ==>
      Cell(v, i, a, b, q, Bit(i, a), Bit(i, b), Bit(i, q)) == Cell(w, i, a, b, q, Bit(i, a), Bit(i, b), Bit(i, q))
    ensures v == w
  {
    hide Bit, Set;
    forall i: nat | i < |v| ensures v[i] == w[i] {
      assert Corner3(i, a, b, q, Bit(i, a), Bit(i, b), Bit(i, q)) == i;
    }
  }

  ghost predicate FlipsTarget(v: Vec, w: Vec, i: nat, a: nat, b: nat, q: nat, byA: bool) {
    forall x: bool, y: bool, z: bool ::
      Cell(w, i, a, b, q, x, y, z) == Cell(v, i, a, b, q, x, y, z != if byA then x else y)
  }

  ghost predicate FlipsSecond(v: Vec, w: Vec, i: nat, a: nat, b: nat, q: nat) {
    forall x: bool, y: bool, z: bool :: Cell(w, i, a, b, q, x, y, z) == Cell(v, i, a, b, q, x, y != x, z)
  }

  /** `which` selects the bit (0, 1 or 2) whose set half is multiplied by `p`. */
  ghost predicate Turns(v: Vec, w: Vec, i: nat, a: nat, b: nat, q: nat, which: nat, p: C) {
    forall x: bool, y: bool, z: bool ::
      Cell(w, i, a, b, q, x, y, z) ==
        if (if which == 0 then x else if which == 1 then y else z) then Mul(p, Cell(v, i, a, b, q, x, y, z))
        else Cell(v, i, a, b, q, x, y, z)
  }

  ghost predicate Mixes(r: real, v: Vec, w: Vec, i: nat, a: nat, b: nat, q: nat) {
    forall x: bool, y: bool ::
      && Cell(w, i, a, b, q, x, y, false) ==
          Scale(r, Plus(Cell(v, i, a, b, q, x, y, false), Cell(v, i, a, b, q, x, y, true)))
      && Cell(w, i, a, b, q, x, y, true) ==
          Scale(r, Plus(Cell(v, i, a, b, q, x, y, false), Neg(Cell(v, i, a, b, q, x, y, true))))
  }

  lemma CnotOnTarget(t: Trig, v: Vec, n: nat, i: nat, a: nat, b: nat, q: nat, byA: bool)
    requires Three(a, b, q, n) && i < |v| == Pow2(n)
    ensures FlipsTarget(v, Denote(t, Meaning(Cnot(if byA then a else b, q)), v), i, a, b, q, byA)
  {
    hide Bit, Set, Pow2, Corner3, Denote, Meaning, Apply;
    var c := if byA then a else b;
    FlipStmt(t, c, q, v);
    forall x: bool, y: bool, z: bool
      ensures Cell(Apply(Kernel([c], [q], X_ROWS), v), i, a, b, q, x, y, z) ==
              Cell(v, i, a, b, q, x, y, z != if byA then x else y)
    {
      Corner3Laws(i, a, b, q, x, y, z, n);
      FlipOnIndex(v, [c], q, Corner3(i, a, b, q, x, y, z));
      assert Active(Corner3(i, a, b, q, x, y, z), [c]) == if byA then x else y;
    }
  }

  lemma CnotOnSecond(t: Trig, v: Vec, n: nat, i: nat, a: nat, b: nat, q: nat)
    requires Three(a, b, q, n) && i < |v| == Pow2(n)
    ensures FlipsSecond(v, Denote(t, Meaning(Cnot(a, b)), v), i, a, b, q)
  {
    hide Bit, Set, Pow2, Corner3, Denote, Meaning, Apply;
    FlipStmt(t, a, b, v);
    forall x: bool, y: bool, z: bool
      ensures Cell(Apply(Kernel([a], [b], X_ROWS), v), i, a, b, q, x, y, z) == Cell(v, i, a, b, q, x, y != x, z)
    {
      Corner3Laws(i, a, b, q, x, y, z, n);
      FlipOnIndex(v, [a], b, Corner3(i, a, b, q, x, y, z));
      assert Active(Corner3(i, a, b, q, x, y, z), [a]) == x;
    }
  }

  lemma PhaseOnCells(t: Trig, g: GateName, v: Vec, n: nat, i: nat, a: nat, b: nat, q: nat, which: nat, p: C)
    requires Three(a, b, q, n) && i < |v| == Pow2(n) && which < 3
    requires g in {T, TDG} && MatrixForGate(t, g, []) == PhaseRows(p)
    ensures Turns(v, Denote(t, Meaning(OneQubit(g, [a, b, q][which])), v), i, a, b, q, which, p)
  {
    hide Bit, Set, Pow2, Corner3, Denote, Meaning, Apply, MatrixForGate, Mul, MixTwo;
    var s := [a, b, q][which];
    OneQubitStmt(t, g, [], s, v);
    forall x: bool, y: bool, z: bool
      ensures Cell(Apply(Kernel([], [s], PhaseRows(p)), v), i, a, b, q, x, y, z) ==
        if (if which == 0 then x else if which == 1 then y else z) then Mul(p, Cell(v, i, a, b, q, x, y, z))
        else Cell(v, i, a, b, q, x, y, z)
    {
      var j := Corner3(i, a, b, q, x, y, z);
      Corner3Laws(i, a, b, q, x, y, z, n);
      var lo, hi := At(v, Set(j, s, false)), At(v, Set(j, s, true));
      OneOnIndex(v, s, PhaseRows(p), j, Set(j, s, false), Set(j, s, true));
      DiagonalMix(ONE, p, lo, hi);
      OneTimes(lo);
    }
  }

  lemma HadamardOnCells(t: Trig, v: Vec, n: nat, i: nat, a: nat, b: nat, q: nat)
    requires Three(a, b, q, n) && i < |v| == Pow2(n)
    ensures Mixes(R(t), v, Denote(t, Meaning(OneQubit(H, q)), v), i, a, b, q)
  {
    hide Bit, Set, Pow2, Corner3, Denote, Meaning, Apply, Mul, Plus, Neg, Scale, R, MixTwo, HRows;
    HadamardShape(t);
    OneQubitStmt(t, H, [], q, v);
    forall x: bool, y: bool, z: bool
      ensures Cell(Apply(Kernel([], [q], HRows(t)), v), i, a, b, q, x, y, z) ==
        MixTwo(HRows(t)[if z then 1 else 0], Cell(v, i, a, b, q, x, y, false), Cell(v, i, a, b, q, x, y, true))
    {
      Corner3Laws(i, a, b, q, x, y, z, n);
      OneOnIndex(v, q, HRows(t), Corner3(i, a, b, q, x, y, z), Corner3(i, a, b, q, x, y, false),
                 Corner3(i, a, b, q, x, y, true));
    }
    forall x: bool, y: bool
      ensures var p, s := Cell(v, i, a, b, q, x, y, false), Cell(v, i, a, b, q, x, y, true);
        MixTwo(HRows(t)[0], p, s) == Scale(R(t), Plus(p, s))
            && MixTwo(HRows(t)[1], p, s) == Scale(R(t), Plus(p, Neg(s)))
    {
      MixHadamard(t, Cell(v, i, a, b, q, x, y, false), Cell(v, i, a, b, q, x, y, true));
    }
  }

  // ----- the algebra of eighth turns

  predicate Eighths(w: C, u: C) {
    w.re == w.im && u.re == w.re && u.im == -w.re && w.re * w.re == 0.5
  }

  lemma EighthTurns(w: C, u: C, a: C)
    requires Eighths(w, u)
    ensures Mul(w, Mul(u, a)) == a == Mul(u, Mul(w, a))
    ensures Mul(w, Mul(w, Mul(w, a))) == Neg(Mul(u, a))
  {
    hide Mul, Neg, Eighths;
    EighthProducts(w, u);
    MulAssoc(w, u, a);
    MulAssoc(u, w, a);
    OneTimes(a);
    MulAssoc(w, w, Mul(w, a));
    MulAssoc(Mul(w, w), w, a);
    NegTimes(u, a);
  }

  lemma EighthProducts(w: C, u: C)
    requires Eighths(w, u)
    ensures Mul(w, u) == ONE == Mul(u, w) && Mul(Mul(w, w), w) == Neg(u)
  {
    assert Mul(w, w) == C(0.0, 1.0);
  }

  lemma NegTimes(u: C, a: C)
    ensures Mul(Neg(u), a) == Neg(Mul(u, a))
  {}

  lemma RootsOfGates(t: Trig)
    requires Exact(t)
    ensures Eighths(Cis(t, t.pi / 4.0), Cis(t, -t.pi / 4.0))
    ensures MatrixForGate(t, T, []) == PhaseRows(Cis(t, t.pi / 4.0))
    ensures MatrixForGate(t, TDG, []) == PhaseRows(Cis(t, -t.pi / 4.0))
  {
    hide Exact;
    Half(t);
    assert -t.pi / 4.0 == -(t.pi / 4.0);
    CisNeg(t, t.pi / 4.0);
  }

  function When(on: bool, p: C, a: C): C {
    if on then Mul(p, a) else a
  }

  // ----- the nine gates between the Hadamards, three at a time

  lemma FirstThree(t: Trig, v: Vec, n: nat, i: nat, a: nat, b: nat, q: nat)
    requires Exact(t) && Three(a, b, q, n) && i < |v| == Pow2(n)
    ensures var w, u := Cis(t, t.pi / 4.0), Cis(t, -t.pi / 4.0);
      var s := Execute(t, [Cnot(b, q), OneQubit(TDG, q), Cnot(a, q)], v);
      forall x: bool, y: bool, z: bool ::
        Cell(s, i, a, b, q, x, y, z) == When(z != x, u, Cell(v, i, a, b, q, x, y, (z != x) != y))
  {
    hide Exact, Pow2, Denote, Meaning, Cell, Mul, Cis, MatrixForGate, Execute;
    RootsOfGates(t);
    var u := Cis(t, -t.pi / 4.0);
    ExecuteThree(t, Cnot(b, q), OneQubit(TDG, q), Cnot(a, q), v);
    var v1 := Denote(t, Meaning(Cnot(b, q)), v);
    var v2 := Denote(t, Meaning(OneQubit(TDG, q)), v1);
    CnotOnTarget(t, v, n, i, a, b, q, false);
    PhaseOnCells(t, TDG, v1, n, i, a, b, q, 2, u);
    CnotOnTarget(t, v2, n, i, a, b, q, true);
  }

  lemma MiddleThree(t: Trig, v: Vec, n: nat, i: nat, a: nat, b: nat, q: nat)
    requires Exact(t) && Three(a, b, q, n) && i < |v| == Pow2(n)
    ensures var w, u := Cis(t, t.pi / 4.0), Cis(t, -t.pi / 4.0);
      var s := Execute(t, [OneQubit(T, q), Cnot(b, q), OneQubit(TDG, q)], v);
      forall x: bool, y: bool, z: bool ::
        Cell(s, i, a, b, q, x, y, z) == When(z, u, When(z != y, w, Cell(v, i, a, b, q, x, y, z != y)))
  {
    hide Exact, Pow2, Denote, Meaning, Cell, Mul, Cis, MatrixForGate, Execute;
    RootsOfGates(t);
    var w, u := Cis(t, t.pi / 4.0), Cis(t, -t.pi / 4.0);
    ExecuteThree(t, OneQubit(T, q), Cnot(b, q), OneQubit(TDG, q), v);
    var v1 := Denote(t, Meaning(OneQubit(T, q)), v);
    var v2 := Denote(t, Meaning(Cnot(b, q)), v1);
    PhaseOnCells(t, T, v, n, i, a, b, q, 2, w);
    CnotOnTarget(t, v1, n, i, a, b, q, false);
    PhaseOnCells(t, TDG, v2, n, i, a, b, q, 2, u);
  }

  lemma LastThree(t: Trig, v: Vec, n: nat, i: nat, a: nat, b: nat, q: nat)
    requires Exact(t) && Three(a, b, q, n) && i < |v| == Pow2(n)
    ensures var w, u := Cis(t, t.pi / 4.0), Cis(t, -t.pi / 4.0);
      var s := Execute(t, [Cnot(a, q), OneQubit(T, b), OneQubit(T, q)], v);
      forall x: bool, y: bool, z: bool ::
        Cell(s, i, a, b, q, x, y, z) == When(z, w, When(y, w, Cell(v, i, a, b, q, x, y, z != x)))
  {
    hide Exact, Pow2, Denote, Meaning, Cell, Mul, Cis, MatrixForGate, Execute;
    RootsOfGates(t);
    var w := Cis(t, t.pi / 4.0);
    ExecuteThree(t, Cnot(a, q), OneQubit(T, b), OneQubit(T, q), v);
    var v1 := Denote(t, Meaning(Cnot(a, q)), v);
    var v2 := Denote(t, Meaning(OneQubit(T, b)), v1);
    CnotOnTarget(t, v, n, i, a, b, q, true);
    PhaseOnCells(t, T, v1, n, i, a, b, q, 1, w);
    PhaseOnCells(t, T, v2, n, i, a, b, q, 2, w);
  }

  function InnerGates(a: nat, b: nat, q: nat): seq<Stmt> {
    [Cnot(b, q), OneQubit(TDG, q), Cnot(a, q)] + [OneQubit(T, q), Cnot(b, q), OneQubit(TDG, q)]
        + [Cnot(a, q), OneQubit(T, b), OneQubit(T, q)]
  }

  function InnerPhase(w: C, u: C, x: bool, y: bool, z: bool, c: C): C {
    if !y then c else if !x then Mul(w, c) else if z then Neg(Mul(u, c)) else Mul(u, c)
  }

  lemma InnerAlgebra(w: C, u: C, x: bool, y: bool, z: bool, c: C)
    requires Eighths(w, u)
    ensures var z1 := z != x;
      When(z, w, When(y, w, When(z1, u, When(z1 != y, w, When((z1 != y) != x, u, c))))) == InnerPhase(w, u, x, y, z, c)
  {
    hide Mul, Eighths;
    EighthTurns(w, u, c);
    EighthTurns(w, u, Mul(w, c));
    EighthTurns(w, u, Mul(u, c));
  }

  lemma InnerOnCells(t: Trig, v: Vec, n: nat, i: nat, a: nat, b: nat, q: nat)
    requires Exact(t) && Three(a, b, q, n) && i < |v| == Pow2(n)
    ensures var w, u := Cis(t, t.pi / 4.0), Cis(t, -t.pi / 4.0);
      forall x: bool, y: bool, z: bool ::
        Cell(Execute(t, InnerGates(a, b, q), v), i, a, b, q, x, y, z) ==
            InnerPhase(w, u, x, y, z, Cell(v, i, a, b, q, x, y, z))
  {
    hide Exact, Pow2, Cell, Mul, Cis, Execute, When, InnerPhase, Eighths;
    var w, u := Cis(t, t.pi / 4.0), Cis(t, -t.pi / 4.0);
    var g1 := [Cnot(b, q), OneQubit(TDG, q), Cnot(a, q)];
    var g2 := [OneQubit(T, q), Cnot(b, q), OneQubit(TDG, q)];
    var g3 := [Cnot(a, q), OneQubit(T, b), OneQubit(T, q)];
    ExecuteConcat(t, g1 + g2, g3, v);
    ExecuteConcat(t, g1, g2, v);
    var v1 := Execute(t, g1, v);
    var v2 := Execute(t, g2, v1);
    FirstThree(t, v, n, i, a, b, q);
    MiddleThree(t, v1, n, i, a, b, q);
    LastThree(t, v2, n, i, a, b, q);
    RootsOfGates(t);
    forall x: bool, y: bool, z: bool
      ensures Cell(Execute(t, g3, v2), i, a, b, q, x, y, z) == InnerPhase(w, u, x, y, z, Cell(v, i, a, b, q, x, y, z))
    {
      InnerAlgebra(w, u, x, y, z, Cell(v, i, a, b, q, x, y, z));
      var z1 := z != x;
      assert ((((z1 != y) != x) != y) == z);
    }
  }

  // ----- the last four gates

  function OuterGates(a: nat, b: nat): seq<Stmt> {
    [Cnot(a, b), OneQubit(T, a)] + [OneQubit(TDG, b), Cnot(a, b)]
  }

  lemma OuterOnCells(t: Trig, v: Vec, n: nat, i: nat, a: nat, b: nat, q: nat)
    requires Exact(t) && Three(a, b, q, n) && i < |v| == Pow2(n)
    ensures var w, u := Cis(t, t.pi / 4.0), Cis(t, -t.pi / 4.0);
      forall x: bool, y: bool, z: bool ::
        Cell(Execute(t, OuterGates(a, b), v), i, a, b, q, x, y, z) ==
            When(x != y, u, When(x, w, Cell(v, i, a, b, q, x, y, z)))
  {
    hide Exact, Pow2, Denote, Meaning, Cell, Mul, Cis, MatrixForGate, Execute;
    RootsOfGates(t);
    var w, u := Cis(t, t.pi / 4.0), Cis(t, -t.pi / 4.0);
    var g1, g2 := [Cnot(a, b), OneQubit(T, a)], [OneQubit(TDG, b), Cnot(a, b)];
    ExecuteConcat(t, g1, g2, v);
    ExecuteTwo(t, Cnot(a, b), OneQubit(T, a), v);
    var v2 := Execute(t, g1, v);
    ExecuteTwo(t, OneQubit(TDG, b), Cnot(a, b), v2);
    var v1 := Denote(t, Meaning(Cnot(a, b)), v);
    var v3 := Denote(t, Meaning(OneQubit(TDG, b)), v2);
    CnotOnSecond(t, v, n, i, a, b, q);
    PhaseOnCells(t, T, v1, n, i, a, b, q, 0, w);
    PhaseOnCells(t, TDG, v2, n, i, a, b, q, 1, u);
    CnotOnSecond(t, v3, n, i, a, b, q);
  }

  // ----- fifteen gates make a Toffoli

  /** Hadamard, inner phases, Hadamard, outer phases, on the pair of amplitudes selected by the controls. */
  lemma ToffoliAlgebra(r: real, w: C, u: C, x: bool, y: bool, p: C, s: C)
    requires Eighths(w, u) && r * r == 0.5
    ensures var lo, hi := Scale(r, Plus(p, s)), Scale(r, Plus(p, Neg(s)));
      var lo1, hi1 := InnerPhase(w, u, x, y, false, lo), InnerPhase(w, u, x, y, true, hi);
      var lo2, hi2 := Scale(r, Plus(lo1, hi1)), Scale(r, Plus(lo1, Neg(hi1)));
      && When(x != y, u, When(x, w, lo2)) == (if x && y then s else p)
      && When(x != y, u, When(x, w, hi2)) == (if x && y then p else s)
  {
    hide Mul, Plus, Neg, Scale, Eighths;
    var lo, hi := Scale(r, Plus(p, s)), Scale(r, Plus(p, Neg(s)));
    HadamardConjugation(r, p, s);
    if !y {
      EighthTurns(w, u, p);
      EighthTurns(w, u, s);
    } else if !x {
      FactorPhase(r, w, lo, hi);
      EighthTurns(w, u, p);
      EighthTurns(w, u, s);
    } else {
      SignedPhase(r, u, lo, hi);
      NegTwice(Mul(u, hi));
      EighthTurns(w, u, p);
      EighthTurns(w, u, s);
    }
  }

  lemma FactorPhase(r: real, w: C, a: C, b: C)
    ensures Scale(r, Plus(Mul(w, a), Mul(w, b))) == Mul(w, Scale(r, Plus(a, b)))
    ensures Scale(r, Plus(Mul(w, a), Neg(Mul(w, b)))) == Mul(w, Scale(r, Plus(a, Neg(b))))
  {
    MulScale(r, w, Plus(a, b));
    MulPlus(w, a, b);
    MulScale(r, w, Plus(a, Neg(b)));
    MulPlus(w, a, Neg(b));
    MulNeg(w, b);
  }

  lemma SignedPhase(r: real, u: C, a: C, b: C)
    ensures Scale(r, Plus(Mul(u, a), Neg(Mul(u, b)))) == Mul(u, Scale(r, Plus(a, Neg(b))))
    ensures Scale(r, Plus(Mul(u, a), Mul(u, b))) == Mul(u, Scale(r, Plus(a, b)))
  {
    FactorPhase(r, u, a, b);
  }

  lemma MulNeg(a: C, b: C)
    ensures Mul(a, Neg(b)) == Neg(Mul(a, b))
  {}

  lemma ToffoliOnCells(v: Vec, n: nat, i: nat, a: nat, b: nat, q: nat)
    requires Three(a, b, q, n) && i < |v| == Pow2(n)
    ensures forall x: bool, y: bool, z: bool ::
      Cell(Apply(Kernel([a, b], [q], X_ROWS), v), i, a, b, q, x, y, z) == Cell(v, i, a, b, q, x, y, z != (x && y))
  {
    hide Bit, Set, Pow2, Corner3, Apply;
    forall x: bool, y: bool, z: bool
      ensures Cell(Apply(Kernel([a, b], [q], X_ROWS), v), i, a, b, q, x, y, z) ==
              Cell(v, i, a, b, q, x, y, z != (x && y))
    {
      var j := Corner3(i, a, b, q, x, y, z);
      Corner3Laws(i, a, b, q, x, y, z, n);
      FlipOnIndex(v, [a, b], q, j);
      assert Active(j, [a, b]) == (x && y);
    }
  }

  /**
   * The fifteen-gate sequence is exactly the doubly controlled flip, on every state and every choice of distinct
   * qubits.
   */
  lemma ToffoliCorrect(t: Trig, v: Vec, n: nat, a: nat, b: nat, q: nat)
    requires Exact(t) && Three(a, b, q, n) && |v| == Pow2(n)
    ensures Execute(t, ToffoliGates(a, b, q), v) == Apply(Kernel([a, b], [q], X_ROWS), v)
  {
    hide Exact, Pow2, Cell, Denote, Meaning, Apply, Mul, Plus, Neg, Scale, Cis, Execute, When, InnerPhase, Eighths, R,
      InnerGates, OuterGates;
    var h, inner, outer := OneQubit(H, q), InnerGates(a, b, q), OuterGates(a, b);
    assert ToffoliGates(a, b, q) == [h] + inner + [h] + outer by { GateListShape(a, b, q); }
    ExecuteConcat(t, [h] + inner + [h], outer, v);
    ExecuteConcat(t, [h] + inner, [h], v);
    ExecuteConcat(t, [h], inner, v);
    var v1 := Execute(t, [h], v);
    var v2 := Execute(t, inner, v1);
    var v3 := Execute(t, [h], v2);
    var w, s := Execute(t, outer, v3), Apply(Kernel([a, b], [q], X_ROWS), v);
    ExecuteOne(t, h, v);
    ExecuteOne(t, h, v2);
    RootsOfGates(t);
    Half(t);
    forall i: nat | i < |v|
      ensures Cell(w, i, a, b, q, Bit(i, a), Bit(i, b), Bit(i, q)) ==
              Cell(s, i, a, b, q, Bit(i, a), Bit(i, b), Bit(i, q))
    {
      HadamardOnCells(t, v, n, i, a, b, q);
      InnerOnCells(t, v1, n, i, a, b, q);
      HadamardOnCells(t, v2, n, i, a, b, q);
      OuterOnCells(t, v3, n, i, a, b, q);
      ToffoliOnCells(v, n, i, a, b, q);
      var x, y := Bit(i, a), Bit(i, b);
      ToffoliAlgebra(R(t), Cis(t, t.pi / 4.0), Cis(t, -t.pi / 4.0), x, y,
                     Cell(v, i, a, b, q, x, y, false), Cell(v, i, a, b, q, x, y, true));
    }
    SameCells(w, s, a, b, q);
  }

  lemma GateListShape(a: nat, b: nat, q: nat)
    ensures ToffoliGates(a, b, q) == [OneQubit(H, q)] + InnerGates(a, b, q) + [OneQubit(H, q)] + OuterGates(a, b)
  {}

  // ----- global phases

  function Rotated(z: C, v: Vec): (w: Vec)
    ensures |w| == |v| && forall i :: 0 <= i < |v| ==> w[i] == Mul(z, v[i])
  {
    seq(|v|, (i: nat) requires i < |v| => Mul(z, v[i]))
  }

  lemma RotatedAt(z: C, v: Vec, i: nat)
    ensures At(Rotated(z, v), i) == Mul(z, At(v, i))
  {
    assert Mul(z, ZERO) == ZERO;
  }

  /** A global phase passes through every operator. */
  lemma ApplyRotated(k: Kernel, z: C, v: Vec)
    ensures Apply(k, Rotated(z, v)) == Rotated(z, Apply(k, v))
  {
    hide Mul, Bit, Set, Sub, Row;
    forall i | 0 <= i < |v|
      ensures Amp(k, Rotated(z, v), i) == Mul(z, Amp(k, v, i))
    {
      var f, g := (x: nat) => Term(k, v, i, x), (x: nat) => Term(k, Rotated(z, v), i, x);
      forall x: nat ensures g(x) == Mul(z, f(x)) {
        RotatedAt(z, v, Sub(i, k.targets, x));
        MulSwap(Entry(k, Row(i, k.targets), x), z, At(v, Sub(i, k.targets, x)));
      }
      SumScale(Pow2(|k.targets|), f, z, g);
      RotatedAt(z, v, i);
    }
  }

  lemma RotatedTwice(y: C, z: C, v: Vec)
    ensures Rotated(y, Rotated(z, v)) == Rotated(Mul(y, z), v)
  {
    forall i | 0 <= i < |v| ensures Mul(y, Mul(z, v[i])) == Mul(Mul(y, z), v[i]) { MulAssoc(y, z, v[i]); }
  }

  lemma DenoteRotated(t: Trig, op: Operation, z: C, v: Vec)
    ensures Denote(t, op, Rotated(z, v)) == Rotated(z, Denote(t, op, v))
  {
    hide Apply, KernelOf, Rotated;
    if op.gate != M {
      ApplyRotated(KernelOf(t, op), z, v);
    }
  }

  // ----- controlled phase as five gates

  lemma RzOnFirst(t: Trig, theta: real, v: Vec, n: nat, i: nat, a: nat, b: nat)
    requires a != b && a < n && b < n && i < |v| == Pow2(n)
    ensures var q, x, y := QuadAt(v, i, a, b), Cis(t, -theta / 2.0), Cis(t, theta / 2.0);
      QuadAt(Denote(t, Meaning(Rz(a, theta)), v), i, a, b) ==
          Quad(Mul(x, q.v00), Mul(x, q.v01), Mul(y, q.v10), Mul(y, q.v11))
  {
    hide QuadAt, Apply, Cis, Pow2, Mul, Denote, Meaning, OnFirst, MatrixForGate;
    OneQubitStmt(t, RZ, [theta], a, v);
    RzMatrix(t, theta);
    FirstOnQuad(v, n, i, a, b, RzRows(t, theta));
    DiagonalOnFirst(Cis(t, -theta / 2.0), Cis(t, theta / 2.0), QuadAt(v, i, a, b));
  }

  lemma RzOnSecond(t: Trig, theta: real, v: Vec, n: nat, i: nat, a: nat, b: nat)
    requires a != b && a < n && b < n && i < |v| == Pow2(n)
    ensures var q, x, y := QuadAt(v, i, a, b), Cis(t, -theta / 2.0), Cis(t, theta / 2.0);
      QuadAt(Denote(t, Meaning(Rz(b, theta)), v), i, a, b) ==
          Quad(Mul(x, q.v00), Mul(y, q.v01), Mul(x, q.v10), Mul(y, q.v11))
  {
    hide QuadAt, Apply, Cis, Pow2, Mul, Denote, Meaning, OnSecond, MatrixForGate;
    OneQubitStmt(t, RZ, [theta], b, v);
    RzMatrix(t, theta);
    SecondOnQuad(v, n, i, a, b, RzRows(t, theta));
    DiagonalOnSecond(Cis(t, -theta / 2.0), Cis(t, theta / 2.0), QuadAt(v, i, a, b));
  }

  /** Three quarter turns against one: `y` turns by a quarter of lam, `x` by minus a quarter. */
  lemma QuarterAlgebra(x: C, y: C, l: C, a: C)
    requires Mul(x, y) == ONE && l == Mul(Mul(y, y), Mul(y, y))
    ensures Mul(x, Mul(y, Mul(x, a))) == Mul(x, a) && Mul(y, Mul(x, Mul(x, a))) == Mul(x, a)
      && Mul(x, Mul(x, Mul(y, a))) == Mul(x, a)
    ensures Mul(y, Mul(y, Mul(y, a))) == Mul(x, Mul(l, a))
  {
    hide Mul;
    Undo(x, y, a);
    Undo(x, y, Mul(x, a));
    Undo(x, y, Mul(y, Mul(y, Mul(y, a))));
    var b := Mul(y, a);
    MulAssoc(y, y, Mul(y, b));
    MulAssoc(y, y, a);
    MulAssoc(Mul(y, y), Mul(y, y), a);
  }

  lemma Undo(x: C, y: C, a: C)
    requires Mul(x, y) == ONE
    ensures Mul(x, Mul(y, a)) == a == Mul(y, Mul(x, a))
  {
    MulAssoc(x, y, a);
    MulAssoc(y, x, a);
    MulSymmetric(x, y);
    OneTimes(a);
  }

  lemma QuarterTurnLaws(t: Trig, lam: real)
    requires Exact(t)
    ensures var y := Cis(t, lam / 4.0);
      Mul(Cis(t, -lam / 4.0), y) == ONE && Cis(t, lam) == Mul(Mul(y, y), Mul(y, y))
  {
    hide Exact, Mul;
    CisSum(t, lam / 4.0, lam / 4.0);
    CisSum(t, lam / 2.0, lam / 2.0);
    CisSum(t, -lam / 4.0, lam / 4.0);
    assert lam / 4.0 + lam / 4.0 == lam / 2.0 && lam / 2.0 + lam / 2.0 == lam && -lam / 4.0 + lam / 4.0 == 0.0;
    CisZero(t);
  }

  lemma CisZero(t: Trig)
    requires Exact(t)
    ensures Cis(t, 0.0) == ONE
  {}

  lemma ControlledPhaseOnQuad(t: Trig, lam: real, v: Vec, n: nat, i: nat, c: nat, q: nat)
    requires Exact(t) && c != q && c < n && q < n && i < |v| == Pow2(n)
    ensures var x, b := Cis(t, -lam / 4.0), QuadAt(v, i, c, q);
      QuadAt(Execute(t, ControlledPhaseGates(lam, c, q), v), i, c, q) ==
        Quad(Mul(x, b.v00), Mul(x, b.v01), Mul(x, b.v10), Mul(x, Mul(Cis(t, lam), b.v11)))
  {
    hide Exact, QuadAt, Pow2, Cis, Mul, Denote, Meaning, Execute;
    var h := lam / 2.0;
    var x, y := Cis(t, -lam / 4.0), Cis(t, lam / 4.0);
    assert -h / 2.0 == -lam / 4.0 && h / 2.0 == lam / 4.0 && -(-h) / 2.0 == lam / 4.0;
    var middle := SerializeRzz(-h, c, q);
    assert ControlledPhaseGates(lam, c, q) == [Rz(c, h)] + middle + [Rz(q, h)];
    ExecuteConcat(t, [Rz(c, h)] + middle, [Rz(q, h)], v);
    ExecuteConcat(t, [Rz(c, h)], middle, v);
    var v1 := Execute(t, [Rz(c, h)], v);
    var v2 := Execute(t, middle, v1);
    ExecuteOne(t, Rz(c, h), v);
    ExecuteOne(t, Rz(q, h), v2);
    RzOnFirst(t, h, v, n, i, c, q);
    RzzOnQuad(t, -h, v1, n, i, c, q);
    RzOnSecond(t, h, v2, n, i, c, q);
    QuarterTurnLaws(t, lam);
    var b := QuadAt(v, i, c, q);
    QuarterAlgebra(x, y, Cis(t, lam), b.v00);
    QuarterAlgebra(x, y, Cis(t, lam), b.v01);
    QuarterAlgebra(x, y, Cis(t, lam), b.v10);
    QuarterAlgebra(x, y, Cis(t, lam), b.v11);
  }

  /** A controlled phase multiplies the cell whose two bits are set. */
  lemma PhaseKernelOnQuad(v: Vec, n: nat, i: nat, c: nat, q: nat, z: C)
    requires c != q && c < n && q < n && i < |v| == Pow2(n)
    ensures var b := QuadAt(v, i, c, q);
      QuadAt(Apply(Kernel([c], [q], PhaseRows(z)), v), i, c, q) == Quad(b.v00, b.v01, b.v10, Mul(z, b.v11))
  {
    hide Bit, Set, Pow2, Corner, Apply, Mul, Active;
    forall x: bool, y: bool
      ensures At(Apply(Kernel([c], [q], PhaseRows(z)), v), Corner(i, c, q, x, y)) ==
              if x && y then Mul(z, At(v, Corner(i, c, q, x, y))) else At(v, Corner(i, c, q, x, y))
    {
      var j := Corner(i, c, q, x, y);
      CornerLaws(i, c, q, x, y, n);
      ActiveSingle(j, c);
      Sweeps.DiagonalStep(Kernel([c], [q], PhaseRows(z)), v, q, z, j);
    }
  }

  lemma ActiveSingle(j: nat, c: nat)
    ensures Active(j, [c]) == Bit(j, c)
  {}

  lemma ControlledPhaseCorrect(t: Trig, lam: real, v: Vec, n: nat, c: nat, q: nat)
    requires Exact(t) && c != q && c < n && q < n && |v| == Pow2(n)
    ensures Execute(t, ControlledPhaseGates(lam, c, q), v) ==
            Rotated(Cis(t, -lam / 4.0), Apply(Kernel([c], [q], PhaseRows(Cis(t, lam))), v))
  {
    hide Exact, Pow2, Cis, Mul, Execute, Apply, Set, ControlledPhaseGates, Corner;
    var z := Cis(t, -lam / 4.0);
    var k := Apply(Kernel([c], [q], PhaseRows(Cis(t, lam))), v);
    var w, u := Execute(t, ControlledPhaseGates(lam, c, q), v), Rotated(z, k);
    forall i: nat | i < |v| ensures QuadAt(w, i, c, q) == QuadAt(u, i, c, q) {
      ControlledPhaseOnQuad(t, lam, v, n, i, c, q);
      PhaseKernelOnQuad(v, n, i, c, q, Cis(t, lam));
      forall j: nat ensures At(u, j) == Mul(z, At(k, j)) { RotatedAt(z, k, j); }
    }
    SameQuads(w, u, c, q);
  }

  // ----- phase and u gates as rotations

  lemma RzOnPair(t: Trig, theta: real, v: Vec, n: nat, i: nat, q: nat)
    requires q < n && i < |v| == Pow2(n)
    ensures var p := PairAt(v, i, q);
      PairAt(Denote(t, Meaning(Rz(q, theta)), v), i, q) ==
          Pair2(Mul(Cis(t, -theta / 2.0), p.lo), Mul(Cis(t, theta / 2.0), p.hi))
  {
    hide PairAt, Apply, Pow2, Denote, Meaning, MixTwo, Active, Mul, Cis, MatrixForGate;
    OneQubitStmt(t, RZ, [theta], q, v);
    RzMatrix(t, theta);
    ControlledOnPair(v, n, i, [], q, RzRows(t, theta));
    UncontrolledActive(i);
    DiagonalMix(Cis(t, -theta / 2.0), Cis(t, theta / 2.0), PairAt(v, i, q).lo, PairAt(v, i, q).hi);
  }

  lemma HalfTurnLaws(t: Trig, lam: real)
    requires Exact(t)
    ensures Mul(Cis(t, -lam / 2.0), Cis(t, lam)) == Cis(t, lam / 2.0)
  {
    hide Exact, Mul;
    CisSum(t, -lam / 2.0, lam);
    assert -lam / 2.0 + lam == lam / 2.0;
  }

  lemma PhaseCorrect(t: Trig, lam: real, v: Vec, n: nat, q: nat)
    requires Exact(t) && q < n && |v| == Pow2(n)
    ensures Denote(t, Meaning(Rz(q, lam)), v) ==
            Rotated(Cis(t, -lam / 2.0), Apply(Kernel([], [q], PhaseRows(Cis(t, lam))), v))
  {
    hide Exact, Pow2, Cis, Mul, Denote, Meaning, Apply, Set, Active, MixTwo;
    var z := Cis(t, -lam / 2.0);
    var k := Apply(Kernel([], [q], PhaseRows(Cis(t, lam))), v);
    var w, u := Denote(t, Meaning(Rz(q, lam)), v), Rotated(z, k);
    HalfTurnLaws(t, lam);
    forall i: nat | i < |v| ensures PairAt(w, i, q) == PairAt(u, i, q) {
      var p := PairAt(v, i, q);
      RzOnPair(t, lam, v, n, i, q);
      ControlledOnPair(v, n, i, [], q, PhaseRows(Cis(t, lam)));
      UncontrolledActive(i);
      DiagonalMix(ONE, Cis(t, lam), p.lo, p.hi);
      OneTimes(p.lo);
      MulAssoc(z, Cis(t, lam), p.hi);
      forall j: nat ensures At(u, j) == Mul(z, At(k, j)) { RotatedAt(z, k, j); }
    }
    SamePairs(w, u, q);
  }

  function UGates(theta: real, phi: real, lam: real, q: nat): seq<Stmt> {
    [Rz(q, phi), GateStmt(RY, [theta], [q]), Rz(q, lam)]
  }

  lemma RyOnPair(t: Trig, theta: real, v: Vec, n: nat, i: nat, q: nat)
    requires q < n && i < |v| == Pow2(n)
    ensures var p, c, s := PairAt(v, i, q), t.cos(theta / 2.0), t.sin(theta / 2.0);
      PairAt(Denote(t, Meaning(GateStmt(RY, [theta], [q])), v), i, q) ==
        Pair2(Plus(Scale(c, p.lo), Scale(-s, p.hi)), Plus(Scale(s, p.lo), Scale(c, p.hi)))
  {
    hide PairAt, Apply, Pow2, Denote, Meaning, Active, Mul, Plus, Scale;
    var c, s := t.cos(theta / 2.0), t.sin(theta / 2.0);
    var m := [[Real(c), Real(-s)], [Real(s), Real(c)]];
    OneQubitStmt(t, RY, [theta], q, v);
    assert MatrixForGate(t, RY, [theta]) == m && Two(m);
    ControlledOnPair(v, n, i, [], q, m);
    UncontrolledActive(i);
    forall x: real, a: C ensures Mul(Real(x), a) == Scale(x, a) { RealTimes(x, a); }
  }

  lemma UOnPair(t: Trig, theta: real, phi: real, lam: real, v: Vec, n: nat, i: nat, q: nat)
    requires q < n && i < |v| == Pow2(n)
    ensures var p, c, s := PairAt(v, i, q), t.cos(theta / 2.0), t.sin(theta / 2.0);
      PairAt(Apply(Kernel([], [q], MatrixForGate(t, U, [theta, phi, lam])), v), i, q) ==
        Pair2(Plus(Scale(c, p.lo), Mul(Scale(-s, Cis(t, lam)), p.hi)),
              Plus(Mul(Scale(s, Cis(t, phi)), p.lo), Mul(Scale(c, Cis(t, phi + lam)), p.hi)))
  {
    hide PairAt, Apply, Pow2, Active, Mul, Plus;
    var c, s := t.cos(theta / 2.0), t.sin(theta / 2.0);
    var m := [[Real(c), Scale(-s, Cis(t, lam))], [Scale(s, Cis(t, phi)), Scale(c, Cis(t, phi + lam))]];
    URows(t, theta, phi, lam);
    assert Two(m);
    ControlledOnPair(v, n, i, [], q, m);
    UncontrolledActive(i);
    RealTimes(c, PairAt(v, i, q).lo);
  }

  /** One row of rotation-rotation-rotation against the same row of the u matrix with a phase in front. */
  lemma URowAlgebra(z: C, x: C, y: C, o: C, e: C, f: C, g: real, h: real, a: C, b: C)
    requires Mul(o, x) == Mul(z, e) && Mul(o, y) == Mul(z, f)
    ensures Mul(o, Plus(Scale(g, Mul(x, a)), Scale(h, Mul(y, b)))) ==
            Mul(z, Plus(Mul(Scale(g, e), a), Mul(Scale(h, f), b)))
  {
    hide Mul, Plus, Scale;
    MulPlus(o, Scale(g, Mul(x, a)), Scale(h, Mul(y, b)));
    MulPlus(z, Mul(Scale(g, e), a), Mul(Scale(h, f), b));
    OneProduct(z, x, o, e, g, a);
    OneProduct(z, y, o, f, h, b);
  }

  lemma OneProduct(z: C, x: C, o: C, e: C, g: real, a: C)
    requires Mul(o, x) == Mul(z, e)
    ensures Mul(o, Scale(g, Mul(x, a))) == Mul(z, Mul(Scale(g, e), a))
  {
    hide Mul, Scale;
    MulScale(g, o, Mul(x, a));
    MulAssoc(o, x, a);
    ScaleMul(g, e, a);
    MulScale(g, z, Mul(e, a));
    MulAssoc(z, e, a);
  }

  /** The phases of the four entries. */
  lemma UPhases(t: Trig, phi: real, lam: real)
    requires Exact(t)
    ensures var x1, y1, x2, y2 := Cis(t, -phi / 2.0), Cis(t, phi / 2.0), Cis(t, -lam / 2.0), Cis(t, lam / 2.0);
      var z := Cis(t, -(phi + lam) / 2.0);
      && Mul(x2, x1) == Mul(z, ONE) && Mul(x2, y1) == Mul(z, Cis(t, phi))
      && Mul(y2, x1) == Mul(z, Cis(t, lam)) && Mul(y2, y1) == Mul(z, Cis(t, lam + phi))
  {
    hide Exact, Mul, Cis;
    var z := -(phi + lam) / 2.0;
    CisZero(t);
    CisSum(t, -lam / 2.0, -phi / 2.0);
    CisSum(t, -lam / 2.0, phi / 2.0);
    CisSum(t, lam / 2.0, -phi / 2.0);
    CisSum(t, lam / 2.0, phi / 2.0);
    CisSum(t, z, 0.0);
    CisSum(t, z, phi);
    CisSum(t, z, lam);
    CisSum(t, z, lam + phi);
    assert -lam / 2.0 + -phi / 2.0 == z + 0.0 && -lam / 2.0 + phi / 2.0 == z + phi;
    assert lam / 2.0 + -phi / 2.0 == z + lam && lam / 2.0 + phi / 2.0 == z + (lam + phi);
  }

  /** The backend's `u` is the simulator's with phi and lam exchanged. */
  lemma UCorrect(t: Trig, theta: real, phi: real, lam: real, v: Vec, n: nat, q: nat)
    requires Exact(t) && q < n && |v| == Pow2(n)
    ensures Execute(t, UGates(theta, phi, lam, q), v) ==
            Rotated(Cis(t, -(phi + lam) / 2.0), Apply(Kernel([], [q], MatrixForGate(t, U, [theta, lam, phi])), v))
  {
    hide Exact, Pow2, Cis, Mul, Plus, Scale, Denote, Meaning, Apply, Set, MatrixForGate, Execute;
    var z := Cis(t, -(phi + lam) / 2.0);
    var c, s := t.cos(theta / 2.0), t.sin(theta / 2.0);
    var k := Apply(Kernel([], [q], MatrixForGate(t, U, [theta, lam, phi])), v);
    ExecuteThree(t, Rz(q, phi), GateStmt(RY, [theta], [q]), Rz(q, lam), v);
    var v1 := Denote(t, Meaning(Rz(q, phi)), v);
    var v2 := Denote(t, Meaning(GateStmt(RY, [theta], [q])), v1);
    var w, u := Denote(t, Meaning(Rz(q, lam)), v2), Rotated(z, k);
    UPhases(t, phi, lam);
    forall i: nat | i < |v| ensures PairAt(w, i, q) == PairAt(u, i, q) {
      var p := PairAt(v, i, q);
      RzOnPair(t, phi, v, n, i, q);
      RyOnPair(t, theta, v1, n, i, q);
      RzOnPair(t, lam, v2, n, i, q);
      UOnPair(t, theta, lam, phi, v, n, i, q);
      URowAlgebra(z, Cis(t, -phi / 2.0), Cis(t, phi / 2.0), Cis(t, -lam / 2.0), ONE, Cis(t, phi), c, -s, p.lo, p.hi);
      URowAlgebra(z, Cis(t, -phi / 2.0), Cis(t, phi / 2.0), Cis(t, lam / 2.0), Cis(t, lam), Cis(t, lam + phi), s, c,
                  p.lo, p.hi);
      ScaleMul(c, ONE, p.lo);
      OneTimes(p.lo);
      forall j: nat ensures At(u, j) == Mul(z, At(k, j)) { RotatedAt(z, k, j); }
    }
    SamePairs(w, u, q);
  }

  // ----- the compiler

  /** The gates the backend adds for one payload operation. */
  function BackendGates(pi: real, op: Operation): seq<Stmt>
    requires Shaped(op)
  {
    if op.gate == M then [MeasureStmt(op.targets[0], op.targets[0])]
    else if op.gate == CP then ControlledPhaseGates(op.params[0], op.controls[0], op.targets[0])
    else if op.gate == CCX then ToffoliGates(op.controls[0], op.controls[1], op.targets[0])
    else if op.gate == P then [Rz(op.targets[0], op.params[0])]
    else if op.gate == U then UGates(op.params[0], op.params[1], op.params[2], op.targets[0])
    else if op.gate == SY then [GateStmt(RY, [pi / 2.0], op.targets)]
    else [GateStmt(op.gate, op.params, op.controls + op.targets)]
  }

  /** What the backend executes for an operation: itself, except that `u` has its last two angles exchanged. */
  function Executed(op: Operation): Operation {
    if op.gate == U && |op.params| == 3 then op.(params := [op.params[0], op.params[2], op.params[1]]) else op
  }

  function PhaseOf(t: Trig, op: Operation): C {
    if op.gate == CP && |op.params| == 1 then Cis(t, -op.params[0] / 4.0)
    else if op.gate == P && |op.params| == 1 then Cis(t, -op.params[0] / 2.0)
    else if op.gate == U && |op.params| == 3 then Cis(t, -(op.params[1] + op.params[2]) / 2.0)
    else ONE
  }

  lemma RotatedOne(v: Vec)
    ensures Rotated(ONE, v) == v
  {
    forall i | 0 <= i < |v| ensures Mul(ONE, v[i]) == v[i] { OneTimes(v[i]); }
  }

  lemma BackendDirect(t: Trig, op: Operation, n: nat, v: Vec)
    requires WellFormed(op, n) && op.gate !in {M, CP, CCX, P, U, SY}
    ensures Execute(t, BackendGates(t.pi, op), v) == Denote(t, op, v)
  {
    hide Denote;
    var s := GateStmt(op.gate, op.params, op.controls + op.targets);
    ExecuteOne(t, s, v);
    SameMeaning(t, Meaning(s), op, v);
  }

  lemma BackendCp(t: Trig, op: Operation, n: nat, v: Vec)
    requires Exact(t) && WellFormed(op, n) && Distinct(Qubits(op)) && |v| == Pow2(n) && op.gate == CP
    ensures Execute(t, BackendGates(t.pi, op), v) == Rotated(PhaseOf(t, op), Denote(t, op, v))
  {
    hide Execute, Exact, Apply, Pow2, Rotated, Cis, PhaseRows, ControlledPhaseGates;
    var c, q := op.controls[0], op.targets[0];
    assert Qubits(op)[0] == q && op.targets == [q] && Qubits(op)[1] == c && op.controls == [c];
    ControlledPhaseCorrect(t, op.params[0], v, n, c, q);
  }

  lemma BackendP(t: Trig, op: Operation, n: nat, v: Vec)
    requires Exact(t) && WellFormed(op, n) && |v| == Pow2(n) && op.gate == P
    ensures Execute(t, BackendGates(t.pi, op), v) == Rotated(PhaseOf(t, op), Denote(t, op, v))
  {
    hide Execute, Exact, Apply, Pow2, Rotated, Cis, MatrixForGate, PhaseRows, Qubits, Within, Meaning, Denote;
    var q := op.targets[0];
    assert q < n by { FirstTarget(op, n); }
    assert op.targets == [q];
    ExecuteOne(t, Rz(q, op.params[0]), v);
    PhaseCorrect(t, op.params[0], v, n, q);
    PhaseDenotes(t, op, v);
  }

  lemma BackendU(t: Trig, op: Operation, n: nat, v: Vec)
    requires Exact(t) && WellFormed(op, n) && |v| == Pow2(n) && op.gate == U
    ensures Execute(t, BackendGates(t.pi, op), v) == Rotated(PhaseOf(t, op), Denote(t, Executed(op), v))
  {
    hide Execute, Exact, Apply, Pow2, Rotated, Cis, MatrixForGate, UGates, Mul, UMatrix;
    var q := op.targets[0];
    assert q < n by { FirstTarget(op, n); }
    assert op.targets == [q];
    UCorrect(t, op.params[0], op.params[1], op.params[2], v, n, q);
  }

  lemma BackendExact(t: Trig, op: Operation, n: nat, v: Vec)
    requires Exact(t) && WellFormed(op, n) && Distinct(Qubits(op)) && |v| == Pow2(n) && op.gate !in {CP, P, U}
    ensures Execute(t, BackendGates(t.pi, op), v) == Denote(t, op, v)
  {
    hide Execute, Exact, Apply, Pow2, MatrixForGate, PhaseRows, ToffoliGates;
    var q := op.targets[0];
    if op.gate == M {
      MeasurementPreserved(t, op, v);
    } else if op.gate == CCX {
      assert Qubits(op)[0] == q && Qubits(op)[1] == op.controls[0] && Qubits(op)[2] == op.controls[1];
      assert op.targets == [q] && op.controls == [op.controls[0], op.controls[1]];
      ToffoliCorrect(t, v, n, op.controls[0], op.controls[1], q);
    } else if op.gate == SY {
      assert op.targets == [q];
      SyPreserved(t, op, v);
    } else {
      BackendDirect(t, op, n, v);
    }
  }

  /** Up to one global phase, the added gates have the effect of the executed operation. */
  lemma BackendCorrect(t: Trig, op: Operation, n: nat, v: Vec)
    requires Exact(t) && WellFormed(op, n) && Distinct(Qubits(op)) && |v| == Pow2(n)
    ensures Execute(t, BackendGates(t.pi, op), v) == Rotated(PhaseOf(t, op), Denote(t, Executed(op), v))
  {
    hide Execute, Exact, Denote, Pow2, Rotated, Cis, BackendGates;
    if op.gate == CP {
      BackendCp(t, op, n, v);
    } else if op.gate == P {
      BackendP(t, op, n, v);
    } else if op.gate == U {
      BackendU(t, op, n, v);
    } else {
      BackendExact(t, op, n, v);
      RotatedOne(Denote(t, op, v));
    }
  }

  lemma PhaseDenotes(t: Trig, op: Operation, v: Vec)
    requires op.gate == P && |op.params| == 1
    ensures Denote(t, op, v) == Apply(Kernel([], op.targets, PhaseRows(Cis(t, op.params[0]))), v)
  {
    hide Apply, PhaseRows, Cis;
    PhaseMatrix(t, op.params);
  }

  lemma PhaseMatrix(t: Trig, params: seq<real>)
    requires |params| == 1
    ensures MatrixForGate(t, P, params) == PhaseRows(Cis(t, params[0]))
  {}

  function AllGates(pi: real, ops: seq<Operation>): seq<Stmt>
    requires forall k :: 0 <= k < |ops| ==> Shaped(ops[k])
  {
    if ops == [] then [] else BackendGates(pi, ops[0]) + AllGates(pi, ops[1..])
  }

  function AllExecuted(ops: seq<Operation>): (r: seq<Operation>)
    ensures |r| == |ops| && forall k :: 0 <= k < |ops| ==> r[k] == Executed(ops[k])
  {
    if ops == [] then [] else [Executed(ops[0])] + AllExecuted(ops[1..])
  }

  function TotalPhase(t: Trig, ops: seq<Operation>): C {
    if ops == [] then ONE else Mul(PhaseOf(t, ops[0]), TotalPhase(t, ops[1..]))
  }

  /** The registers measured when the payload measures nothing. */
  function MeasureAll(n: nat): seq<Stmt> {
    seq(n, (q: nat) => MeasureStmt(q, q))
  }

  lemma {:induction false} AllGatesSnoc(pi: real, ops: seq<Operation>, op: Operation)
    requires Shaped(op) && forall k :: 0 <= k < |ops| ==> Shaped(ops[k])
    ensures AllGates(pi, ops + [op]) == AllGates(pi, ops) + BackendGates(pi, op)
  {
    hide BackendGates, Shaped;
    if ops == [] {
      assert ops + [op] == [op] && AllGates(pi, [op][1..]) == [];
    } else {
      assert (ops + [op])[1..] == ops[1..] + [op];
      AllGatesSnoc(pi, ops[1..], op);
    }
  }

  /** The measurements of a gate list, in order. */
  function Measurements(stmts: seq<Stmt>): seq<Stmt> {
    if stmts == [] then []
    else if stmts[0].MeasureStmt? then [stmts[0]] + Measurements(stmts[1..])
    else Measurements(stmts[1..])
  }

  /** The measurements a payload asks for, in order. */
  function Requested(ops: seq<Operation>): seq<Stmt>
    requires forall k :: 0 <= k < |ops| ==> Shaped(ops[k])
  {
    if ops == [] then []
    else
      assert Shaped(ops[0]);
      if ops[0].gate == M then [MeasureStmt(ops[0].targets[0], ops[0].targets[0])] + Requested(ops[1..])
      else Requested(ops[1..])
  }

  lemma {:induction false} MeasurementsConcat(a: seq<Stmt>, b: seq<Stmt>)
    ensures Measurements(a + b) == Measurements(a) + Measurements(b)
  {
    if a == [] {
      assert a + b == b;
    } else {
      assert (a + b)[1..] == a[1..] + b && (a + b)[0] == a[0];
      MeasurementsConcat(a[1..], b);
      ConcatAssociates([a[0]], Measurements(a[1..]), Measurements(b));
    }
  }

  lemma {:induction false} NoMeasurements(stmts: seq<Stmt>)
    ensures Measurements(stmts) == [] <==> forall k :: 0 <= k < |stmts| ==> stmts[k].GateStmt?
  {
    if stmts != [] {
      NoMeasurements(stmts[1..]);
      assert forall k :: 0 < k < |stmts| ==> stmts[k] == stmts[1..][k - 1];
    }
  }

  lemma {:induction false} MeasuresRequested(pi: real, ops: seq<Operation>)
    requires forall k :: 0 <= k < |ops| ==> Shaped(ops[k])
    ensures Measurements(AllGates(pi, ops)) == Requested(ops)
    ensures Requested(ops) == [] <==> forall op :: op in ops ==> op.gate != M
  {
    hide Shaped, BackendGates;
    if ops != [] {
      MeasuresRequested(pi, ops[1..]);
      MeasurementsConcat(BackendGates(pi, ops[0]), AllGates(pi, ops[1..]));
      assert Shaped(ops[0]);
      OneMeasured(pi, ops[0]);
      assert ops == [ops[0]] + ops[1..];
    }
  }

  lemma OneMeasured(pi: real, op: Operation)
    requires Shaped(op)
    ensures Measurements(BackendGates(pi, op)) ==
            if op.gate == M then [MeasureStmt(op.targets[0], op.targets[0])] else []
  {
    var gates := BackendGates(pi, op);
    if op.gate == M {
      assert gates[1..] == [];
    } else {
      NoMeasurements(gates);
    }
  }

  /** The payload loop: one gate list, and whether the payload measures anything itself. */
  method BuildCircuit(pi: real, numQubits: nat, operations: seq<Operation>)
    returns (circuit: seq<Stmt>, hasMeasurement: bool)
    requires forall k :: 0 <= k < |operations| ==> Shaped(operations[k])
    ensures hasMeasurement <==> exists op :: op in operations && op.gate == M
    ensures hasMeasurement ==> circuit == AllGates(pi, operations) && Measurements(circuit) == Requested(operations)
    ensures !hasMeasurement ==>
      var gates := AllGates(pi, operations);
      && |circuit| == |gates| + numQubits && circuit[..|gates|] == gates
      && (forall k :: 0 <= k < |gates| ==> gates[k].GateStmt?)
      && (forall q :: 0 <= q < numQubits ==> circuit[|gates| + q] == MeasureStmt(q, q))
  {
    hide BackendGates, AllGates, Shaped;
    circuit, hasMeasurement := [], false;
    assert AllGates(pi, []) == [] by { NoGates(pi); }
    for k := 0 to |operations|
      invariant hasMeasurement <==> exists op :: op in operations[..k] && op.gate == M
      invariant circuit == AllGates(pi, operations[..k])
    {
      var operation := operations[k];
      assert operations[..k + 1] == operations[..k] + [operation];
      AllGatesSnoc(pi, operations[..k], operation);
      hasMeasurement := hasMeasurement || operation.gate == M;
      circuit := circuit + BackendGates(pi, operation);
    }
    assert operations[..|operations|] == operations;
    MeasuresRequested(pi, operations);
    NoMeasurements(circuit);
    if !hasMeasurement {
      circuit := circuit + MeasureAll(numQubits);
    }
  }

  lemma NoGates(pi: real)
    ensures AllGates(pi, []) == []
  {}

  /** The whole gate list, run on any state, is the circuit of executed operations up to one global phase. */
  lemma {:induction false} BackendCircuitCorrect(t: Trig, ops: seq<Operation>, n: nat, v: Vec)
    requires Exact(t) && |v| == Pow2(n)
    requires forall k :: 0 <= k < |ops| ==> WellFormed(ops[k], n) && Distinct(Qubits(ops[k])) && Shaped(ops[k])
    ensures Execute(t, AllGates(t.pi, ops), v) == Rotated(TotalPhase(t, ops), DenoteAll(t, AllExecuted(ops), v))
  {
    hide Exact, Pow2, Rotated, PhaseOf, BackendGates, Denote, Executed, WellFormed, Distinct, Mul, Shaped, Qubits;
    if ops == [] {
      RotatedOne(v);
    } else {
      var rest := ops[1..];
      ExecuteConcat(t, BackendGates(t.pi, ops[0]), AllGates(t.pi, rest), v);
      BackendCorrect(t, ops[0], n, v);
      var z, v1 := PhaseOf(t, ops[0]), Denote(t, Executed(ops[0]), v);
      BackendCircuitCorrect(t, rest, n, Rotated(z, v1));
      DenoteAllRotated(t, AllExecuted(rest), z, v1);
      RotatedTwice(TotalPhase(t, rest), z, DenoteAll(t, AllExecuted(rest), v1));
      MulSymmetric(TotalPhase(t, rest), z);
      assert AllExecuted(ops)[1..] == AllExecuted(rest);
    }
  }

  lemma {:induction false} DenoteAllRotated(t: Trig, ops: seq<Operation>, z: C, v: Vec)
    ensures DenoteAll(t, ops, Rotated(z, v)) == Rotated(z, DenoteAll(t, ops, v))
  {
    hide Denote, Rotated;
    if ops != [] {
      DenoteRotated(t, ops[0], z, v);
      DenoteAllRotated(t, ops[1..], z, Denote(t, ops[0], v));
    }
  }

  /** The accumulated phase has modulus one, so it changes no probability. */
  lemma {:induction false} PhaseIsUnit(t: Trig, ops: seq<Operation>, a: C)
    requires Exact(t)
    ensures Norm2(TotalPhase(t, ops)) == 1.0
    ensures Norm2(Mul(TotalPhase(t, ops), a)) == Norm2(a)
  {
    hide Exact, Mul, Norm2;
    if ops == [] {
      NormMul(ONE, a);
      assert Norm2(ONE) == 1.0 by { NormOne(); }
    } else {
      PhaseIsUnit(t, ops[1..], a);
      UnitPhase(t, ops[0]);
      NormMul(PhaseOf(t, ops[0]), TotalPhase(t, ops[1..]));
      NormMul(TotalPhase(t, ops), a);
    }
  }

  lemma NormOne()
    ensures Norm2(ONE) == 1.0
  {}

  lemma UnitPhase(t: Trig, op: Operation)
    requires Exact(t)
    ensures Norm2(PhaseOf(t, op)) == 1.0
  {
    hide Exact;
    if |op.params| == 1 {
      CisNorm(t, -op.params[0] / 4.0);
      CisNorm(t, -op.params[0] / 2.0);
    } else if |op.params| == 3 {
      CisNorm(t, -(op.params[1] + op.params[2]) / 2.0);
    }
  }
}
