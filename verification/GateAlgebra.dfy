/** The one-qubit gates among themselves: roots, inverses and conjugates, as operators on every state. */
module GateAlgebra {
  import opened Bits
  import opened Complex
  import opened Trigonometry
  import opened Circuits
  import opened Kernels
  import opened Gates
  import opened Blocks
  import opened QasmStatements
  import opened Decompositions

  function Dot(a: C, b: C, c: C, d: C): C { Plus(Mul(a, c), Mul(b, d)) }

  /** The matrix product. */
  function Product(a: Rows, b: Rows): Rows
    requires Two(a) && Two(b)
  {
    [[Dot(a[0][0], a[0][1], b[0][0], b[1][0]), Dot(a[0][0], a[0][1], b[0][1], b[1][1])],
     [Dot(a[1][0], a[1][1], b[0][0], b[1][0]), Dot(a[1][0], a[1][1], b[0][1], b[1][1])]]
  }

  lemma DotAssociates(a: C, b: C, x: C, y: C, z: C, w: C, p: C, q: C)
    ensures Dot(a, b, Dot(x, y, p, q), Dot(z, w, p, q)) == Dot(Dot(a, b, x, z), Dot(a, b, y, w), p, q)
  {
    hide Mul, Plus;
    MulPlus(a, Mul(x, p), Mul(y, q));
    MulPlus(b, Mul(z, p), Mul(w, q));
    MulAssoc(a, x, p);
    MulAssoc(a, y, q);
    MulAssoc(b, z, p);
    MulAssoc(b, w, q);
    PlusMul(Mul(a, x), Mul(b, z), p);
    PlusMul(Mul(a, y), Mul(b, w), q);
    PlusExchange(Mul(Mul(a, x), p), Mul(Mul(a, y), q), Mul(Mul(b, z), p), Mul(Mul(b, w), q));
  }

  lemma PlusMul(a: C, b: C, c: C)
    ensures Mul(Plus(a, b), c) == Plus(Mul(a, c), Mul(b, c))
  {}

  lemma PlusExchange(a: C, b: C, c: C, d: C)
    ensures Plus(Plus(a, b), Plus(c, d)) == Plus(Plus(a, c), Plus(b, d))
  {}

  lemma MixProduct(a: Rows, b: Rows, p: Pair2)
    requires Two(a) && Two(b)
    ensures MixPair(a, MixPair(b, p)) == MixPair(Product(a, b), p)
  {
    hide Mul, Plus;
    DotAssociates(a[0][0], a[0][1], b[0][0], b[0][1], b[1][0], b[1][1], p.lo, p.hi);
    DotAssociates(a[1][0], a[1][1], b[0][0], b[0][1], b[1][0], b[1][1], p.lo, p.hi);
  }

  /** Two matrices on one qubit, one after the other, are their product. */
  lemma Compose(a: Rows, b: Rows, v: Vec, n: nat, q: nat)
    requires Two(a) && Two(b) && q < n && |v| == Pow2(n)
    ensures Apply(Kernel([], [q], a), Apply(Kernel([], [q], b), v)) == Apply(Kernel([], [q], Product(a, b)), v)
  {
    hide Apply, PairAt, MixPair, Pow2, Active, Product;
    var w := Apply(Kernel([], [q], b), v);
    var x, y := Apply(Kernel([], [q], a), w), Apply(Kernel([], [q], Product(a, b)), v);
    assert Two(Product(a, b)) by { ProductShape(a, b); }
    forall i: nat | i < |v| ensures PairAt(x, i, q) == PairAt(y, i, q) {
      UncontrolledActive(i);
      ControlledOnPair(v, n, i, [], q, b);
      ControlledOnPair(w, n, i, [], q, a);
      ControlledOnPair(v, n, i, [], q, Product(a, b));
      MixProduct(a, b, PairAt(v, i, q));
    }
    SamePairs(x, y, q);
  }

  lemma ProductShape(a: Rows, b: Rows)
    requires Two(a) && Two(b)
    ensures Two(Product(a, b))
  {}

  /** A parameterless one-qubit gate on the whole state. */
  function On(t: Trig, g: GateName, q: nat, v: Vec): Vec {
    Apply(Kernel([], [q], MatrixForGate(t, g, [])), v)
  }

  function Square(a: C, b: C, c: C, d: C): Rows { [[a, b], [c, d]] }

  lemma ProductIs(a: C, b: C, c: C, d: C, x: C, y: C, z: C, w: C)
    ensures Product(Square(a, b, c, d), Square(x, y, z, w)) ==
            Square(Dot(a, b, x, z), Dot(a, b, y, w), Dot(c, d, x, z), Dot(c, d, y, w))
  {
    hide Dot;
  }

  lemma RootProducts(h: real)
    requires h + h == 1.0
    ensures Mul(C(h, h), C(h, h)) == C(0.0, h) && Mul(C(h, -h), C(h, -h)) == C(0.0, -h)
    ensures Mul(C(h, h), C(h, -h)) == C(h, 0.0) == Mul(C(h, -h), C(h, h))
  {
    assert h * h + h * h == h * (h + h) == h;
  }

  lemma RootDots(h: real)
    requires h + h == 1.0
    ensures var a, b := C(h, h), C(h, -h);
      Dot(a, b, a, b) == ZERO == Dot(b, a, b, a) && Dot(a, b, b, a) == ONE == Dot(b, a, a, b)
  {
    hide Mul;
    RootProducts(h);
  }

  lemma SquareRootOfX(t: Trig, v: Vec, n: nat, q: nat)
    requires q < n && |v| == Pow2(n)
    ensures On(t, SX, q, On(t, SX, q, v)) == On(t, X, q, v)
  {
    hide Apply, Pow2, Dot, Product;
    var a, b := C(0.5, 0.5), C(0.5, -0.5);
    RootDots(0.5);
    ProductIs(a, b, b, a, a, b, b, a);
    Compose(Square(a, b, b, a), Square(a, b, b, a), v, n, q);
  }

  lemma PhaseProduct(a: C, b: C)
    ensures Product(PhaseRows(a), PhaseRows(b)) == PhaseRows(Mul(a, b))
  {
    PhaseDots(a, b);
    hide Dot, Mul;
    ProductIs(ONE, ZERO, ZERO, a, ONE, ZERO, ZERO, b);
  }

  lemma MulTrivial(a: C)
    ensures Mul(a, ZERO) == ZERO && Mul(ZERO, a) == ZERO && Mul(ONE, a) == a && Mul(a, ONE) == a
  {}

  lemma PlusTrivial(a: C)
    ensures Plus(a, ZERO) == a && Plus(ZERO, a) == a
  {}

  lemma PhaseDots(a: C, b: C)
    ensures Dot(ONE, ZERO, ONE, ZERO) == ONE && Dot(ONE, ZERO, ZERO, b) == ZERO
    ensures Dot(ZERO, a, ONE, ZERO) == ZERO && Dot(ZERO, a, ZERO, b) == Mul(a, b)
  {
    hide Mul, Plus;
    MulTrivial(ONE);
    MulTrivial(ZERO);
    MulTrivial(a);
    MulTrivial(b);
    PlusTrivial(ONE);
    PlusTrivial(ZERO);
    PlusTrivial(Mul(a, b));
  }

  lemma PhasesCompose(t: Trig, g: GateName, h: GateName, k: GateName, a: C, b: C, v: Vec, n: nat, q: nat)
    requires q < n && |v| == Pow2(n)
    requires MatrixForGate(t, g, []) == PhaseRows(a) && MatrixForGate(t, h, []) == PhaseRows(b)
      && MatrixForGate(t, k, []) == PhaseRows(Mul(a, b))
    ensures On(t, g, q, On(t, h, q, v)) == On(t, k, q, v)
  {
    hide Apply, Pow2, MatrixForGate, Product, Mul;
    PhaseProduct(a, b);
    Compose(PhaseRows(a), PhaseRows(b), v, n, q);
  }

  /** The phases of the diagonal gates; `z` is an eighth of a turn. */
  lemma PhaseMatrices(t: Trig)
    ensures MatrixForGate(t, I, []) == PhaseRows(ONE) && MatrixForGate(t, Z, []) == PhaseRows(Real(-1.0))
    ensures MatrixForGate(t, S, []) == PhaseRows(C(0.0, 1.0)) && MatrixForGate(t, SDG, []) == PhaseRows(C(0.0, -1.0))
    ensures MatrixForGate(t, T, []) == PhaseRows(Cis(t, t.pi / 4.0))
      && MatrixForGate(t, TDG, []) == PhaseRows(Cis(t, -t.pi / 4.0))
  {
    hide Cis;
  }

  lemma PhaseMultiples(t: Trig)
    requires Exact(t)
    ensures Mul(C(0.0, 1.0), C(0.0, 1.0)) == Real(-1.0) && Mul(C(0.0, 1.0), C(0.0, -1.0)) == ONE
    ensures Mul(Cis(t, t.pi / 4.0), Cis(t, t.pi / 4.0)) == C(0.0, 1.0)
    ensures Mul(Cis(t, t.pi / 4.0), Cis(t, -t.pi / 4.0)) == ONE
  {
    Half(t);
    CisNeg(t, t.pi / 4.0);
    hide Exact;
    EighthSquare(R(t));
  }

  lemma EighthSquare(r: real)
    requires r * r == 0.5
    ensures Mul(C(r, r), C(r, r)) == C(0.0, 1.0) && Mul(C(r, r), C(r, -r)) == ONE
  {}

  /** `t` twice is `s`, `s` twice is `z`, and the daggered gates undo theirs; `sx` twice is `x`. */
  lemma RootsAndInverses(t: Trig, v: Vec, n: nat, q: nat)
    requires Exact(t) && q < n && |v| == Pow2(n)
    ensures On(t, SX, q, On(t, SX, q, v)) == On(t, X, q, v)
    ensures On(t, S, q, On(t, S, q, v)) == On(t, Z, q, v)
    ensures On(t, T, q, On(t, T, q, v)) == On(t, S, q, v)
    ensures On(t, S, q, On(t, SDG, q, v)) == On(t, I, q, v)
    ensures On(t, T, q, On(t, TDG, q, v)) == On(t, I, q, v)
  {
    hide Apply, Pow2, MatrixForGate, Exact, Mul, Cis, On, PhaseRows;
    SquareRootOfX(t, v, n, q);
    PhaseMatrices(t);
    PhaseMultiples(t);
    var i, j := C(0.0, 1.0), C(0.0, -1.0);
    var e, f := Cis(t, t.pi / 4.0), Cis(t, -t.pi / 4.0);
    PhasesCompose(t, S, S, Z, i, i, v, n, q);
    PhasesCompose(t, T, T, S, e, e, v, n, q);
    PhasesCompose(t, S, SDG, I, i, j, v, n, q);
    PhasesCompose(t, T, TDG, I, e, f, v, n, q);
  }

  // ----- the rotation about x is the rotation about z between two Hadamards

  lemma RxPair(t: Trig, theta: real, p: Pair2)
    ensures var m, c, s := MatrixForGate(t, RX, [theta]), t.cos(theta / 2.0), t.sin(theta / 2.0);
      Two(m) && MixPair(m, p) == Pair2(Plus(Scale(c, p.lo), Turn(-s, p.hi)), Plus(Turn(-s, p.lo), Scale(c, p.hi)))
  {
    hide Mul, Plus, Scale, Turn;
    var c, s := t.cos(theta / 2.0), t.sin(theta / 2.0);
    RealTimes(c, p.lo);
    RealTimes(c, p.hi);
    RealTimes(-s, p.lo);
    RealTimes(-s, p.hi);
  }

  lemma DiagonalPair(x: C, y: C, p: Pair2)
    ensures MixPair([[x, ZERO], [ZERO, y]], p) == Pair2(Mul(x, p.lo), Mul(y, p.hi))
  {
    hide MixTwo, Mul;
    DiagonalMix(x, y, p.lo, p.hi);
  }

  /** Hadamard, rz, Hadamard is rx by the same angle. */
  lemma RxFromRz(t: Trig, theta: real, v: Vec, n: nat, q: nat)
    requires Exact(t) && q < n && |v| == Pow2(n)
    ensures On(t, H, q, Apply(Kernel([], [q], MatrixForGate(t, RZ, [theta])), On(t, H, q, v))) ==
            Apply(Kernel([], [q], MatrixForGate(t, RX, [theta])), v)
  {
    hide Apply, Pow2, MatrixForGate, Exact, Mul, Cis, PairAt, MixPair, Active, Plus, Scale, Turn, Neg, R, HRows;
    var c, s := t.cos(theta / 2.0), t.sin(theta / 2.0);
    var v1 := On(t, H, q, v);
    var v2 := Apply(Kernel([], [q], MatrixForGate(t, RZ, [theta])), v1);
    var x, y := On(t, H, q, v2), Apply(Kernel([], [q], MatrixForGate(t, RX, [theta])), v);
    RzMatrix(t, theta);
    CisHalves(t, theta);
    forall i: nat | i < |v| ensures PairAt(x, i, q) == PairAt(y, i, q) {
      var p := PairAt(v, i, q);
      UncontrolledActive(i);
      OnPair(t, v, n, i, q);
      ControlledOnPair(v1, n, i, [], q, RzRows(t, theta));
      DiagonalPair(Cis(t, -theta / 2.0), Cis(t, theta / 2.0), PairAt(v1, i, q));
      OnPair(t, v2, n, i, q);
      RxPair(t, theta, p);
      ControlledOnPair(v, n, i, [], q, MatrixForGate(t, RX, [theta]));
      ZxAlgebra(t, c, s, p.lo, p.hi);
    }
    SamePairs(x, y, q);
  }

  lemma OnPair(t: Trig, v: Vec, n: nat, i: nat, q: nat)
    requires q < n && i < |v| == Pow2(n)
    ensures var p := PairAt(v, i, q);
      PairAt(On(t, H, q, v), i, q) == Pair2(Scale(R(t), Plus(p.lo, p.hi)), Scale(R(t), Plus(p.lo, Neg(p.hi))))
  {
    hide Apply, Pow2, MatrixForGate, Denote, Meaning, PairAt, R;
    HadamardOnPair(t, v, n, i, q);
    OneQubitStmt(t, H, [], q, v);
  }
}
