/** The five specialised in-place kernels: each computes the operator of the general construction. */
module SimulationControlled {
  import opened Bits
  import opened Complex
  import opened Trigonometry
  import opened Kernels
  import opened Gates
  import opened Sweeps

  /** At position `b` the controlled-X sweep either has nothing to do or exchanges a pair. */
  lemma FlipStep(k: Kernel, v: Vec, n: nat, t: nat, b: nat)
    requires k.targets == [t] && k.rows == X_ROWS && Within(Touched(k), n) && Distinct(Touched(k))
    requires |v| == Pow2(n) && b < |v|
    ensures var w, p := Apply(k, v), Or(b, Pow2(t));
      if And(b, Pow2(t)) != 0 || !Active(b, k.controls) then IdleStep(v, w, Lower(t), b)
      else ExactPair(|v|, Lower(t), b, p) && w[b] == v[p] && w[p] == v[b]
  {
    assert Pow2(1) == 2 * Pow2(0);
    OneTargetStep(k, v, n, t, b);
    var p := Or(b, Pow2(t));
    if And(b, Pow2(t)) == 0 && Active(b, k.controls) {
      assert Entry(k, 0, 0) == ZERO == Entry(k, 1, 1) && Entry(k, 0, 1) == ONE == Entry(k, 1, 0);
      Absorb(ONE, v[b], v[p]);
      Absorb(ONE, v[p], v[b]);
    }
  }

  method ApplyControlledX(re: array<real>, im: array<real>, n: nat, control: nat, target: nat)
    requires Stores(re, im, n) && control < n && target < n && control != target
    modifies re, im
    ensures Amps(re, im) == Apply(Kernel([control], [target], X_ROWS), old(Amps(re, im)))
  {
    var dimension := Pow2(n);
    var controlMask := Pow2(control);
    var targetMask := Pow2(target);
    ghost var v := Amps(re, im);
    ghost var k := Kernel([control], [target], X_ROWS);
    ghost var w := Apply(k, v);
    SweepStart(v, w, Lower(target));
    hide *;
    for basis := 0 to dimension
      invariant Swept(Amps(re, im), v, w, Lower(target), basis)
    {
      ActiveOne(basis, control);
      FlipStep(k, v, n, target, basis);
      ghost var cur := Amps(re, im);
      if And(basis, controlMask) == 0 || And(basis, targetMask) != 0 {
        SweepSkip(cur, v, w, Lower(target), basis);
        continue;
      }
      var paired := Or(basis, targetMask);
      SweepPair(cur, v, w, Lower(target), basis, paired);
      ExchangeAmplitudes(re, im, basis, paired);
    }
    LowerLaws(target, n, 0);
    SweepDone(Amps(re, im), v, w, Lower(target));
  }


  method ApplyDoubleControlledX(re: array<real>, im: array<real>, n: nat, controlA: nat, controlB: nat, target: nat)
    requires Stores(re, im, n) && controlA < n && controlB < n && target < n
    requires controlA != controlB && controlA != target && controlB != target
    modifies re, im
    ensures Amps(re, im) == Apply(Kernel([controlA, controlB], [target], X_ROWS), old(Amps(re, im)))
  {
    var dimension := Pow2(n);
    var controlMaskA := Pow2(controlA);
    var controlMaskB := Pow2(controlB);
    var targetMask := Pow2(target);
    ghost var v := Amps(re, im);
    ghost var k := Kernel([controlA, controlB], [target], X_ROWS);
    ghost var w := Apply(k, v);
    SweepStart(v, w, Lower(target));
    hide *;
    for basis := 0 to dimension
      invariant Swept(Amps(re, im), v, w, Lower(target), basis)
    {
      ActiveTwo(basis, controlA, controlB);
      FlipStep(k, v, n, target, basis);
      ghost var cur := Amps(re, im);
      if And(basis, controlMaskA) == 0 || And(basis, controlMaskB) == 0 || And(basis, targetMask) != 0 {
        SweepSkip(cur, v, w, Lower(target), basis);
        continue;
      }
      var paired := Or(basis, targetMask);
      SweepPair(cur, v, w, Lower(target), basis, paired);
      ExchangeAmplitudes(re, im, basis, paired);
    }
    LowerLaws(target, n, 0);
    SweepDone(Amps(re, im), v, w, Lower(target));
  }

  function Rotated(a: C, cos: real, sin: real): C {
    C(a.re * cos - a.im * sin, a.re * sin + a.im * cos)
  }

  method RotateAmplitude(re: array<real>, im: array<real>, i: nat, cos: real, sin: real)
    requires re != im && re.Length == im.Length && i < re.Length
    modifies re, im
    ensures Amps(re, im) == old(Amps(re, im)[i := Rotated(Amps(re, im)[i], cos, sin)])
  {
    var nextReal := re[i] * cos - im[i] * sin;
    var nextImag := re[i] * sin + im[i] * cos;
    assert C(nextReal, nextImag) == Rotated(Amps(re, im)[i], cos, sin);
    StoreAmplitude(re, im, i, nextReal, nextImag);
  }

  /** At position `b` a controlled-phase sweep rotates the amplitude or leaves it. */
  lemma PhaseStep(v: Vec, c: nat, t: nat, trig: Trig, theta: real, b: nat)
    requires b < |v|
    ensures var w, a := Apply(Kernel([c], [t], PhaseRows(Cis(trig, theta))), v), v[b];
      var cos, sin := trig.cos(theta), trig.sin(theta);
      w[b] == if And(b, Pow2(c)) != 0 && And(b, Pow2(t)) != 0
              then Rotated(a, cos, sin) else a
  {
    hide And, Pow2, Bit, Apply, Active;
    ActiveOne(b, c);
    MaskLaws(b, t);
    DiagonalStep(Kernel([c], [t], PhaseRows(Cis(trig, theta))), v, t, Cis(trig, theta), b);
    MulSymmetric(Cis(trig, theta), v[b]);
  }

  lemma SignStep(v: Vec, c: nat, t: nat, b: nat)
    requires b < |v|
    ensures var w, a := Apply(Kernel([c], [t], Z_ROWS), v), v[b];
      w[b] == if And(b, Pow2(c)) != 0 && And(b, Pow2(t)) != 0 then C(-a.re, -a.im) else a
  {
    hide And, Pow2, Bit, Apply, Active;
    ActiveOne(b, c);
    MaskLaws(b, t);
    DiagonalStep(Kernel([c], [t], Z_ROWS), v, t, Real(-1.0), b);
  }

  method ApplyControlledZ(re: array<real>, im: array<real>, n: nat, control: nat, target: nat)
    requires Stores(re, im, n) && control < n && target < n && control != target
    modifies re, im
    ensures Amps(re, im) == Apply(Kernel([control], [target], Z_ROWS), old(Amps(re, im)))
  {
    var dimension := Pow2(n);
    var controlMask := Pow2(control);
    var targetMask := Pow2(target);
    ghost var v := Amps(re, im);
    ghost var w := Apply(Kernel([control], [target], Z_ROWS), v);
    SweepStart(v, w, Itself());
    hide *;
    for basis := 0 to dimension
      invariant Swept(Amps(re, im), v, w, Itself(), basis)
    {
      SignStep(v, control, target, basis);
      ghost var cur := Amps(re, im);
      SweepOne(cur, v, w, basis);
      if And(basis, controlMask) != 0 && And(basis, targetMask) != 0 {
        StoreAmplitude(re, im, basis, -re[basis], -im[basis]);
      } else {
        assert cur == cur[basis := w[basis]];
      }
    }
    SweepDone(Amps(re, im), v, w, Itself());
  }

  method ApplyControlledPhase(trig: Trig, re: array<real>, im: array<real>, n: nat, control: nat, target: nat,
                              theta: real)
    requires Stores(re, im, n) && control < n && target < n && control != target
    modifies re, im
    ensures Amps(re, im) == Apply(Kernel([control], [target], PhaseRows(Cis(trig, theta))), old(Amps(re, im)))
  {
    var dimension := Pow2(n);
    var controlMask := Pow2(control);
    var targetMask := Pow2(target);
    var cos := trig.cos(theta);
    var sin := trig.sin(theta);
    ghost var v := Amps(re, im);
    ghost var w := Apply(Kernel([control], [target], PhaseRows(Cis(trig, theta))), v);
    SweepStart(v, w, Itself());
    hide *;
    for basis := 0 to dimension
      invariant Swept(Amps(re, im), v, w, Itself(), basis)
    {
      PhaseStep(v, control, target, trig, theta, basis);
      ghost var cur := Amps(re, im);
      SweepOne(cur, v, w, basis);
      if And(basis, controlMask) != 0 && And(basis, targetMask) != 0 {
        RotateAmplitude(re, im, basis, cos, sin);
      } else {
        assert cur == cur[basis := w[basis]];
      }
    }
    SweepDone(Amps(re, im), v, w, Itself());
  }

  // ----- swap

  /** Index `j` with bits `a` and `b` exchanged. */
  ghost function Exchange(j: nat, a: nat, b: nat): nat {
    Set(Set(j, a, Bit(j, b)), b, Bit(j, a))
  }

  /** The sweep exchanges a pair at the index whose left bit is clear and right bit is set. */
  ghost function SwapRep(left: nat, right: nat): nat -> nat {
    (j: nat) => if Bit(j, left) == Bit(j, right) then j else Set(Set(j, left, false), right, true)
  }

  /** A matrix row with a single one picks one amplitude. */
  lemma PickTerm(k: Kernel, v: Vec, j: nat, r: nat, x: nat)
    requires |k.targets| == 2 && k.rows == SWAP_ROWS && x < 4 && Row(j, k.targets) == r < 4
    ensures Term(k, v, j, x) == if x == [0, 2, 1, 3][r] then At(v, Sub(j, k.targets, x)) else ZERO
  {
    assert Entry(k, r, x) == if x == [0, 2, 1, 3][r] then ONE else ZERO;
    Absorb(ONE, At(v, Sub(j, k.targets, x)), At(v, Sub(j, k.targets, x)));
  }

  lemma SwapAt(v: Vec, controls: seq<nat>, left: nat, right: nat, j: nat)
    requires left != right && Active(j, controls)
    ensures Amp(Kernel(controls, [right, left], SWAP_ROWS), v, j) == At(v, Exchange(j, left, right))
  {
    hide Bit, Set, Sub, Row, Sum, Mul, Entry, At, Pow2, Term, Amp, Active;
    var k := Kernel(controls, [right, left], SWAP_ROWS);
    var x, y := Bit(j, right), Bit(j, left);
    Amp2(k, v, j);
    Pair(j, k.targets, y, x);
    SetCommute(j, right, y, left, x);
    var r := Row(j, k.targets);
    PickTerm(k, v, j, r, 0);
    PickTerm(k, v, j, r, 1);
    PickTerm(k, v, j, r, 2);
    PickTerm(k, v, j, r, 3);
    AbsorbZeros(At(v, Sub(j, k.targets, [0, 2, 1, 3][r])));
  }

  lemma AbsorbZeros(z: C)
    ensures Plus(z, ZERO) == z == Plus(ZERO, z)
  {}

  lemma SwapStep(v: Vec, n: nat, left: nat, right: nat, b: nat)
    requires |v| == Pow2(n) && b < |v| && left < n && right < n && left != right
    ensures var w, p := Apply(Kernel([], [right, left], SWAP_ROWS), v), Xor(Xor(b, Pow2(left)), Pow2(right));
      if And(b, Pow2(left)) != 0 || And(b, Pow2(right)) == 0 then IdleStep(v, w, SwapRep(left, right), b)
      else ExactPair(|v|, SwapRep(left, right), b, p) && w[b] == v[p] && w[p] == v[b]
  {
    MaskLaws(b, left);
    MaskLaws(b, right);
    var c := Set(b, left, !Bit(b, left));
    MaskLaws(c, right);
    BitOfSet(b, left, !Bit(b, left), right);
    forall j: nat | j < |v| && SwapRep(left, right)(j) == b
      ensures j == b || (Bit(b, right) && !Bit(b, left) && j == Exchange(b, left, right))
      ensures j == b && Bit(b, left) == Bit(b, right) ==> Exchange(b, left, right) == b
    {
      if Bit(j, left) != Bit(j, right) {
        SwapRepShape(j, left, right);
      }
    }
    SwapAt(v, [], left, right, b);
    if !Bit(b, left) && Bit(b, right) {
      var p := Exchange(b, left, right);
      SetRange(b, left, true, n);
      SetRange(c, right, false, n);
      BitOfSet(c, right, false, left);
      SwapRepShape(p, left, right);
      ExchangeTwice(b, left, right);
      SwapAt(v, [], left, right, p);
    }
  }

  lemma ExchangeTwice(j: nat, a: nat, b: nat)
    requires a != b
    ensures Exchange(Exchange(j, a, b), a, b) == j
  {
    var x, y := Bit(j, a), Bit(j, b);
    var j1 := Set(j, a, y);
    var e := Set(j1, b, x);
    BitOfSet(j1, b, x, a);
    SetCommute(j1, b, x, a, x);
    SetSet(j, a, y, x);
    SetSet(j, b, x, y);
  }

  lemma SwapRepShape(j: nat, left: nat, right: nat)
    requires left != right && Bit(j, left) != Bit(j, right)
    ensures var b := SwapRep(left, right)(j);
      !Bit(b, left) && Bit(b, right) && (j == b || j == Exchange(b, left, right))
  {
    var b := SwapRep(left, right)(j);
    BitOfSet(Set(j, left, false), right, true, left);
    if Bit(j, left) {
      SetCommute(Set(j, left, false), right, true, left, true);
      SetSet(j, left, false, true);
      SetSet(j, right, true, false);
    } else {
      BitOfSet(j, left, false, right);
    }
  }

  method ApplySwap(re: array<real>, im: array<real>, n: nat, left: nat, right: nat)
    requires Stores(re, im, n) && left < n && right < n && left != right
    modifies re, im
    ensures Amps(re, im) == Apply(Kernel([], [right, left], SWAP_ROWS), old(Amps(re, im)))
  {
    var dimension := Pow2(n);
    var leftMask := Pow2(left);
    var rightMask := Pow2(right);
    ghost var v := Amps(re, im);
    ghost var w := Apply(Kernel([], [right, left], SWAP_ROWS), v);
    ghost var rep := SwapRep(left, right);
    SweepStart(v, w, rep);
    hide *;
    for basis := 0 to dimension
      invariant Swept(Amps(re, im), v, w, rep, basis)
    {
      SwapStep(v, n, left, right, basis);
      ghost var cur := Amps(re, im);
      var leftBit := And(basis, leftMask) != 0;
      var rightBit := And(basis, rightMask) != 0;
      if leftBit || !rightBit {
        SweepSkip(cur, v, w, rep, basis);
        continue;
      }
      var paired := Xor(Xor(basis, leftMask), rightMask);
      SweepPair(cur, v, w, rep, basis, paired);
      ExchangeAmplitudes(re, im, basis, paired);
    }
    forall j: nat | j < |v| ensures rep(j) < |v| {
      SetRange(j, left, false, n);
      SetRange(Set(j, left, false), right, true, n);
    }
    SweepDone(Amps(re, im), v, w, rep);
  }
}
