/** The general in-place kernels, and the simulator that applies a circuit operation by operation. */
module SimulationCore {
  import opened Bits
  import opened Complex
  import opened Trigonometry
  import opened Circuits
  import opened Kernels
  import opened Gates
  import opened Sweeps
  import SimulationControlled

  function ComplexMul(ar: real, ai: real, br: real, bi: real): C {
    C(ar * br - ai * bi, ar * bi + ai * br)
  }

  function ComplexAdd(ar: real, ai: real, br: real, bi: real): C {
    C(ar + br, ai + bi)
  }

  predicate IsControlActive(basis: nat, controls: seq<nat>) {
    forall k :: 0 <= k < |controls| ==> And(basis, Pow2(controls[k])) != 0
  }

  predicate Square(matrix: Rows, size: nat) {
    |matrix| == size && forall r :: 0 <= r < size ==> |matrix[r]| == size
  }

  /** One row of a 2x2 matrix applied to a pair of amplitudes. */
  function MixRow(row: seq<C>, a0r: real, a0i: real, a1r: real, a1i: real): (next: C)
    requires |row| == 2
    ensures next == Plus(Mul(row[0], C(a0r, a0i)), Mul(row[1], C(a1r, a1i)))
  {
    var C(m0r, m0i) := row[0];
    var C(m1r, m1i) := row[1];
    var C(mul0r, mul0i) := ComplexMul(m0r, m0i, a0r, a0i);
    var C(mul1r, mul1i) := ComplexMul(m1r, m1i, a1r, a1i);
    ComplexAdd(mul0r, mul0i, mul1r, mul1i)
  }

  /** Replace the amplitudes at `basis` and `paired` by the product of a 2x2 matrix with them. */
  method MixPair(re: array<real>, im: array<real>, basis: nat, paired: nat, matrix: Rows)
    requires re != im && re.Length == im.Length && basis < re.Length && paired < re.Length && basis != paired
    requires Square(matrix, 2)
    modifies re, im
    ensures var v := old(Amps(re, im));
      Amps(re, im) == v[basis := Plus(Mul(matrix[0][0], v[basis]), Mul(matrix[0][1], v[paired]))]
                       [paired := Plus(Mul(matrix[1][0], v[basis]), Mul(matrix[1][1], v[paired]))]
  {
    var a0r, a0i := re[basis], im[basis];
    var a1r, a1i := re[paired], im[paired];
    var next0 := MixRow(matrix[0], a0r, a0i, a1r, a1i);
    var next1 := MixRow(matrix[1], a0r, a0i, a1r, a1i);
    ghost var v := Amps(re, im);
    assert v[basis] == C(a0r, a0i) && v[paired] == C(a1r, a1i);
    hide *;
    StoreAmplitude(re, im, basis, next0.re, next0.im);
    StoreAmplitude(re, im, paired, next1.re, next1.im);
  }

  lemma MixStep(k: Kernel, v: Vec, n: nat, t: nat, b: nat)
    requires k.targets == [t] && Fits(k, n) && Square(k.rows, 2) && |v| == Pow2(n) && b < |v|
    ensures var w, p, m := Apply(k, v), Or(b, Pow2(t)), k.rows;
      if And(b, Pow2(t)) != 0 || !IsControlActive(b, k.controls) then IdleStep(v, w, Lower(t), b)
      else ExactPair(|v|, Lower(t), b, p)
           && w[b] == Plus(Mul(m[0][0], v[b]), Mul(m[0][1], v[p]))
           && w[p] == Plus(Mul(m[1][0], v[b]), Mul(m[1][1], v[p]))
  {
    hide Bit, And, Or, Pow2, Apply, Lower, ExactPair, IdleStep, Mul, Plus;
    ActiveMasks(b, k.controls);
    OneTargetStep(k, v, n, t, b);
  }

  lemma FitsOne(k: Kernel, n: nat)
    requires |k.targets| == 1 && Square(k.rows, 2) && Within(Touched(k), n) && Distinct(Touched(k))
    ensures Fits(k, n)
  {
    assert Pow2(1) == 2 * Pow2(0);
  }

  method ApplySingleQubitMatrix(re: array<real>, im: array<real>, n: nat, target: nat, matrix: Rows)
    requires Stores(re, im, n) && target < n && Square(matrix, 2)
    modifies re, im
    ensures Amps(re, im) == Apply(Kernel([], [target], matrix), old(Amps(re, im)))
  {
    var dimension := Pow2(n);
    var mask := Pow2(target);
    ghost var v := Amps(re, im);
    ghost var k := Kernel([], [target], matrix);
    ghost var w := Apply(k, v);
    FitsOne(k, n);
    SweepStart(v, w, Lower(target));
    for basis := 0 to dimension
      invariant Swept(Amps(re, im), v, w, Lower(target), basis)
    {
      MixStep(k, v, n, target, basis);
      hide *;
      ghost var cur := Amps(re, im);
      if And(basis, mask) != 0 {
        SweepSkip(cur, v, w, Lower(target), basis);
        continue;
      }
      var paired := Or(basis, mask);
      SweepPair(cur, v, w, Lower(target), basis, paired);
      MixPair(re, im, basis, paired, matrix);
    }
    LowerLaws(target, n, 0);
    SweepDone(Amps(re, im), v, w, Lower(target));
  }

  method ApplyControlledSingleQubitMatrix(
    re: array<real>, im: array<real>, n: nat, controls: seq<nat>, target: nat, matrix: Rows)
    requires Stores(re, im, n) && Square(matrix, 2)
    requires Within([target] + controls, n) && Distinct([target] + controls)
    modifies re, im
    ensures Amps(re, im) == Apply(Kernel(controls, [target], matrix), old(Amps(re, im)))
  {
    var dimension := Pow2(n);
    var mask := Pow2(target);
    ghost var v := Amps(re, im);
    ghost var k := Kernel(controls, [target], matrix);
    ghost var w := Apply(k, v);
    assert ([target] + controls)[0] == target;
    FitsOne(k, n);
    SweepStart(v, w, Lower(target));
    for basis := 0 to dimension
      invariant Swept(Amps(re, im), v, w, Lower(target), basis)
    {
      MixStep(k, v, n, target, basis);
      hide *;
      ghost var cur := Amps(re, im);
      if And(basis, mask) != 0 || !IsControlActive(basis, controls) {
        SweepSkip(cur, v, w, Lower(target), basis);
        continue;
      }
      var paired := Or(basis, mask);
      SweepPair(cur, v, w, Lower(target), basis, paired);
      MixPair(re, im, basis, paired, matrix);
    }
    LowerLaws(target, n, 0);
    SweepDone(Amps(re, im), v, w, Lower(target));
  }

  // ----- two targets

  /** The first `c` products of a matrix row with a column of amplitudes. */
  function RowValue(row: seq<C>, state: seq<C>, c: nat): C
    requires c <= |row| && c <= |state|
  {
    if c == 0 then ZERO else Plus(RowValue(row, state, c - 1), Mul(row[c - 1], state[c - 1]))
  }

  method RowTimes(row: seq<C>, state: seq<C>) returns (nextReal: real, nextImag: real)
    requires |row| == 4 == |state|
    ensures C(nextReal, nextImag) == RowValue(row, state, 4)
  {
    nextReal, nextImag := 0.0, 0.0;
    for column := 0 to 4
      invariant C(nextReal, nextImag) == RowValue(row, state, column)
    {
      var C(mulReal, mulImag) := ComplexMul(row[column].re, row[column].im, state[column].re, state[column].im);
      nextReal := nextReal + mulReal;
      nextImag := nextImag + mulImag;
    }
  }

  ghost function Selected(v: Vec, indices: seq<nat>): seq<C>
    requires Within(indices, |v|)
  {
    seq(|indices|, (x: nat) requires x < |indices| => v[indices[x]])
  }

  /** `w` is `v` with the selected amplitudes multiplied by the matrix. */
  ghost predicate QuadMixed(v: Vec, w: Vec, indices: seq<nat>, matrix: Rows) {
    && |v| == |w| && |indices| == 4 && Within(indices, |v|) && Square(matrix, 4)
    && (forall r :: 0 <= r < 4 ==> w[indices[r]] == RowValue(matrix[r], Selected(v, indices), 4))
    && (forall j: nat :: j < |v| && j !in indices ==> w[j] == v[j])
  }

  /** Replace four amplitudes by the product of a 4x4 matrix with them. */
  method MixQuad(re: array<real>, im: array<real>, indices: seq<nat>, matrix: Rows)
    requires re != im && re.Length == im.Length
    requires |indices| == 4 && Within(indices, re.Length) && Distinct(indices) && Square(matrix, 4)
    modifies re, im
    ensures QuadMixed(old(Amps(re, im)), Amps(re, im), indices, matrix)
  {
    ghost var v := Amps(re, im);
    var i0, i1, i2, i3 := indices[0], indices[1], indices[2], indices[3];
    var state := [C(re[i0], im[i0]), C(re[i1], im[i1]), C(re[i2], im[i2]), C(re[i3], im[i3])];
    assert state == Selected(v, indices);
    hide Selected, RowValue;
    for row := 0 to 4
      invariant forall r :: 0 <= r < row ==> Amps(re, im)[indices[r]] == RowValue(matrix[r], state, 4)
      invariant forall j: nat :: j < |v| && j !in indices[..row] ==> Amps(re, im)[j] == v[j]
    {
      var nextReal, nextImag := RowTimes(matrix[row], state);
      StoreAmplitude(re, im, indices[row], nextReal, nextImag);
      assert indices[..row + 1] == indices[..row] + [indices[row]];
    }
    assert indices[..4] == indices;
  }

  // A sweep over quadruples: `ts` lists the two targets, low bit first.

  /** The representative of a quadruple has both target bits clear. */
  ghost function Corner(ts: seq<nat>): nat -> nat {
    (j: nat) => Sub(j, ts, 0)
  }

  ghost function Quad(b: nat, ts: seq<nat>): seq<nat> {
    [Sub(b, ts, 0), Sub(b, ts, 1), Sub(b, ts, 2), Sub(b, ts, 3)]
  }

  /** `b` represents exactly the indices of its quadruple. */
  ghost predicate ExactQuad(size: nat, rep: nat -> nat, b: nat, indices: seq<nat>) {
    && |indices| == 4 && Within(indices, size) && Distinct(indices)
    && forall j: nat :: j < size ==> (rep(j) == b <==> j in indices)
  }

  lemma QuadMembers(b: nat, ts: seq<nat>, n: nat)
    requires |ts| == 2 && Distinct(ts) && Within(ts, n) && b < Pow2(n) && Row(b, ts) == 0
    ensures ExactQuad(Pow2(n), Corner(ts), b, Quad(b, ts))
  {
    hide Sub, Row, Bit, Pow2;
    var indices := Quad(b, ts);
    assert Pow2(2) == 4 by { assert Pow2Is4() == 4; }
    SubRow(b, ts);
    forall r: nat | r < 4
      ensures Row(Sub(b, ts, r), ts) == r && Sub(b, ts, r) < Pow2(n) && Corner(ts)(Sub(b, ts, r)) == b
    {
      RowSub(b, ts, r);
      SubRange(b, ts, r, n);
      SubSub(b, ts, r, 0);
    }
    assert forall r: nat :: r < 4 ==> indices[r] == Sub(b, ts, r);
    forall j: nat | j < Pow2(n) && Corner(ts)(j) == b
      ensures j in indices
    {
      var r := Row(j, ts);
      SubRow(j, ts);
      SubSub(j, ts, 0, r);
      assert j == indices[r];
    }
  }

  function Pow2Is4(): (p: nat)
    ensures p == Pow2(2) == 4
  {
    assert Pow2(1) == 2 * Pow2(0);
    4
  }

  /** What one iteration of the two-target sweep has to do at position `b`. */
  lemma QuadStep(k: Kernel, v: Vec, n: nat, b: nat)
    requires |k.targets| == 2 && Fits(k, n) && Square(k.rows, 4) && |v| == Pow2(n) && b < |v|
    ensures var w, rep, indices := Apply(k, v), Corner(k.targets), Quad(b, k.targets);
      if Row(b, k.targets) != 0 || !Active(b, k.controls) then IdleStep(v, w, rep, b)
      else ExactQuad(|v|, rep, b, indices)
           && forall r :: 0 <= r < 4 ==> w[indices[r]] == RowValue(k.rows[r], Selected(v, indices), 4)
  {
    hide Sub, Row, Bit, Pow2, Mul, Plus;
    var ts, w := k.targets, Apply(k, v);
    QubitsOf(k, n);
    if Row(b, ts) != 0 {
      forall j: nat ensures Corner(ts)(j) != b { assert Pow2Is4() == 4; RowSub(j, ts, 0); }
    } else {
      QuadMembers(b, ts, n);
      var indices := Quad(b, ts);
      forall r: nat | r < 4
        ensures Active(Sub(b, ts, r), k.controls) == Active(b, k.controls)
      {
        ActiveOfSub(b, ts, r, k.controls);
      }
      if Active(b, k.controls) {
        forall r: nat | r < 4 ensures w[indices[r]] == RowValue(k.rows[r], Selected(v, indices), 4) {
          QuadValue(k, v, n, b, r);
        }
      }
    }
  }

  lemma QubitsOf(k: Kernel, n: nat)
    requires Fits(k, n)
    ensures Within(k.targets, n) && Distinct(k.targets) && Disjoint(k.controls, k.targets)
  {
    var all := Touched(k);
    assert forall x :: 0 <= x < |k.targets| ==> all[x] == k.targets[x];
    assert forall x :: 0 <= x < |k.controls| ==> all[|k.targets| + x] == k.controls[x];
  }

  lemma QuadValue(k: Kernel, v: Vec, n: nat, b: nat, r: nat)
    requires |k.targets| == 2 && Fits(k, n) && Square(k.rows, 4) && |v| == Pow2(n) && b < |v| && r < 4
    requires Row(b, k.targets) == 0 && Active(Sub(b, k.targets, r), k.controls) && Within(Quad(b, k.targets), |v|)
    ensures Amp(k, v, Sub(b, k.targets, r)) == RowValue(k.rows[r], Selected(v, Quad(b, k.targets)), 4)
  {
    hide Sub, Row, Bit, Mul, Plus, Pow2;
    QubitsOf(k, n);
    var ts, state := k.targets, Selected(v, Quad(b, k.targets));
    assert Pow2Is4() == 4;
    var i := Sub(b, ts, r);
    RowSub(b, ts, r);
    Amp2(k, v, i);
    forall x: nat | x < 4 ensures Term(k, v, i, x) == Mul(k.rows[r][x], state[x]) {
      SubSub(b, ts, r, x);
    }
    FourProducts(k.rows[r], state);
  }

  lemma FourProducts(row: seq<C>, state: seq<C>)
    requires |row| == 4 == |state|
    ensures RowValue(row, state, 4) ==
            Plus(Plus(Plus(Mul(row[0], state[0]), Mul(row[1], state[1])), Mul(row[2], state[2])), Mul(row[3], state[3]))
  {
    hide Mul;
    assert RowValue(row, state, 1) == Plus(RowValue(row, state, 0), Mul(row[0], state[0]));
    assert RowValue(row, state, 2) == Plus(RowValue(row, state, 1), Mul(row[1], state[1]));
    assert RowValue(row, state, 3) == Plus(RowValue(row, state, 2), Mul(row[2], state[2]));
  }

  /** The index list of the loop is the quadruple, and its skip test is the representative test. */
  lemma QuadMasks(b: nat, first: nat, second: nat)
    requires first != second
    ensures var ts := [second, first];
      (And(b, Pow2(first)) != 0 || And(b, Pow2(second)) != 0 <==> Row(b, ts) != 0)
      && (Row(b, ts) == 0 ==>
            Quad(b, ts) == [b, Or(b, Pow2(second)), Or(b, Pow2(first)), Or(Or(b, Pow2(first)), Pow2(second))])
  {
    hide And, Or, Bit, Set, Pow2, Sub, Row;
    var ts := [second, first];
    MaskLaws(b, first);
    MaskLaws(b, second);
    Pair(b, ts, false, false);
    if Row(b, ts) == 0 {
      SubRow(b, ts);
      Pair(b, ts, true, false);
      Pair(b, ts, false, true);
      Pair(b, ts, true, true);
      BitOfSet(b, second, true, first);
      BitKeep(b, second, true, first);
      BitKeep(b, second, false, first);
      MaskLaws(Set(b, first, true), second);
      SetCommute(b, first, true, second, true);
    }
  }

  lemma BitKeep(b: nat, q: nat, x: bool, p: nat)
    requires p != q && !Bit(b, p)
    ensures Set(Set(b, q, x), p, false) == Set(b, q, x)
  {
    BitOfSet(b, q, x, p);
  }

  /** The quadruple at `b`, and the new amplitudes it must receive. */
  ghost predicate QuadDue(v: Vec, w: Vec, rep: nat -> nat, b: nat, indices: seq<nat>, matrix: Rows) {
    && |v| == |w| && ExactQuad(|v|, rep, b, indices) && Square(matrix, 4)
    && forall r :: 0 <= r < 4 ==> w[indices[r]] == RowValue(matrix[r], Selected(v, indices), 4)
  }

  lemma TwoTargetStep(k: Kernel, v: Vec, n: nat, first: nat, second: nat, b: nat)
    requires k.targets == [second, first] && Fits(k, n) && Square(k.rows, 4) && |v| == Pow2(n) && b < |v|
    ensures var w, rep := Apply(k, v), Corner(k.targets);
      var firstMask, secondMask := Pow2(first), Pow2(second);
      var indices := [b, Or(b, secondMask), Or(b, firstMask), Or(Or(b, firstMask), secondMask)];
      if And(b, firstMask) != 0 || And(b, secondMask) != 0 || !IsControlActive(b, k.controls)
      then IdleStep(v, w, rep, b)
      else Within(indices, |v|) && Distinct(indices) && QuadDue(v, w, rep, b, indices, k.rows)
  {
    hide And, Or, Pow2, Apply, Corner, IdleStep, Selected, RowValue, Row, Bit, Quad;
    QubitsOf(k, n);
    assert k.targets[0] == second && k.targets[1] == first;
    ActiveMasks(b, k.controls);
    QuadMasks(b, first, second);
    QuadStep(k, v, n, b);
  }

  method ApplyTwoQubitMatrix(
    re: array<real>, im: array<real>, n: nat, firstTarget: nat, secondTarget: nat, matrix: Rows, controls: seq<nat>)
    requires Stores(re, im, n) && Square(matrix, 4)
    requires Within([secondTarget, firstTarget] + controls, n) && Distinct([secondTarget, firstTarget] + controls)
    modifies re, im
    ensures Amps(re, im) == Apply(Kernel(controls, [secondTarget, firstTarget], matrix), old(Amps(re, im)))
  {
    var dimension := Pow2(n);
    var firstMask := Pow2(firstTarget);
    var secondMask := Pow2(secondTarget);
    ghost var v := Amps(re, im);
    ghost var ts := [secondTarget, firstTarget];
    ghost var k := Kernel(controls, ts, matrix);
    ghost var w := Apply(k, v);
    assert Pow2Is4() == 4;
    assert Touched(k)[0] == secondTarget && Touched(k)[1] == firstTarget;
    SweepStart(v, w, Corner(ts));
    for basis := 0 to dimension
      invariant Swept(Amps(re, im), v, w, Corner(ts), basis)
    {
      TwoTargetStep(k, v, n, firstTarget, secondTarget, basis);
      ghost var cur := Amps(re, im);
      hide *;
      if And(basis, firstMask) != 0 || And(basis, secondMask) != 0 || !IsControlActive(basis, controls) {
        SweepSkip(cur, v, w, Corner(ts), basis);
        continue;
      }
      var indices := [basis, Or(basis, secondMask), Or(basis, firstMask), Or(Or(basis, firstMask), secondMask)];
      MixQuad(re, im, indices, matrix);
      SweepQuad(cur, Amps(re, im), v, w, Corner(ts), basis, indices, matrix);
    }
    forall j: nat | j < |v| ensures Corner(ts)(j) < |v| { SubRange(j, ts, 0, n); }
    SweepDone(Amps(re, im), v, w, Corner(ts));
  }

  lemma SweepQuad(cur: Vec, next: Vec, v: Vec, w: Vec, rep: nat -> nat, b: nat, indices: seq<nat>, matrix: Rows)
    requires Swept(cur, v, w, rep, b) && QuadDue(v, w, rep, b, indices, matrix) && QuadMixed(cur, next, indices, matrix)
    ensures Swept(next, v, w, rep, b + 1)
  {
    hide RowValue;
    assert Selected(cur, indices) == Selected(v, indices);
    forall j: nat | j < |v|
      ensures next[j] == if rep(j) == b then w[j] else cur[j]
    {
      if j in indices { var r :| 0 <= r < 4 && indices[r] == j; }
    }
    SweepGroup(cur, next, v, w, rep, b);
  }

  // ----- one operation, and a whole circuit

  lemma OperandShape(op: Operation, n: nat)
    requires WellFormed(op, n) && Distinct(Qubits(op))
    ensures |op.targets| == TargetCount(op.gate) && |op.controls| == ControlCount(op.gate)
    ensures |op.targets| == 1 ==> op.targets == [op.targets[0]]
    ensures |op.targets| == 2 ==> Low2(op.targets) == [op.targets[1], op.targets[0]]
    ensures |op.controls| == 1 ==> op.controls == [op.controls[0]]
    ensures |op.controls| == 2 ==> op.controls == [op.controls[0], op.controls[1]]
    ensures Within(op.targets + op.controls, n) && Distinct(op.targets + op.controls)
    ensures Within(Low2(op.targets) + op.controls, n) && Distinct(Low2(op.targets) + op.controls)
  {
    LowFirst(op.targets, op.controls, n);
  }

  lemma OperandsApart(op: Operation, n: nat)
    requires WellFormed(op, n) && Distinct(Qubits(op))
    ensures op.targets[0] < n
    ensures |op.targets| == 2 ==> op.targets[1] < n && op.targets[0] != op.targets[1]
    ensures |op.controls| >= 1 ==> op.controls[0] < n && op.controls[0] != op.targets[0]
    ensures |op.controls| == 2 ==>
      op.controls[1] < n && op.controls[1] != op.targets[0] && op.controls[0] != op.controls[1]
  {
    assert Qubits(op)[0] == op.targets[0];
    assert |op.targets| == 2 ==> Qubits(op)[1] == op.targets[1];
    assert |op.controls| >= 1 ==> Qubits(op)[|op.targets|] == op.controls[0];
    assert |op.controls| == 2 ==> Qubits(op)[|op.targets| + 1] == op.controls[1];
  }

  /** The operator behind each branch of the dispatch, with the operands spelled out. */
  lemma SpecialKernels(trig: Trig, op: Operation, n: nat)
    requires WellFormed(op, n) && Distinct(Qubits(op))
    ensures op.gate == CX ==> KernelOf(trig, op) == Kernel([op.controls[0]], [op.targets[0]], X_ROWS)
    ensures op.gate == CZ ==> KernelOf(trig, op) == Kernel([op.controls[0]], [op.targets[0]], Z_ROWS)
    ensures op.gate == CP ==>
      KernelOf(trig, op) == Kernel([op.controls[0]], [op.targets[0]], PhaseRows(Cis(trig, Param(op.params, 0))))
    ensures op.gate == CCX ==> KernelOf(trig, op) == Kernel([op.controls[0], op.controls[1]], [op.targets[0]], X_ROWS)
    ensures op.gate == SWAP ==> KernelOf(trig, op) == Kernel([], [op.targets[1], op.targets[0]], SWAP_ROWS)
  {
    OperandShape(op, n);
  }

  lemma ControlledKernels(trig: Trig, op: Operation, n: nat)
    requires WellFormed(op, n) && Distinct(Qubits(op))
    ensures op.gate in {CY, CH, CCZ} ==>
      var m := MatrixForFixedGate(trig, if op.gate == CY then Y else if op.gate == CH then H else Z);
      m.Some? && Square(m.value, 2) && KernelOf(trig, op) == Kernel(op.controls, [op.targets[0]], m.value)
    ensures op.gate == CSWAP ==>
      Square(SWAP_ROWS, 4) && KernelOf(trig, op) == Kernel(op.controls, [op.targets[1], op.targets[0]], SWAP_ROWS)
  {
    hide MatrixForGate, MatrixForTwoQubitGate, Cis;
    OperandShape(op, n);
  }

  lemma PlainKernels(trig: Trig, op: Operation, n: nat)
    requires op.gate != M && WellFormed(op, n) && Distinct(Qubits(op))
    ensures op.gate in {RXX, RYY, RZZ, RZX} ==> var m := MatrixForTwoQubitGate(trig, op.gate, op.params);
      Square(m, 4) && KernelOf(trig, op) == Kernel([], [op.targets[1], op.targets[0]], m)
    ensures op.gate !in {CX, CZ, CP, CCX, SWAP, CY, CH, CCZ, CSWAP, RXX, RYY, RZZ, RZX} ==>
      var m := MatrixForGate(trig, op.gate, op.params);
      Square(m, 2) && KernelOf(trig, op) == Kernel([], [op.targets[0]], m)
  {
    hide Cis, Distinct, Within;
    OperandShape(op, n);
    KernelShape(trig, op);
    assert Pow2(2) == 2 * Pow2(1) && Pow2(1) == 2 * Pow2(0);
  }

  method ApplyOperation(trig: Trig, re: array<real>, im: array<real>, n: nat, op: Operation)
    requires Stores(re, im, n) && WellFormed(op, n) && Distinct(Qubits(op))
    modifies re, im
    ensures Amps(re, im) == Denote(trig, op, old(Amps(re, im)))
  {
    hide Apply, Amps, Cis, HRows, Bit, Pow2, KernelOf, MatrixForGate, MatrixForFixedGate, MatrixForTwoQubitGate,
      PhaseRows, Square, Qubits, WellFormed, Low2, Distinct, Within;
    if op.gate == M {
      return;
    }
    OperandShape(op, n);
    OperandsApart(op, n);
    SpecialKernels(trig, op, n);
    ControlledKernels(trig, op, n);
    PlainKernels(trig, op, n);
    if op.gate == CX {
      SimulationControlled.ApplyControlledX(re, im, n, op.controls[0], op.targets[0]);
      return;
    }
    if op.gate == CZ {
      SimulationControlled.ApplyControlledZ(re, im, n, op.controls[0], op.targets[0]);
      return;
    }
    if op.gate == CP {
      SimulationControlled.ApplyControlledPhase(trig, re, im, n, op.controls[0], op.targets[0], Param(op.params, 0));
      return;
    }
    if op.gate == CCX {
      SimulationControlled.ApplyDoubleControlledX(re, im, n, op.controls[0], op.controls[1], op.targets[0]);
      return;
    }
    if op.gate == SWAP {
      SimulationControlled.ApplySwap(re, im, n, op.targets[0], op.targets[1]);
      return;
    }
    if op.gate == CY || op.gate == CH || op.gate == CCZ {
      var targetMatrix := MatrixForFixedGate(trig, if op.gate == CY then Y else if op.gate == CH then H else Z);
      ApplyControlledSingleQubitMatrix(re, im, n, op.controls, op.targets[0], targetMatrix.value);
      return;
    }
    if op.gate == CSWAP {
      ApplyTwoQubitMatrix(re, im, n, op.targets[0], op.targets[1], SWAP_ROWS, op.controls);
      return;
    }
    if op.gate == RXX || op.gate == RYY || op.gate == RZZ || op.gate == RZX {
      ApplyTwoQubitMatrix(re, im, n, op.targets[0], op.targets[1], MatrixForTwoQubitGate(trig, op.gate, op.params), []);
      return;
    }
    ApplySingleQubitMatrix(re, im, n, op.targets[0], MatrixForGate(trig, op.gate, op.params));
  }
}
