/**
 * A state seen through the bits of one or two qubits.  A gate on those qubits acts on every block of
 * amplitudes in the same way, so identities between gate sequences reduce to identities between blocks.
 */
module Blocks {
  import opened Bits
  import opened Complex
  import opened Kernels
  import opened Gates

  datatype Pair2 = Pair2(lo: C, hi: C)

  /** Amplitudes indexed by the bit of the first and of the second qubit. */
  datatype Quad = Quad(v00: C, v01: C, v10: C, v11: C)

  function PairAt(v: Vec, i: nat, t: nat): Pair2 {
    Pair2(At(v, Set(i, t, false)), At(v, Set(i, t, true)))
  }

  function Corner(i: nat, a: nat, b: nat, x: bool, y: bool): nat {
    Set(Set(i, a, x), b, y)
  }

  function QuadAt(v: Vec, i: nat, a: nat, b: nat): Quad {
    Quad(At(v, Corner(i, a, b, false, false)), At(v, Corner(i, a, b, false, true)),
         At(v, Corner(i, a, b, true, false)), At(v, Corner(i, a, b, true, true)))
  }

  function MixTwo(row: seq<C>, p: C, q: C): C
    requires |row| == 2
  {
    Plus(Mul(row[0], p), Mul(row[1], q))
  }

  predicate Two(m: Rows) { |m| == 2 && |m[0]| == 2 && |m[1]| == 2 }

  function MixPair(m: Rows, p: Pair2): Pair2
    requires Two(m)
  {
    Pair2(MixTwo(m[0], p.lo, p.hi), MixTwo(m[1], p.lo, p.hi))
  }

  /** A matrix on the first qubit of the block. */
  function OnFirst(m: Rows, q: Quad): Quad
    requires Two(m)
  {
    Quad(MixTwo(m[0], q.v00, q.v10), MixTwo(m[0], q.v01, q.v11), MixTwo(m[1], q.v00, q.v10), MixTwo(m[1], q.v01, q.v11))
  }

  /** A matrix on the second qubit of the block. */
  function OnSecond(m: Rows, q: Quad): Quad
    requires Two(m)
  {
    Quad(MixTwo(m[0], q.v00, q.v01), MixTwo(m[1], q.v00, q.v01), MixTwo(m[0], q.v10, q.v11), MixTwo(m[1], q.v10, q.v11))
  }

  /** A flip of the second qubit controlled by the first. */
  function Controlled(q: Quad): Quad {
    Quad(q.v00, q.v01, q.v11, q.v10)
  }

  predicate Four(m: Rows) { |m| == 4 && forall r :: 0 <= r < 4 ==> |m[r]| == 4 }

  function MixFour(row: seq<C>, q: Quad): C
    requires |row| == 4
  {
    Plus(Plus(Plus(Mul(row[0], q.v00), Mul(row[1], q.v01)), Mul(row[2], q.v10)), Mul(row[3], q.v11))
  }

  function OnBoth(m: Rows, q: Quad): Quad
    requires Four(m)
  {
    Quad(MixFour(m[0], q), MixFour(m[1], q), MixFour(m[2], q), MixFour(m[3], q))
  }

  // ----- index laws

  lemma CornerLaws(i: nat, a: nat, b: nat, x: bool, y: bool, n: nat)
    requires a != b && a < n && b < n && i < Pow2(n)
    ensures var j := Corner(i, a, b, x, y);
      && j < Pow2(n) && Bit(j, a) == x && Bit(j, b) == y
      && (forall z: bool :: Set(j, a, z) == Corner(i, a, b, z, y) && Set(j, b, z) == Corner(i, a, b, x, z))
  {
    hide Bit, Set, Pow2;
    var j := Corner(i, a, b, x, y);
    SetRange(i, a, x, n);
    SetRange(Set(i, a, x), b, y, n);
    BitOfSet(Set(i, a, x), b, y, a);
    forall z: bool
      ensures Set(j, a, z) == Corner(i, a, b, z, y) && Set(j, b, z) == Corner(i, a, b, x, z)
    {
      SetSet(Set(i, a, x), b, y, z);
      SetCommute(Set(i, a, x), b, y, a, z);
      SetSet(i, a, x, z);
    }
  }

  lemma CornerSelf(i: nat, a: nat, b: nat)
    ensures Corner(i, a, b, Bit(i, a), Bit(i, b)) == i
  {}

  /** States that agree on every block are equal. */
  lemma SameQuads(v: Vec, w: Vec, a: nat, b: nat)
    requires |v| == |w| && forall i: nat :: i < |v| ==> QuadAt(v, i, a, b) == QuadAt(w, i, a, b)
    ensures v == w
  {
    hide Bit, Set;
    forall i: nat | i < |v| ensures v[i] == w[i] {
      CornerSelf(i, a, b);
      assert QuadAt(v, i, a, b) == QuadAt(w, i, a, b);
    }
  }

  lemma SamePairs(v: Vec, w: Vec, t: nat)
    requires |v| == |w| && forall i: nat :: i < |v| ==> PairAt(v, i, t) == PairAt(w, i, t)
    ensures v == w
  {
    hide Bit, Set;
    forall i: nat | i < |v| ensures v[i] == w[i] {
      assert Set(i, t, Bit(i, t)) == i;
      assert PairAt(v, i, t) == PairAt(w, i, t);
    }
  }

  // ----- gates on blocks

  lemma OneOnIndex(v: Vec, t: nat, m: Rows, j: nat, lo: nat, hi: nat)
    requires Two(m) && j < |v| && lo == Set(j, t, false) && hi == Set(j, t, true)
    ensures At(Apply(Kernel([], [t], m), v), j) == MixTwo(m[if Bit(j, t) then 1 else 0], At(v, lo), At(v, hi))
  {
    hide Bit, Set, Mul, Plus;
    Amp1(Kernel([], [t], m), v, j);
  }

  lemma FirstOnQuad(v: Vec, n: nat, i: nat, a: nat, b: nat, m: Rows)
    requires Two(m) && a != b && a < n && b < n && i < |v| == Pow2(n)
    ensures QuadAt(Apply(Kernel([], [a], m), v), i, a, b) == OnFirst(m, QuadAt(v, i, a, b))
  {
    hide Apply, Bit, Set, MixTwo, Pow2, Corner;
    forall x: bool, y: bool
      ensures At(Apply(Kernel([], [a], m), v), Corner(i, a, b, x, y)) ==
              MixTwo(m[if x then 1 else 0], At(v, Corner(i, a, b, false, y)), At(v, Corner(i, a, b, true, y)))
    {
      CornerLaws(i, a, b, x, y, n);
      OneOnIndex(v, a, m, Corner(i, a, b, x, y), Corner(i, a, b, false, y), Corner(i, a, b, true, y));
    }
  }

  lemma SecondOnQuad(v: Vec, n: nat, i: nat, a: nat, b: nat, m: Rows)
    requires Two(m) && a != b && a < n && b < n && i < |v| == Pow2(n)
    ensures QuadAt(Apply(Kernel([], [b], m), v), i, a, b) == OnSecond(m, QuadAt(v, i, a, b))
  {
    hide Apply, Bit, Set, MixTwo, Pow2, Corner;
    forall x: bool, y: bool
      ensures At(Apply(Kernel([], [b], m), v), Corner(i, a, b, x, y)) ==
              MixTwo(m[if y then 1 else 0], At(v, Corner(i, a, b, x, false)), At(v, Corner(i, a, b, x, true)))
    {
      CornerLaws(i, a, b, x, y, n);
      OneOnIndex(v, b, m, Corner(i, a, b, x, y), Corner(i, a, b, x, false), Corner(i, a, b, x, true));
    }
  }

  /** A controlled flip reads the amplitude at the flipped index. */
  lemma FlipOnIndex(v: Vec, controls: seq<nat>, t: nat, j: nat)
    requires j < |v|
    ensures At(Apply(Kernel(controls, [t], X_ROWS), v), j) ==
            At(v, if Active(j, controls) then Set(j, t, !Bit(j, t)) else j)
  {
    hide Bit, Set, Active;
    Amp1(Kernel(controls, [t], X_ROWS), v, j);
  }

  lemma ControlledOnQuad(v: Vec, n: nat, i: nat, a: nat, b: nat)
    requires a != b && a < n && b < n && i < |v| == Pow2(n)
    ensures QuadAt(Apply(Kernel([a], [b], X_ROWS), v), i, a, b) == Controlled(QuadAt(v, i, a, b))
  {
    hide Apply, Bit, Set, Pow2, Corner;
    forall x: bool, y: bool
      ensures At(Apply(Kernel([a], [b], X_ROWS), v), Corner(i, a, b, x, y)) == At(v, Corner(i, a, b, x, x != y))
    {
      CornerLaws(i, a, b, x, y, n);
      FlipOnIndex(v, [a], b, Corner(i, a, b, x, y));
      assert Active(Corner(i, a, b, x, y), [a]) == x;
    }
  }

  lemma BothOnIndex(v: Vec, n: nat, i: nat, a: nat, b: nat, m: Rows, x: bool, y: bool)
    requires Four(m) && a != b && a < n && b < n && i < |v| == Pow2(n)
    ensures At(Apply(Kernel([], [b, a], m), v), Corner(i, a, b, x, y)) ==
            MixFour(m[(if x then 2 else 0) + (if y then 1 else 0)], QuadAt(v, i, a, b))
  {
    hide Bit, Set, Pow2, Corner, Row, Sub, Mul, Plus;
    var k, j := Kernel([], [b, a], m), Corner(i, a, b, x, y);
    CornerLaws(i, a, b, x, y, n);
    Amp2(k, v, j);
    forall p: bool, q: bool
      ensures Sub(j, k.targets, (if q then 1 else 0) + (if p then 2 else 0)) == Corner(i, a, b, p, q)
      ensures Row(j, k.targets) == (if y then 1 else 0) + (if x then 2 else 0)
    {
      Pair(j, k.targets, q, p);
      CornerLaws(i, a, b, x, q, n);
    }
    assert Sub(j, k.targets, 0) == Corner(i, a, b, false, false) && Sub(j, k.targets, 1) == Corner(i, a, b, false, true)
        && Sub(j, k.targets, 2) == Corner(i, a, b, true, false)
           && Sub(j, k.targets, 3) == Corner(i, a, b, true, true) by {
      assert Sub(j, k.targets, (if false then 1 else 0) + (if false then 2 else 0)) == Corner(i, a, b, false, false);
      assert Sub(j, k.targets, (if true then 1 else 0) + (if false then 2 else 0)) == Corner(i, a, b, false, true);
      assert Sub(j, k.targets, (if false then 1 else 0) + (if true then 2 else 0)) == Corner(i, a, b, true, false);
      assert Sub(j, k.targets, (if true then 1 else 0) + (if true then 2 else 0)) == Corner(i, a, b, true, true);
    }
  }

  lemma BothOnQuad(v: Vec, n: nat, i: nat, a: nat, b: nat, m: Rows)
    requires Four(m) && a != b && a < n && b < n && i < |v| == Pow2(n)
    ensures QuadAt(Apply(Kernel([], [b, a], m), v), i, a, b) == OnBoth(m, QuadAt(v, i, a, b))
  {
    hide Apply, Bit, Set, MixFour, Pow2, Corner;
    BothOnIndex(v, n, i, a, b, m, false, false);
    BothOnIndex(v, n, i, a, b, m, false, true);
    BothOnIndex(v, n, i, a, b, m, true, false);
    BothOnIndex(v, n, i, a, b, m, true, true);
  }
}
