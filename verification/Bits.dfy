/** Basis indices of a state vector, read bit by bit.  Qubit `q` of index `i` is bit `q`. */
module Bits {

  function Pow2(n: nat): (p: nat)
    ensures p > 0
  {
    if n == 0 then 1 else 2 * Pow2(n - 1)
  }

  predicate Bit(i: nat, q: nat) {
    if q == 0 then i % 2 == 1 else Bit(i / 2, q - 1)
  }

  /** `i` with bit `q` forced to `b`. */
  function Set(i: nat, q: nat, b: bool): (j: nat)
    ensures Bit(j, q) == b
    ensures Bit(i, q) == b ==> j == i
  {
    if q == 0 then 2 * (i / 2) + (if b then 1 else 0) else 2 * Set(i / 2, q - 1, b) + i % 2
  }

  lemma SetParts(i: nat, q: nat, b: bool)
    ensures q != 0 ==> Set(i, q, b) / 2 == Set(i / 2, q - 1, b) && Set(i, q, b) % 2 == i % 2
    ensures q == 0 ==> Set(i, q, b) / 2 == i / 2 && Set(i, q, b) % 2 == if b then 1 else 0
  {}

  // ----- the bit operators of the source language, on non-negative integers

  function And(x: nat, y: nat): nat {
    if x == 0 || y == 0 then 0
    else 2 * And(x / 2, y / 2) + (if x % 2 == 1 && y % 2 == 1 then 1 else 0)
  }

  function Or(x: nat, y: nat): nat
    decreases x + y
  {
    if x == 0 then y else if y == 0 then x
    else 2 * Or(x / 2, y / 2) + (if x % 2 == 1 || y % 2 == 1 then 1 else 0)
  }

  function Xor(x: nat, y: nat): nat
    decreases x + y
  {
    if x == 0 then y else if y == 0 then x
    else 2 * Xor(x / 2, y / 2) + (x + y) % 2
  }

  lemma {:induction false} AndMask(i: nat, q: nat)
    ensures And(i, Pow2(q)) != 0 <==> Bit(i, q)
  {
    if q == 0 {
      assert And(i / 2, 0) == 0;
    } else {
      assert Pow2(q) / 2 == Pow2(q - 1) && Pow2(q) % 2 == 0;
      AndMask(i / 2, q - 1);
      if i == 0 {
        assert And(0, Pow2(q)) == 0;
        assert And(0, Pow2(q - 1)) == 0;
      }
    }
  }

  lemma {:induction false} OrMask(i: nat, q: nat)
    ensures Or(i, Pow2(q)) == Set(i, q, true)
  {
    if q == 0 {
      assert Or(i / 2, 0) == i / 2;
    } else {
      assert Pow2(q) / 2 == Pow2(q - 1) && Pow2(q) % 2 == 0;
      OrMask(i / 2, q - 1);
      if i == 0 {
        assert Or(0, Pow2(q - 1)) == Pow2(q - 1);
      }
    }
  }

  lemma PowHalves(q: nat)
    requires q > 0
    ensures Pow2(q) / 2 == Pow2(q - 1) && Pow2(q) % 2 == 0
  {}

  lemma {:induction false} XorMask(i: nat, q: nat)
    ensures Xor(i, Pow2(q)) == Set(i, q, !Bit(i, q))
  {
    hide Xor, Pow2;
    if q == 0 {
      XorOne(i);
    } else {
      PowHalves(q);
      XorMask(i / 2, q - 1);
      XorEven(i, Pow2(q - 1));
    }
  }

  lemma XorOne(i: nat)
    ensures Xor(i, Pow2(0)) == 2 * (i / 2) + 1 - i % 2
  {
    assert Xor(i / 2, 0) == i / 2;
  }

  lemma XorEven(i: nat, half: nat)
    ensures Xor(i, 2 * half) == 2 * Xor(i / 2, half) + i % 2
  {
    assert 2 * half / 2 == half && (i + 2 * half) % 2 == i % 2;
    if half == 0 {
      assert Xor(i, 0) == i && Xor(i / 2, 0) == i / 2;
    } else if i == 0 {
      assert Xor(0, half) == half;
    }
  }

  /** Testing, raising and toggling one bit through the mask `1 << q`. */
  lemma MaskLaws(i: nat, q: nat)
    ensures And(i, Pow2(q)) != 0 <==> Bit(i, q)
    ensures Or(i, Pow2(q)) == Set(i, q, true)
    ensures Xor(i, Pow2(q)) == Set(i, q, !Bit(i, q))
  {
    AndMask(i, q);
    OrMask(i, q);
    XorMask(i, q);
  }

  lemma {:induction false} BitOfSet(i: nat, q: nat, b: bool, p: nat)
    ensures Bit(Set(i, q, b), p) == if p == q then b else Bit(i, p)
  {
    if p != q && p != 0 && q != 0 {
      BitOfSet(i / 2, q - 1, b, p - 1);
    }
  }

  lemma {:induction false} SetRange(i: nat, q: nat, b: bool, n: nat)
    requires i < Pow2(n) && q < n
    ensures Set(i, q, b) < Pow2(n)
  {
    PowHalves(n);
    if q != 0 {
      SetRange(i / 2, q - 1, b, n - 1);
    }
  }

  lemma {:induction false} SetSet(i: nat, q: nat, a: bool, b: bool)
    ensures Set(Set(i, q, a), q, b) == Set(i, q, b)
  {
    SetParts(i, q, a);
    if q != 0 {
      SetSet(i / 2, q - 1, a, b);
    }
  }

  lemma {:induction false} SetCommute(i: nat, q: nat, a: bool, p: nat, b: bool)
    requires p != q
    ensures Set(Set(i, q, a), p, b) == Set(Set(i, p, b), q, a)
  {
    hide Set;
    var x, y := Set(i, q, a), Set(i, p, b);
    SetParts(i, q, a);
    SetParts(i, p, b);
    SetParts(x, p, b);
    SetParts(y, q, a);
    if p != 0 && q != 0 {
      SetCommute(i / 2, q - 1, a, p - 1, b);
    }
    assert Set(x, p, b) / 2 == Set(y, q, a) / 2 && Set(x, p, b) % 2 == Set(y, q, a) % 2;
  }

  // ----- bits in plain arithmetic

  lemma Quotient(i: nat, d: nat, x: nat, r: nat)
    requires i == d * x + r && r < d
    ensures i / d == x
  {
    var y, s := i / d, i % d;
    assert d * x + r == d * y + s;
    if y < x {
      Above(d, x, y);
    } else if x < y {
      Above(d, y, x);
    }
  }

  lemma Above(d: nat, x: nat, y: nat)
    requires y < x
    ensures d * x >= d * y + d
  {
    assert d * x == d * y + d * (x - y);
    assert d * (x - y) == d * (x - y - 1) + d;
  }

  lemma HalfThenQuotient(i: nat, p: nat)
    requires p > 0
    ensures i / 2 / p == i / (2 * p)
  {
    var x, r := i / 2 / p, i / 2 % p;
    assert i / 2 == p * x + r;
    assert 2 * (p * x) == 2 * p * x;
    Quotient(i, 2 * p, x, 2 * r + i % 2);
  }

  /** Qubit `q` is the digit of weight `2^q`. */
  lemma {:induction false} BitIs(i: nat, q: nat)
    ensures Bit(i, q) <==> i / Pow2(q) % 2 == 1
  {
    if q == 0 {
      assert i / 1 == i;
    } else {
      BitIs(i / 2, q - 1);
      HalfThenQuotient(i, Pow2(q - 1));
    }
  }

  lemma {:induction false} SetIs(i: nat, q: nat)
    requires !Bit(i, q)
    ensures Set(i, q, true) == i + Pow2(q)
  {
    if q != 0 {
      SetIs(i / 2, q - 1);
    }
  }

  // ----- several bits at once

  /** The number whose bit `k` is bit `ts[k]` of `i`. */
  function Row(i: nat, ts: seq<nat>): (r: nat)
    ensures r < Pow2(|ts|)
  {
    if ts == [] then 0 else (if Bit(i, ts[0]) then 1 else 0) + 2 * Row(i, ts[1..])
  }

  /** `i` with bit `ts[k]` replaced by bit `k` of `x`, for every `k`. */
  function Sub(i: nat, ts: seq<nat>, x: nat): nat
    decreases ts
  {
    if ts == [] then i else Sub(Set(i, ts[0], x % 2 == 1), ts[1..], x / 2)
  }

  predicate Active(i: nat, controls: seq<nat>) {
    forall c :: c in controls ==> Bit(i, c)
  }

  predicate Distinct(qs: seq<nat>) {
    forall a, b :: 0 <= a < b < |qs| ==> qs[a] != qs[b]
  }

  predicate Within(qs: seq<nat>, n: nat) {
    forall k :: 0 <= k < |qs| ==> qs[k] < n
  }

  predicate Disjoint(qs: seq<nat>, ps: seq<nat>) {
    forall q :: q in qs ==> q !in ps
  }

  lemma {:induction false} SubRow(i: nat, ts: seq<nat>)
    ensures Sub(i, ts, Row(i, ts)) == i
  {
    if ts != [] {
      SubRow(i, ts[1..]);
    }
  }

  lemma {:induction false} SubRange(i: nat, ts: seq<nat>, x: nat, n: nat)
    requires i < Pow2(n) && Within(ts, n)
    ensures Sub(i, ts, x) < Pow2(n)
    decreases ts
  {
    if ts != [] {
      SetRange(i, ts[0], x % 2 == 1, n);
      SubRange(Set(i, ts[0], x % 2 == 1), ts[1..], x / 2, n);
    }
  }

  lemma {:induction false} BitOfSub(i: nat, ts: seq<nat>, x: nat, q: nat)
    requires q !in ts
    ensures Bit(Sub(i, ts, x), q) == Bit(i, q)
    decreases ts
  {
    if ts != [] {
      BitOfSub(Set(i, ts[0], x % 2 == 1), ts[1..], x / 2, q);
      BitOfSet(i, ts[0], x % 2 == 1, q);
    }
  }

  lemma {:induction false} SubOfSet(i: nat, q: nat, b: bool, ts: seq<nat>, x: nat)
    requires q !in ts
    ensures Sub(Set(i, q, b), ts, x) == Set(Sub(i, ts, x), q, b)
    decreases ts
  {
    if ts != [] {
      SetCommute(i, q, b, ts[0], x % 2 == 1);
      SubOfSet(Set(i, ts[0], x % 2 == 1), q, b, ts[1..], x / 2);
    }
  }

  lemma {:induction false} RowOfSet(i: nat, q: nat, b: bool, ts: seq<nat>)
    requires q !in ts
    ensures Row(Set(i, q, b), ts) == Row(i, ts)
  {
    if ts != [] {
      BitOfSet(i, q, b, ts[0]);
      RowOfSet(i, q, b, ts[1..]);
    }
  }

  lemma {:induction false} RowOfSub(i: nat, ts: seq<nat>, x: nat, us: seq<nat>)
    requires Disjoint(ts, us)
    ensures Row(Sub(i, ts, x), us) == Row(i, us)
    decreases ts
  {
    if ts != [] {
      RowOfSub(Set(i, ts[0], x % 2 == 1), ts[1..], x / 2, us);
      RowOfSet(i, ts[0], x % 2 == 1, us);
    }
  }

  /** Writing the selected bits and reading them back. */
  lemma {:induction false} RowSub(i: nat, ts: seq<nat>, x: nat)
    requires Distinct(ts) && x < Pow2(|ts|)
    ensures Row(Sub(i, ts, x), ts) == x
    decreases ts
  {
    if ts != [] {
      var j := Set(i, ts[0], x % 2 == 1);
      RowSub(j, ts[1..], x / 2);
      BitOfSub(j, ts[1..], x / 2, ts[0]);
    }
  }

  lemma {:induction false} SubSub(i: nat, ts: seq<nat>, x: nat, y: nat)
    requires Distinct(ts)
    ensures Sub(Sub(i, ts, x), ts, y) == Sub(i, ts, y)
    decreases ts
  {
    if ts != [] {
      var a, b := x % 2 == 1, y % 2 == 1;
      SubOfSet(i, ts[0], a, ts[1..], x / 2);
      SetSet(Sub(i, ts[1..], x / 2), ts[0], a, b);
      SubOfSet(Sub(i, ts[1..], x / 2), ts[0], b, ts[1..], y / 2);
      SubSub(i, ts[1..], x / 2, y / 2);
      SubOfSet(i, ts[0], b, ts[1..], y / 2);
    }
  }

  lemma {:induction false} SubCommute(i: nat, ts: seq<nat>, x: nat, us: seq<nat>, y: nat)
    requires Disjoint(ts, us)
    ensures Sub(Sub(i, ts, x), us, y) == Sub(Sub(i, us, y), ts, x)
    decreases ts
  {
    if ts != [] {
      SubCommute(Set(i, ts[0], x % 2 == 1), ts[1..], x / 2, us, y);
      SubOfSet(i, ts[0], x % 2 == 1, us, y);
    }
  }

  lemma ActiveOfSub(i: nat, ts: seq<nat>, x: nat, controls: seq<nat>)
    requires Disjoint(controls, ts)
    ensures Active(Sub(i, ts, x), controls) == Active(i, controls)
  {
    forall c | c in controls
      ensures Bit(Sub(i, ts, x), c) == Bit(i, c)
    {
      BitOfSub(i, ts, x, c);
    }
  }

  /** Controls tested through masks, the way the loops do. */
  lemma ActiveMasks(i: nat, controls: seq<nat>)
    ensures Active(i, controls) <==> forall k :: 0 <= k < |controls| ==> And(i, Pow2(controls[k])) != 0
  {
    forall k | 0 <= k < |controls|
      ensures And(i, Pow2(controls[k])) != 0 <==> Bit(i, controls[k])
    {
      MaskLaws(i, controls[k]);
    }
    if forall k :: 0 <= k < |controls| ==> And(i, Pow2(controls[k])) != 0 {
      forall c | c in controls ensures Bit(i, c) {
        var k :| 0 <= k < |controls| && controls[k] == c;
      }
    }
  }

  lemma ActiveOne(i: nat, c: nat)
    ensures Active(i, [c]) <==> And(i, Pow2(c)) != 0
  {
    MaskLaws(i, c);
  }

  lemma ActiveTwo(i: nat, c: nat, d: nat)
    ensures Active(i, [c, d]) <==> And(i, Pow2(c)) != 0 && And(i, Pow2(d)) != 0
  {
    MaskLaws(i, c);
    MaskLaws(i, d);
  }
}
