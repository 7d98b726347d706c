/** The mathematical library of the host: `Math.cos`, `Math.sin`, `Math.PI` and `Math.sqrt(2)`, taken as exact. */
module Trigonometry {
  import opened Complex

  type Positive = x: real | x > 0.0 witness 1.0

  datatype Trig = Trig(cos: real -> real, sin: real -> real, pi: real, sqrt2: Positive)

  ghost predicate SumLaw(t: Trig, a: real, b: real) {
    && t.cos(a + b) == t.cos(a) * t.cos(b) - t.sin(a) * t.sin(b)
    && t.sin(a + b) == t.sin(a) * t.cos(b) + t.cos(a) * t.sin(b)
  }

  ghost predicate Parity(t: Trig, a: real) {
    t.cos(-a) == t.cos(a) && t.sin(-a) == -t.sin(a)
  }

  /** The textbook identities the exact functions satisfy. */
  ghost predicate Exact(t: Trig) {
    && t.sqrt2 * t.sqrt2 == 2.0
    && t.cos(0.0) == 1.0 && t.sin(0.0) == 0.0
    && t.cos(t.pi / 4.0) == t.sin(t.pi / 4.0) > 0.0
    && (forall a, b :: SumLaw(t, a, b))
    && (forall a :: Parity(t, a))
  }

  /** `e` to the power `i * a`. */
  function Cis(t: Trig, a: real): C { C(t.cos(a), t.sin(a)) }

  /** One over the square root of two. */
  function R(t: Trig): real { 1.0 / t.sqrt2 }

  lemma CisNorm(t: Trig, a: real)
    requires Exact(t)
    ensures t.cos(a) * t.cos(a) + t.sin(a) * t.sin(a) == 1.0
  {
    assert SumLaw(t, a, -a) && Parity(t, a);
    assert a + -a == 0.0;
  }

  lemma CisSum(t: Trig, a: real, b: real)
    requires Exact(t)
    ensures Cis(t, a + b) == Mul(Cis(t, a), Cis(t, b))
  {
    assert SumLaw(t, a, b);
  }

  lemma CisNeg(t: Trig, a: real)
    requires Exact(t)
    ensures Cis(t, -a) == Conj(Cis(t, a))
  {
    assert Parity(t, a);
  }

  lemma Half(t: Trig)
    requires Exact(t)
    ensures R(t) > 0.0 && R(t) * R(t) == 0.5
    ensures t.cos(t.pi / 4.0) == t.sin(t.pi / 4.0) == R(t)
  {
    var r, c, s := R(t), t.cos(t.pi / 4.0), t.sqrt2;
    assert r * s == 1.0;
    assert r * r * (s * s) == (r * s) * (r * s) == 1.0;
    CisNorm(t, t.pi / 4.0);
    assert c * c == 0.5 == r * r;
    SquareRootUnique(c, r);
  }

  lemma SquareRootUnique(a: real, b: real)
    requires a > 0.0 && b > 0.0 && a * a == b * b
    ensures a == b
  {
    assert (a - b) * (a + b) == a * a - b * b;
  }

  lemma CisUnit(t: Trig, theta: real)
    requires Exact(t)
    ensures Norm2(Cis(t, theta)) == 1.0
  {
    hide Exact;
    CisNorm(t, theta);
  }
}
