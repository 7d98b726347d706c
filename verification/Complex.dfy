/** Exact complex numbers, and finite sums of reals and of complex numbers. */
module Complex {

  datatype C = C(re: real, im: real)

  const ZERO := C(0.0, 0.0)
  const ONE := C(1.0, 0.0)

  function Plus(a: C, b: C): C { C(a.re + b.re, a.im + b.im) }

  function Neg(a: C): C { C(-a.re, -a.im) }

  function Conj(a: C): C { C(a.re, -a.im) }

  function Mul(a: C, b: C): C { C(a.re * b.re - a.im * b.im, a.re * b.im + a.im * b.re) }

  function Scale(x: real, a: C): C { C(x * a.re, x * a.im) }

  function Norm2(a: C): real { a.re * a.re + a.im * a.im }

  lemma MulPlus(a: C, b: C, c: C)
    ensures Mul(a, Plus(b, c)) == Plus(Mul(a, b), Mul(a, c))
  {}

  lemma MulSwap(a: C, b: C, c: C)
    ensures Mul(a, Mul(b, c)) == Mul(b, Mul(a, c))
  {
    assert a.re * (b.re * c.re) == b.re * (a.re * c.re);
  }

  lemma MulAssoc(a: C, b: C, c: C)
    ensures Mul(a, Mul(b, c)) == Mul(Mul(a, b), c)
  {}

  lemma MulSymmetric(a: C, b: C)
    ensures Mul(a, b) == Mul(b, a)
  {}

  lemma OneTimes(a: C)
    ensures Mul(ONE, a) == a
  {}

  lemma NegTwice(a: C)
    ensures Neg(Neg(a)) == a
  {}

  /** A real factor may be taken out of either side of a product. */
  lemma MulScale(r: real, z: C, a: C)
    ensures Mul(z, Scale(r, a)) == Scale(r, Mul(z, a))
  {
    assert z.re * (r * a.re) == r * (z.re * a.re) && z.im * (r * a.im) == r * (z.im * a.im);
    assert z.re * (r * a.im) == r * (z.re * a.im) && z.im * (r * a.re) == r * (z.im * a.re);
  }

  lemma ScaleMul(r: real, z: C, a: C)
    ensures Mul(Scale(r, z), a) == Scale(r, Mul(z, a))
  {
    MulSymmetric(Scale(r, z), a);
    MulScale(r, a, z);
    MulSymmetric(z, a);
  }

  lemma NormMul(a: C, b: C)
    ensures Norm2(Mul(a, b)) == Norm2(a) * Norm2(b)
  {}

  // ----- complex sums

  function Sum(n: nat, f: nat -> C): C {
    if n == 0 then ZERO else Plus(Sum(n - 1, f), f(n - 1))
  }

  lemma {:induction false} SumExt(n: nat, f: nat -> C, g: nat -> C)
    requires forall x: nat :: x < n ==> f(x) == g(x)
    ensures Sum(n, f) == Sum(n, g)
  {
    if n != 0 {
      SumExt(n - 1, f, g);
    }
  }

  lemma {:induction false} SumScale(n: nat, f: nat -> C, c: C, g: nat -> C)
    requires forall x: nat :: x < n ==> g(x) == Mul(c, f(x))
    ensures Sum(n, g) == Mul(c, Sum(n, f))
  {
    if n != 0 {
      SumScale(n - 1, f, c, g);
      MulPlus(c, Sum(n - 1, f), f(n - 1));
    }
  }

  lemma {:induction false} SumPlus(n: nat, f: nat -> C, g: nat -> C, h: nat -> C)
    requires forall x: nat :: x < n ==> h(x) == Plus(f(x), g(x))
    ensures Sum(n, h) == Plus(Sum(n, f), Sum(n, g))
  {
    if n != 0 {
      SumPlus(n - 1, f, g, h);
    }
  }

  /** Fubini for finite sums: `rows` sums the table `t` along one axis, `cols` along the other. */
  lemma {:induction false} SumExchange(n: nat, m: nat, t: (nat, nat) -> C, rows: nat -> C, cols: nat -> C)
    requires forall x: nat :: x < n ==> rows(x) == Sum(m, (y: nat) => t(x, y))
    requires forall y: nat :: y < m ==> cols(y) == Sum(n, (x: nat) => t(x, y))
    ensures Sum(n, rows) == Sum(m, cols)
  {
    if n == 0 {
      SumZero(m, cols);
    } else {
      var fewer := (y: nat) => Sum(n - 1, (x: nat) => t(x, y));
      SumExchange(n - 1, m, t, rows, fewer);
      forall y: nat | y < m
        ensures cols(y) == Plus(fewer(y), t(n - 1, y))
      {
        SumExt(n - 1, (x: nat) => t(x, y), (x: nat) => t(x, y));
      }
      SumPlus(m, fewer, (y: nat) => t(n - 1, y), cols);
    }
  }

  lemma {:induction false} SumZero(n: nat, f: nat -> C)
    requires forall x: nat :: x < n ==> f(x) == ZERO
    ensures Sum(n, f) == ZERO
  {
    if n != 0 {
      SumZero(n - 1, f);
    }
  }

  // ----- sums of a sequence of reals

  function Total(s: seq<real>): real {
    if s == [] then 0.0 else Total(s[..|s| - 1]) + s[|s| - 1]
  }

  lemma TotalSnoc(s: seq<real>, x: real)
    ensures Total(s + [x]) == Total(s) + x
  {
    assert (s + [x])[..|s|] == s;
  }

  lemma {:induction false} TotalPlus(a: seq<real>, b: seq<real>, c: seq<real>)
    requires |a| == |b| == |c| && forall i :: 0 <= i < |c| ==> c[i] == a[i] + b[i]
    ensures Total(c) == Total(a) + Total(b)
  {
    if c != [] {
      var n := |c| - 1;
      TotalPlus(a[..n], b[..n], c[..n]);
    }
  }
}
