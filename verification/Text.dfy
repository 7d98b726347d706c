/** The string operations of the host that the parsers use. */
module Text {
  lemma ConcatAssociates<T>(a: seq<T>, b: seq<T>, c: seq<T>)
    ensures a + (b + c) == (a + b) + c
  {}

  predicate IsSpace(c: char) {
    c in {' ', '\t', '\n', '\r', '\U{000B}', '\U{000C}', '\U{00A0}', '\U{1680}',
          '\U{2028}', '\U{2029}', '\U{202F}', '\U{205F}', '\U{3000}', '\U{FEFF}'}
    || '\U{2000}' <= c <= '\U{200A}'
  }

  predicate IsDigit(c: char) { '0' <= c <= '9' }

  predicate IsIdentStart(c: char) { 'a' <= c <= 'z' || 'A' <= c <= 'Z' || c == '_' }

  predicate IsWord(c: char) { IsIdentStart(c) || IsDigit(c) }

  function LowerChar(c: char): char {
    if 'A' <= c <= 'Z' then c - 'A' + 'a' else c
  }

  function Lower(s: string): (r: string)
    ensures |r| == |s| && forall i :: 0 <= i < |s| ==> r[i] == LowerChar(s[i])
  {
    if s == [] then [] else [LowerChar(s[0])] + Lower(s[1..])
  }

  predicate All(s: string, p: char -> bool) {
    forall c :: c in s ==> p(c)
  }

  /** Length of the longest prefix whose characters satisfy `p`. */
  function CountWhile(s: string, p: char -> bool): (k: nat)
    ensures k <= |s| && All(s[..k], p) && (k < |s| ==> !p(s[k]))
  {
    if s == [] || !p(s[0]) then 0
    else
      var k := 1 + CountWhile(s[1..], p);
      assert s[..k] == [s[0]] + s[1..][..k - 1];
      k
  }

  lemma {:induction false} CountWhileStops(a: string, b: string, p: char -> bool)
    requires All(a, p) && (b == [] || !p(b[0]))
    ensures CountWhile(a + b, p) == |a|
  {
    if a == [] {
      assert a + b == b;
    } else {
      assert (a + b)[1..] == a[1..] + b && forall c :: c in a[1..] ==> c in a;
      CountWhileStops(a[1..], b, p);
    }
  }

  function TrimStart(s: string): string {
    s[CountWhile(s, IsSpace)..]
  }

  function TrimEnd(s: string): string
    decreases |s|
  {
    if s != [] && IsSpace(s[|s| - 1]) then TrimEnd(s[..|s| - 1]) else s
  }

  function Trim(s: string): string { TrimEnd(TrimStart(s)) }

  /** A string with no space at either end. */
  predicate Tight(s: string) {
    s != [] && !IsSpace(s[0]) && !IsSpace(s[|s| - 1])
  }

  lemma TrimTight(s: string)
    requires Tight(s)
    ensures Trim(s) == s && Trim([' '] + s) == s
  {
    assert CountWhile(s, IsSpace) == 0;
    assert ([' '] + s)[1..] == s;
    assert CountWhile([' '] + s, IsSpace) == 1;
  }

  function Split(s: string, d: char): (r: seq<string>)
    ensures |r| >= 1
  {
    if s == [] then [[]]
    else
      var r := Split(s[1..], d);
      if s[0] == d then [[]] + r else [[s[0]] + r[0]] + r[1..]
  }

  lemma {:induction false} SplitFirst(a: string, b: string, d: char)
    requires d !in a
    ensures Split(a + [d] + b, d) == [a] + Split(b, d)
    ensures Split(a, d) == [a]
  {
    var s := a + [d] + b;
    if a == [] {
      assert s[0] == d && s[1..] == b;
    } else {
      assert s[0] == a[0] && s[1..] == a[1..] + [d] + b && a == [a[0]] + a[1..];
      SplitFirst(a[1..], b, d);
    }
  }

  /** What follows the last separator is the last part. */
  lemma {:induction false} SplitLast(a: string, b: string, d: char)
    requires d !in b
    ensures var parts := Split(a + [d] + b, d); |parts| > 1 && parts[|parts| - 1] == b
  {
    var s := a + [d] + b;
    if a == [] {
      assert s[1..] == b && s[0] == d;
      SplitFirst(b, "", d);
    } else {
      assert s[1..] == a[1..] + [d] + b;
      SplitLast(a[1..], b, d);
    }
  }

  function Join(parts: seq<string>, d: string): string {
    if parts == [] then "" else if |parts| == 1 then parts[0] else parts[0] + d + Join(parts[1..], d)
  }

  // ----- decimal numerals

  function DigitChar(d: nat): (c: char)
    requires d < 10
    ensures IsDigit(c)
  {
    '0' + d as char
  }

  function NatText(n: nat): (s: string)
    ensures s != [] && All(s, IsDigit)
  {
    if n < 10 then [DigitChar(n)] else NatText(n / 10) + [DigitChar(n % 10)]
  }

  /** Reading a string of digits. */
  function ParseNat(s: string): nat
    requires All(s, IsDigit)
  {
    if s == [] then 0
    else
      assert s[|s| - 1] in s && forall c :: c in s[..|s| - 1] ==> c in s;
      10 * ParseNat(s[..|s| - 1]) + (s[|s| - 1] - '0') as nat
  }

  lemma {:induction false} ParseNatText(n: nat)
    ensures ParseNat(NatText(n)) == n
  {
    var s := NatText(n);
    if n < 10 {
      assert s[..0] == [];
    } else {
      ParseNatText(n / 10);
      assert s[..|s| - 1] == NatText(n / 10) && s[|s| - 1] == DigitChar(n % 10);
    }
  }

  lemma NatTextInjective(a: nat, b: nat)
    requires NatText(a) == NatText(b)
    ensures a == b
  {
    ParseNatText(a);
    ParseNatText(b);
  }
}
