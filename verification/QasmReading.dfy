/** What the statement parser makes of each kind of printed statement. */
module QasmReading {
  import opened Options
  import opened Text
  import opened Circuits
  import opened QasmPrinter
  import opened QasmParser

  // ----- pieces of the grammar

  lemma MatchIdentText(name: string, rest: string)
    requires name != "" && IsIdentStart(name[0]) && All(name, IsWord) && (rest == "" || !IsWord(rest[0]))
    ensures MatchIdent(name + rest) == Option.Some((name, rest))
  {
    CountWhileStops(name, rest, IsWord);
    assert (name + rest)[..|name|] == name && (name + rest)[|name|..] == rest;
  }

  lemma MatchIndexText(i: nat, rest: string)
    ensures MatchIndex("[" + NatText(i) + "]" + rest) == Option.Some((i, rest))
  {
    var digits := NatText(i);
    var s := "[" + digits + "]" + rest;
    var tail := "]" + rest;
    assert s[1..] == digits + tail;
    CountWhileStops(digits, tail, IsDigit);
    assert (digits + tail)[..|digits|] == digits && (digits + tail)[|digits|..] == tail && tail[1..] == rest;
    ParseNatText(i);
  }

  lemma MatchIndexedText(name: string, i: nat, rest: string)
    requires name != "" && IsIdentStart(name[0]) && All(name, IsWord)
    ensures MatchIndexed(Indexed(name, i) + rest) == Option.Some((name, i, rest))
  {
    hide MatchIdent, MatchIndex;
    var tail := "[" + NatText(i) + "]" + rest;
    assert Indexed(name, i) + rest == name + tail;
    MatchIdentText(name, tail);
    MatchIndexText(i, rest);
  }

  lemma SkipSpace(s: string)
    requires s != "" && !IsSpace(s[0])
    ensures MatchSpaces(" " + s) == Option.Some(s) && TrimStart(" " + s) == s && TrimStart(s) == s
  {
    assert (" " + s)[1..] == s;
    assert CountWhile(s, IsSpace) == 0;
    assert CountWhile(" " + s, IsSpace) == 1;
  }

  lemma DeclarationText(keyword: string, n: nat, name: string)
    requires name != "" && IsIdentStart(name[0]) && All(name, IsWord)
    ensures MatchDeclaration(keyword, keyword + ("[" + NatText(n) + "]" + (" " + name))) ==
            Option.Some(Register(name, n))
  {
    hide MatchIdent, MatchIndex, MatchSpaces;
    var rest := "[" + NatText(n) + "]" + (" " + name);
    assert (keyword + rest)[|keyword|..] == rest;
    MatchIndexText(n, " " + name);
    SkipSpace(name);
    MatchIdentText(name, "");
    assert name + "" == name;
  }

  // ----- which statement is it?

  lemma NotHeader(s: string)
    requires s != "" && LowerChar(s[0]) != 'o'
    ensures !IsHeader(s)
  {
    if |s| >= 8 {
      assert Lower(s[..8])[0] == LowerChar(s[0]);
    }
  }

  lemma NotInclude(s: string)
    requires |s| >= 2 && (LowerChar(s[0]) != 'i' || LowerChar(s[1]) != 'n')
    ensures !IsInclude(s)
  {
    if |s| >= 7 {
      assert Lower(s[..7])[0] == LowerChar(s[0]) && Lower(s[..7])[1] == LowerChar(s[1]);
      assert "include"[0] == 'i' && "include"[1] == 'n';
    }
  }

  lemma NotDeclaration(keyword: string, s: string)
    requires s != "" && keyword != "" && s[0] != keyword[0]
    ensures MatchDeclaration(keyword, s) == Option.None
  {}

  /** The head of the statement rules out headers, includes and declarations. */
  predicate Ordinary(s: string) {
    |s| >= 2 && LowerChar(s[0]) != 'o' && (LowerChar(s[0]) != 'i' || LowerChar(s[1]) != 'n') && s[0] != 'q'
        && s[0] != 'b'
  }

  function Opened(n: nat, ops: seq<Operation>): State {
    State(true, Option.Some(Register("q", n)), Option.Some(Register("c", n)), ops)
  }

  function Appended(n: nat, ops: seq<Operation>, op: Parsed<Operation>): Parsed<State> {
    match op
    case Success(x) => Success(Opened(n, ops + [x]))
    case Failure(code) => Failure(code)
  }

  lemma OrdinaryStep(h: Numerals, pi: real, n: nat, ops: seq<Operation>, s: string)
    requires Ordinary(s)
    ensures Step(h, pi, Opened(n, ops), s) == Appended(n, ops,
      match MatchMeasure(s)
      case Some(m) => ParseMeasure(m, Register("q", n), Option.Some(Register("c", n)), |ops| + 1)
      case None => ParseGate(h, pi, s, Register("q", n), |ops| + 1))
  {
    hide IsHeader, IsInclude, MatchDeclaration, MatchMeasure, ParseGate, ParseMeasure;
    NotHeader(s);
    NotInclude(s);
    NotDeclaration("qubit", s);
    NotDeclaration("bit", s);
  }

  // ----- the preamble

  lemma HeaderText()
    ensures IsHeader("OPENQASM 3")
  {
    var s := "OPENQASM 3";
    assert s[..8] == "OPENQASM" && s[8..] == " " + "3";
    assert Lower("OPENQASM") == "openqasm";
    SkipSpace("3");
  }

  lemma LowerFixed(s: string)
    requires forall c :: c in s ==> !('A' <= c <= 'Z')
    ensures Lower(s) == s
  {
    assert forall k :: 0 <= k < |s| ==> s[k] in s;
  }

  lemma QuoteIsNoSpace()
    ensures !IsSpace('"')
  {}

  lemma IncludeText()
    ensures IsInclude("include \"stdgates.inc\"") && !IsHeader("include \"stdgates.inc\"")
  {
    hide IsHeader, IsSpace, TrimStart, Lower;
    var s, file := "include \"stdgates.inc\"", "\"stdgates.inc\"";
    assert s[..7] == "include" && s[7..] == " " + file;
    LowerFixed("include");
    LowerFixed(file);
    assert !IsSpace('"') by { QuoteIsNoSpace(); }
    SkipSpace(file);
    NotHeader(s);
  }

  lemma RegisterTexts(n: nat)
    ensures var q, c := "qubit[" + NatText(n) + "] q", "bit[" + NatText(n) + "] c";
      && MatchDeclaration("qubit", q) == Option.Some(Register("q", n)) && !IsHeader(q) && !IsInclude(q)
      && MatchDeclaration("qubit", c) == Option.None && MatchDeclaration("bit", c) == Option.Some(Register("c", n))
      && !IsHeader(c) && !IsInclude(c)
  {
    hide MatchDeclaration, IsHeader, IsInclude;
    var q, c := "qubit[" + NatText(n) + "] q", "bit[" + NatText(n) + "] c";
    assert q == "qubit" + ("[" + NatText(n) + "]" + (" " + "q"));
    assert c == "bit" + ("[" + NatText(n) + "]" + (" " + "c"));
    DeclarationText("qubit", n, "q");
    DeclarationText("bit", n, "c");
    NotDeclaration("qubit", c);
    NotHeader(q);
    NotInclude(q);
    NotHeader(c);
    NotInclude(c);
  }

  lemma PreambleSteps(h: Numerals, pi: real, n: nat, bodies: seq<string>)
    ensures Steps(h, pi, START, Preamble(n) + bodies) == Steps(h, pi, Opened(n, []), bodies)
  {
    hide MatchDeclaration, IsHeader, IsInclude, MatchMeasure, ParseMeasure, ParseGate;
    HeaderText();
    IncludeText();
    RegisterTexts(n);
    var s0 := Preamble(n) + bodies;
    var s1 := s0[1..];
    var s2 := s1[1..];
    var s3 := s2[1..];
    assert s3[1..] == bodies;
    var st1 := START.(hasHeader := true);
    assert Step(h, pi, START, s0[0]) == Success(st1);
    assert Step(h, pi, st1, s1[0]) == Success(st1);
    var st2 := st1.(qubit := Option.Some(Register("q", n)));
    assert Step(h, pi, st1, s2[0]) == Success(st2);
    assert Step(h, pi, st2, s3[0]) == Success(Opened(n, []));
    hide Step;
    assert Steps(h, pi, START, s0) == Steps(h, pi, st1, s1);
    assert Steps(h, pi, st1, s1) == Steps(h, pi, st1, s2);
    assert Steps(h, pi, st1, s2) == Steps(h, pi, st2, s3);
  }

  // ----- comma-separated lists

  function Spaced(items: seq<string>): (r: seq<string>)
    ensures |r| == |items| && forall k :: 0 <= k < |r| ==> r[k] == " " + items[k]
  {
    if items == [] then [] else [" " + items[0]] + Spaced(items[1..])
  }

  function Pieces(items: seq<string>): seq<string> {
    if items == [] then [] else [items[0]] + Spaced(items[1..])
  }

  lemma {:induction false} SplitJoin(items: seq<string>)
    requires items != [] && forall k :: 0 <= k < |items| ==> ',' !in items[k]
    ensures Split(Join(items, ", "), ',') == Pieces(items)
  {
    if |items| == 1 {
      SplitFirst(items[0], "", ',');
      assert Spaced(items[1..]) == [];
    } else {
      var rest := items[1..];
      var tail := Join(rest, ", ");
      SplitJoin(rest);
      assert Join(items, ", ") == items[0] + [','] + (" " + tail);
      SplitFirst(items[0], " " + tail, ',');
      assert (" " + tail)[1..] == tail;
      assert Split(" " + tail, ',') == [" " + rest[0]] + Spaced(rest[1..]);
      assert Spaced(rest) == [" " + rest[0]] + Spaced(rest[1..]);
    }
  }

  lemma {:induction false} JoinAll(items: seq<string>, d: string, p: char -> bool)
    requires All(d, p) && forall k :: 0 <= k < |items| ==> All(items[k], p)
    ensures All(Join(items, d), p)
  {
    if |items| > 1 {
      JoinAll(items[1..], d, p);
      AllConcat(items[0], d, p);
      AllConcat(items[0] + d, Join(items[1..], d), p);
    }
  }

  lemma AllConcat(a: string, b: string, p: char -> bool)
    requires All(a, p) && All(b, p)
    ensures All(a + b, p)
  {}

  lemma {:induction false} JoinTight(items: seq<string>, d: string)
    requires items != [] && forall k :: 0 <= k < |items| ==> Tight(items[k])
    ensures Tight(Join(items, d))
  {
    if |items| > 1 {
      JoinTight(items[1..], d);
    }
  }
}
