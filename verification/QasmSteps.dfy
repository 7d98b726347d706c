/** Reading one printed statement appends exactly the operation it describes. */
module QasmSteps {
  import opened Options
  import opened Text
  import opened Circuits
  import opened QasmStatements
  import opened QasmPrinter
  import opened QasmParser
  import opened QasmReading
  import opened Bits

  // ----- gate names

  function Letter(s: string, k: nat): int {
    if k < |s| then s[k] as int else 0
  }

  /** A number that tells the printed names apart. */
  function Key(s: string): int {
    Letter(s, 0) + 128 * (Letter(s, 1) + 128 * (Letter(s, 2) + 128 * (Letter(s, 3) + 128 * Letter(s, 4))))
  }

  function KeyOf(g: GateName): int {
    match g
    case I => 105 case X => 120 case Y => 121 case Z => 122 case H => 104 case SX => 15475 case SY => 15603
    case S => 115 case SDG => 1700467 case T => 116 case TDG => 1700468
    case RX => 15474 case RY => 15602 case RZ => 15730 case U => 117 case P => 112
    case CX => 15459 case CY => 15587 case CH => 13411 case CP => 14435 case CZ => 15715
    case CCX => 1978851 case CCZ => 2011619
    case SWAP => 236485619 case CSWAP => 30270159331
    case RXX => 1981554 case RYY => 1998066 case RZZ => 2014578 case RZX => 1981810
    case M => 109
  }

  lemma NameKey(g: GateName)
    ensures Key(GateText(g)) == KeyOf(g)
  {}

  lemma KeysDiffer(a: GateName, b: GateName)
    requires KeyOf(a) == KeyOf(b)
    ensures a == b
  {}

  predicate IsLetter(c: char) { 'a' <= c <= 'z' }

  lemma NameShape(g: GateName)
    ensures GateText(g) != "" && |GateText(g)| <= 5 && All(GateText(g), IsLetter)
    ensures var s := GateText(g); s[0] !in {'o', 'q', 'b'} && (s[0] == 'i' ==> |s| == 1)
  {}

  lemma {:induction false} FindsGate(gates: seq<GateName>, g: GateName)
    requires g in gates
    ensures FindGate(gates, GateText(g)) == Option.Some(g)
  {
    hide GateText, KeyOf, Key;
    if GateText(gates[0]) == GateText(g) {
      NameKey(gates[0]);
      NameKey(g);
      KeysDiffer(gates[0], g);
    } else {
      FindsGate(gates[1..], g);
    }
  }

  /** The gates that have a statement of their own. */
  predicate HasStatement(g: GateName) {
    g !in {SY, CCZ, M, RXX, RYY, RZZ, RZX}
  }

  lemma Listed(g: GateName)
    requires HasStatement(g)
    ensures g in PARSED_GATES
  {}

  lemma Resolves(pi: real, g: GateName, params: seq<real>)
    requires HasStatement(g)
    ensures ResolveGate(pi, GateText(g), params) == Success((g, params))
  {
    hide GateText, KeyOf, FindGate, Key, All;
    var name := GateText(g);
    NameShape(g);
    LowerLetters(name);
    LettersOnly(name);
    Listed(g);
    FindsGate(PARSED_GATES, g);
    if name == "cnot" {
      assert Key("cnot") == KeyOf(g) by { NameKey(g); }
      NotNegated(g);
    }
  }

  lemma NotNegated(g: GateName)
    ensures KeyOf(g) != Key("cnot")
  {}

  lemma LowerLetters(s: string)
    requires All(s, IsLetter)
    ensures Lower(s) == s
  {
    LowerFixed(s);
  }

  lemma LettersOnly(s: string)
    requires All(s, IsLetter) && |s| <= 5
    ensures s !in {"u1", "u2", "u3", "constructor", "__proto__"}
  {
    assert |s| == 2 ==> s[1] in s;
  }

  // ----- numbers

  predicate NumbersPlain(h: Numerals, params: seq<real>) {
    forall x :: x in params ==> Plain(h.format(x))
  }

  function Rounded(h: Numerals, params: seq<real>): (r: seq<real>)
    ensures |r| == |params| && forall k :: 0 <= k < |r| ==> r[k] == h.rounded(params[k])
  {
    if params == [] then [] else [h.rounded(params[0])] + Rounded(h, params[1..])
  }

  /** What reading printed numbers yields. */
  function Reading(h: Numerals, params: seq<real>): Parsed<seq<real>> {
    if NumbersPlain(h, params) then Success(Rounded(h, params)) else Failure(InvalidParameter)
  }

  lemma NumeralsTight(s: string)
    requires s != "" && All(s, NumeralChar)
    ensures Tight(s)
  {
    assert s[0] in s && s[|s| - 1] in s;
  }

  lemma NumberText(h: Numerals, x: real)
    requires NumeralLaw(h, x)
    ensures var s := h.format(x); var r := if Plain(s) then Success(h.rounded(x)) else Failure(InvalidParameter);
      ParseExpression(h, s) == r && ParseExpression(h, " " + s) == r
  {
    hide IsSpace, Trim;
    var s := h.format(x);
    NumeralsTight(s);
    TrimTight(s);
    assert 'e' in s ==> !All(s, ExpressionChar) by { assert !IsSpace('e') by { EIsNoSpace(); } }
  }

  lemma EIsNoSpace()
    ensures !IsSpace('e')
  {}

  lemma {:induction false} SpacedNumbers(h: Numerals, params: seq<real>)
    requires Codec(h)
    ensures ParseExpressions(h, Spaced(Formatted(h, params))) == Reading(h, params)
  {
    hide ParseExpression, Plain;
    if params != [] {
      var x := params[0];
      assert NumeralLaw(h, x);
      NumberText(h, x);
      SpacedNumbers(h, params[1..]);
      HeadAndTail(h, params);
      var items := Spaced(Formatted(h, params));
      assert items[0] == " " + h.format(x) && items[1..] == Spaced(Formatted(h, params[1..]));
    }
  }

  lemma HeadAndTail(h: Numerals, params: seq<real>)
    requires params != []
    ensures NumbersPlain(h, params) <==> Plain(h.format(params[0])) && NumbersPlain(h, params[1..])
  {
    hide Plain;
    assert forall x :: x in params <==> x == params[0] || x in params[1..] by {
      assert params == [params[0]] + params[1..];
    }
  }

  lemma ListedNumbers(h: Numerals, params: seq<real>)
    requires Codec(h) && params != []
    ensures ParseExpressions(h, Pieces(Formatted(h, params))) == Reading(h, params)
  {
    hide ParseExpression, Plain, Spaced;
    var x := params[0];
    assert NumeralLaw(h, x);
    NumberText(h, x);
    SpacedNumbers(h, params[1..]);
    HeadAndTail(h, params);
    var items := Pieces(Formatted(h, params));
    assert items[0] == h.format(x) && items[1..] == Spaced(Formatted(h, params[1..]));
  }

  predicate ListChar(c: char) { NumeralChar(c) || c == ',' || c == ' ' }

  lemma NumberList(h: Numerals, params: seq<real>)
    requires Codec(h) && params != []
    ensures var text := Join(Formatted(h, params), ", "); All(text, ListChar) && Tight(text)
    ensures ParseParameters(h, Option.Some(Join(Formatted(h, params), ", "))) == Reading(h, params)
  {
    hide ParseExpressions, Pieces, Tight, Trim, Reading;
    var items := Formatted(h, params);
    var text := Join(items, ", ");
    forall k | 0 <= k < |items| ensures Tight(items[k]) && All(items[k], ListChar) && ',' !in items[k] {
      assert NumeralLaw(h, params[k]);
      NumeralsTight(items[k]);
    }
    JoinAll(items, ", ", ListChar);
    JoinTight(items, ", ");
    TrimTight(text);
    assert text != "" by { TightIsSomething(text); }
    SplitJoin(items);
    ListedNumbers(h, params);
  }

  lemma TightIsSomething(s: string)
    requires Tight(s)
    ensures s != ""
  {}

  // ----- operands

  lemma OperandText(i: nat, n: nat)
    requires i < n
    ensures var s := Indexed("q", i);
      Tight(s) && s[0] == 'q' && ',' !in s && All(s, OperandChar)
      && ParseOperand(s, Register("q", n)) == Success(i) && ParseOperand(" " + s, Register("q", n)) == Success(i)
  {
    hide MatchIndexed, Trim, IsSpace;
    var s := Indexed("q", i);
    assert s + "" == s;
    assert s[0] == 'q' && s[|s| - 1] == ']';
    assert !IsSpace('q') && !IsSpace(']') by { MarksAreNoSpace(); }
    MatchIndexedText("q", i, "");
    TrimTight(s);
  }

  lemma MarksAreNoSpace()
    ensures !IsSpace('q') && !IsSpace(']')
  {}

  predicate OperandChar(c: char) { IsDigit(c) || c in {'q', '[', ']'} }

  lemma {:induction false} SpacedOperands(qs: seq<nat>, n: nat)
    requires Within(qs, n)
    ensures ParseOperands(Spaced(Operands(qs)), Register("q", n)) == Success(qs)
  {
    hide ParseOperand;
    if qs != [] {
      OperandText(qs[0], n);
      assert Within(qs[1..], n);
      SpacedOperands(qs[1..], n);
      var items := Spaced(Operands(qs));
      assert items[0] == " " + Indexed("q", qs[0]) && items[1..] == Spaced(Operands(qs[1..]));
      assert [qs[0]] + qs[1..] == qs;
    }
  }

  predicate OperandsChar(c: char) { OperandChar(c) || c == ',' || c == ' ' }

  lemma OperandList(qs: seq<nat>, n: nat)
    requires Within(qs, n) && qs != []
    ensures var text := Join(Operands(qs), ", ");
      && All(text, OperandsChar) && Tight(text)
      && Split(text, ',') == Pieces(Operands(qs)) && |Pieces(Operands(qs))| == |qs|
      && ParseOperands(Pieces(Operands(qs)), Register("q", n)) == Success(qs)
  {
    hide ParseOperand, Tight, Indexed, Split, Spaced;
    var items := Operands(qs);
    forall k | 0 <= k < |items| ensures Tight(items[k]) && All(items[k], OperandsChar) && ',' !in items[k] {
      OperandText(qs[k], n);
    }
    JoinAll(items, ", ", OperandsChar);
    JoinTight(items, ", ");
    SplitJoin(items);
    OperandText(qs[0], n);
    assert Within(qs[1..], n);
    SpacedOperands(qs[1..], n);
    var pieces := Pieces(items);
    assert pieces[0] == Indexed("q", qs[0]) && pieces[1..] == Spaced(Operands(qs[1..]));
    assert [qs[0]] + qs[1..] == qs;
  }

  // ----- a gate statement

  function GroupText(group: Option<string>): string {
    if group.None? then "" else "(" + group.value + ")"
  }

  function GateForm(name: string, group: Option<string>, operands: string): string {
    name + (GroupText(group) + (" " + operands))
  }

  lemma GateFormMatches(name: string, group: Option<string>, operands: string)
    requires name != "" && IsIdentStart(name[0]) && All(name, IsWord)
    requires operands != "" && !IsSpace(operands[0]) && All(operands, NotLineBreak)
    requires group.Some? ==> ')' !in group.value
    ensures MatchGate(GateForm(name, group, operands)) == Option.Some((name, group, operands))
    ensures MatchMeasure(GateForm(name, group, operands)) == Option.None
  {
    hide MatchIdent, MatchSpaces, MatchGroup, IsSpace, TrimStart, All, MatchWord;
    var rest := GroupText(group) + (" " + operands);
    assert rest[0] == if group.None? then ' ' else '(';
    MatchIdentText(name, rest);
    GroupMatches(group, operands);
    SkipSpace(operands);
  }

  lemma LettersIdentify(name: string)
    requires name != "" && All(name, IsLetter)
    ensures IsIdentStart(name[0]) && All(name, IsWord)
  {
    assert name[0] in name;
  }

  lemma GroupMatches(group: Option<string>, operands: string)
    requires group.Some? ==> ')' !in group.value
    ensures MatchGroup(GroupText(group) + (" " + operands)) == Option.Some((group, " " + operands))
  {
    var rest := GroupText(group) + (" " + operands);
    if group.Some? {
      var text, tail := group.value, ")" + (" " + operands);
      assert rest[1..] == text + tail;
      CountWhileStops(text, tail, NotClose);
      assert (text + tail)[..|text|] == text && (text + tail)[|text| + 1..] == " " + operands;
    } else {
      assert rest == " " + operands;
    }
  }

  function GroupOf(h: Numerals, params: seq<real>): Option<string> {
    if params == [] then Option.None else Option.Some(Join(Formatted(h, params), ", "))
  }

  lemma BodyForm(h: Numerals, g: GateName, params: seq<real>, operands: seq<nat>)
    ensures Body(h, GateStmt(g, params, operands)) ==
            GateForm(GateText(g), GroupOf(h, params), Join(Operands(operands), ", "))
  {
    hide Join, GateText;
  }

  /** A gate statement the printer can produce for a register of `n` qubits. */
  predicate GoodGate(g: GateName, params: seq<real>, operands: seq<nat>, n: nat) {
    && HasStatement(g) && |params| == ParamCount(g) && |operands| == TargetCount(g) + ControlCount(g)
    && Within(operands, n) && Distinct(operands)
  }

  lemma GateParts(h: Numerals, g: GateName, params: seq<real>, operands: seq<nat>, n: nat)
    requires Codec(h) && GoodGate(g, params, operands, n)
    ensures var s := Body(h, GateStmt(g, params, operands));
      && MatchGate(s) == Option.Some((GateText(g), GroupOf(h, params), Join(Operands(operands), ", ")))
      && MatchMeasure(s) == Option.None
      && ParseParameters(h, GroupOf(h, params)) == Reading(h, params)
  {
    hide MatchGate, MatchMeasure, ParseParameters, All, Tight, Join, GateText, Body, IsSpace, Reading;
    var text := Join(Operands(operands), ", ");
    NameShape(g);
    OperandList(operands, n);
    BodyForm(h, g, params, operands);
    OperandsFit(text);
    if params == [] {
      NothingToRead(h);
    } else {
      NumberList(h, params);
      ListHasNoClose(Join(Formatted(h, params), ", "));
    }
    LettersIdentify(GateText(g));
    GateFormMatches(GateText(g), GroupOf(h, params), text);
  }

  lemma NothingToRead(h: Numerals)
    ensures ParseParameters(h, Option.None) == Reading(h, [])
  {}

  lemma OperandsFit(text: string)
    requires Tight(text) && All(text, OperandsChar)
    ensures text != "" && !IsSpace(text[0]) && All(text, NotLineBreak)
  {}

  lemma ListHasNoClose(text: string)
    requires All(text, ListChar)
    ensures ')' !in text
  {}

  lemma GateIsOrdinary(h: Numerals, g: GateName, params: seq<real>, operands: seq<nat>)
    ensures Ordinary(Body(h, GateStmt(g, params, operands)))
  {
    hide Join, GateText;
    var name := GateText(g);
    NameShape(g);
    BodyForm(h, g, params, operands);
    var rest := GroupText(GroupOf(h, params)) + (" " + Join(Operands(operands), ", "));
    var s := name + rest;
    assert s[0] == name[0] && name[0] in name;
    assert |name| == 1 ==> s[1] == rest[0] && rest[0] in {' ', '('};
  }

  lemma ParseGateText(h: Numerals, pi: real, g: GateName, params: seq<real>, operands: seq<nat>, n: nat, k: nat)
    requires Codec(h) && GoodGate(g, params, operands, n) && k >= 1
    ensures ParseGate(h, pi, Body(h, GateStmt(g, params, operands)), Register("q", n), k) ==
      if NumbersPlain(h, params) then Success(ToOperation(g, Rounded(h, params), operands, k))
      else Failure(InvalidParameter)
  {
    hide MatchGate, ParseParameters, ResolveGate, ParseOperands, Split, Join, GateText, Body, ToOperation,
      NumbersPlain, Pieces, Tight, All;
    GateParts(h, g, params, operands, n);
    OperandList(operands, n);
    Resolves(pi, g, Rounded(h, params));
  }

  lemma GateStep(h: Numerals, pi: real, n: nat, ops: seq<Operation>, g: GateName, params: seq<real>, operands: seq<nat>)
    requires Codec(h) && GoodGate(g, params, operands, n)
    ensures Step(h, pi, Opened(n, ops), Body(h, GateStmt(g, params, operands))) ==
      if NumbersPlain(h, params)
      then Success(Opened(n, ops + [ToOperation(g, Rounded(h, params), operands, |ops| + 1)]))
      else Failure(InvalidParameter)
  {
    hide Step, MatchMeasure, MatchGate, ParseGate, Body, GateText, Ordinary, NumbersPlain, ToOperation, Codec,
      GoodGate, Reading, ParseParameters;
    GateIsOrdinary(h, g, params, operands);
    GateParts(h, g, params, operands, n);
    OrdinaryStep(h, pi, n, ops, Body(h, GateStmt(g, params, operands)));
    ParseGateText(h, pi, g, params, operands, n, |ops| + 1);
  }

  // ----- a measurement

  lemma MeasureMatches(b: nat, q: nat)
    ensures MatchMeasure(Indexed("c", b) + " = measure " + Indexed("q", q)) == Option.Some(("c", b, "q", q))
  {
    hide MatchIndexed, TrimStart, MatchSpaces, MatchWord, Indexed;
    var measured := Indexed("q", q);
    var r3 := " " + measured;
    var r2 := "measure" + r3;
    var r1 := "=" + (" " + r2);
    assert Indexed("c", b) + " = measure " + measured == Indexed("c", b) + (" " + r1);
    MatchIndexedText("c", b, " " + r1);
    SkipSpace(r1);
    assert r1[1..] == " " + r2;
    SkipSpace(r2);
    MeasureWord(r3);
    assert measured[0] == 'q' by { IndexedHead(q); }
    SkipSpace(measured);
    assert measured + "" == measured;
    MatchIndexedText("q", q, "");
  }

  lemma IndexedHead(q: nat)
    ensures Indexed("q", q) != "" && Indexed("q", q)[0] == 'q'
  {}

  lemma MeasureWord(rest: string)
    ensures MatchWord("measure", "measure" + rest) == Option.Some(rest)
  {
    assert ("measure" + rest)[..7] == "measure" && ("measure" + rest)[7..] == rest;
    LowerFixed("measure");
  }

  lemma MeasureStep(h: Numerals, pi: real, n: nat, ops: seq<Operation>, b: nat, q: nat)
    requires b < n && q < n
    ensures Step(h, pi, Opened(n, ops), Body(h, MeasureStmt(b, q))) ==
      Success(Opened(n, ops + [Operation(OperationId(|ops| + 1), M, [q], [], [], |ops|)]))
  {
    hide Step, MatchMeasure, ParseGate, Indexed;
    var s := Body(h, MeasureStmt(b, q));
    assert Ordinary(s) by { MeasureIsOrdinary(h, b, q); }
    MeasureMatches(b, q);
    OrdinaryStep(h, pi, n, ops, s);
  }

  lemma MeasureIsOrdinary(h: Numerals, b: nat, q: nat)
    ensures Ordinary(Body(h, MeasureStmt(b, q)))
  {
    assert Body(h, MeasureStmt(b, q))[0] == 'c';
  }
}
