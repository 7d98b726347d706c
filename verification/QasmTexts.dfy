/** Literal OpenQASM texts: what the reader makes of them. */
module QasmTexts {
  import opened Options
  import opened Text
  import opened Bits
  import opened Complex
  import opened Trigonometry
  import opened Circuits
  import opened Kernels
  import opened Gates
  import opened GateTable
  import opened QasmStatements
  import opened QasmPrinter
  import opened QasmParser
  import opened QasmLexing
  import opened QasmReading
  import opened QasmSteps

  // ----- one statement in any state of the reader

  /** The header has been read and `q` is declared with `n` qubits. */
  predicate Ready(st: State, n: nat) {
    st.hasHeader && st.qubit == Option.Some(Register("q", n))
  }

  /** The statement is read as this operation, which is appended. */
  predicate Reads(h: Numerals, pi: real, st: State, text: string, op: Operation) {
    Step(h, pi, st, text) == Success(st.(operations := st.operations + [op]))
  }

  lemma GateLine(h: Numerals, pi: real, st: State, s: string, op: Parsed<Operation>)
    requires Ordinary(s) && MatchMeasure(s) == Option.None && st.hasHeader && st.qubit.Some?
    requires ParseGate(h, pi, s, st.qubit.value, |st.operations| + 1) == op
    ensures op.Success? ==> Reads(h, pi, st, s, op.value)
    ensures op.Failure? ==> Step(h, pi, st, s) == Failure(op.code)
  {
    hide IsHeader, IsInclude, MatchDeclaration, MatchMeasure, ParseGate, ParseMeasure;
    NotHeader(s);
    NotInclude(s);
    NotDeclaration("qubit", s);
    NotDeclaration("bit", s);
  }

  lemma LowerTwice(s: string)
    ensures Lower(Lower(s)) == Lower(s)
  {
    LowerFixed(Lower(s));
  }

  lemma AnyCase(pi: real, name: string, params: seq<real>)
    ensures ResolveGate(pi, name, params) == ResolveGate(pi, Lower(name), params)
  {
    hide LookupGate;
    LowerTwice(name);
  }

  /** A word whose first letter begins no other kind of statement. */
  predicate GateWord(s: string) {
    s != "" && All(s, IsWord) && IsIdentStart(s[0]) && s[0] !in {'o', 'q', 'b'} && (s[0] == 'i' ==> |s| == 1)
  }

  lemma NameOfWord(name: string)
    requires GateWord(Lower(name))
    ensures name != "" && All(name, IsWord) && IsIdentStart(name[0])
  {
    forall c | c in name ensures IsWord(c) {
      var k :| 0 <= k < |name| && name[k] == c;
      assert Lower(name)[k] in Lower(name);
    }
  }

  lemma WordIsOrdinary(name: string, group: Option<string>, operands: string)
    requires GateWord(Lower(name))
    ensures Ordinary(GateForm(name, group, operands))
  {
    var rest := GroupText(group) + (" " + operands);
    var s := name + rest;
    assert s[0] == name[0] && Lower(name)[0] == LowerChar(name[0]);
    assert |name| == 1 ==> s[1] == rest[0] && rest[0] in {' ', '('};
  }

  lemma ReadsGate(h: Numerals, pi: real, st: State, n: nat, name: string, group: Option<string>, params: seq<real>,
                  g: GateName, all: seq<real>, operands: seq<nat>)
    requires Ready(st, n) && Within(operands, n) && GateWord(Lower(name))
    requires group.Some? ==> ')' !in group.value
    requires ParseParameters(h, group) == Success(params) && ResolveGate(pi, Lower(name), params) == Success((g, all))
    requires |all| == ParamCount(g) && |operands| == TargetCount(g) + ControlCount(g)
    ensures Reads(h, pi, st, GateForm(name, group, Join(Operands(operands), ", ")),
                  ToOperation(g, all, operands, |st.operations| + 1))
  {
    hide MatchGate, MatchMeasure, ParseParameters, ResolveGate, ParseOperands, Split, Join, Lower, ToOperation, Pieces,
      Tight, All, GateForm, Reads, Ordinary, GateWord, Within;
    var text := Join(Operands(operands), ", ");
    OperandList(operands, n);
    OperandsFit(text);
    NameOfWord(name);
    GateFormMatches(name, group, text);
    WordIsOrdinary(name, group, text);
    AnyCase(pi, name, params);
    GateLine(h, pi, st, GateForm(name, group, text), Success(ToOperation(g, all, operands, |st.operations| + 1)));
  }

  lemma PrintedWord(g: GateName)
    ensures GateWord(GateText(g))
  {
    hide GateText;
    NameShape(g);
    LettersIdentify(GateText(g));
  }

  // ----- numbers

  const NUMBER_CHARS := "0123456789piPI+-*/. "

  /** A parameter text that the host evaluates to `x`. */
  predicate Evaluates(h: Numerals, e: string, x: real) {
    Tight(e) && (forall c :: c in e ==> c in NUMBER_CHARS) && h.eval(e) == Value(x)
  }

  lemma NumberChars(c: char)
    requires c in NUMBER_CHARS
    ensures ExpressionChar(c) && c != ',' && c != ')'
  {
    var k :| 0 <= k < |NUMBER_CHARS| && NUMBER_CHARS[k] == c;
  }

  lemma NumberCharsOf(e: string)
    requires forall c :: c in e ==> c in NUMBER_CHARS
    ensures All(e, ExpressionChar) && ',' !in e && ')' !in e
  {
    forall c | c in e ensures ExpressionChar(c) && c != ',' && c != ')' { NumberChars(c); }
  }

  lemma EvaluatedText(h: Numerals, e: string, x: real)
    requires Evaluates(h, e, x)
    ensures ParseExpression(h, e) == Success(x) && ParseExpression(h, " " + e) == Success(x)
    ensures ',' !in e && ')' !in e && Trim(e) != ""
  {
    hide ExpressionChar, Trim, IsSpace;
    NumberCharsOf(e);
    TrimTight(e);
  }

  lemma OneItem(h: Numerals, e: string, x: real)
    requires ParseExpression(h, e) == Success(x)
    ensures ParseExpressions(h, [e]) == Success([x])
  {
    hide ParseExpression;
    assert [e][1..] == [] && [x] + [] == [x];
  }

  lemma NextItem(h: Numerals, e: string, x: real, items: seq<string>, xs: seq<real>)
    requires ParseExpression(h, e) == Success(x) && ParseExpressions(h, items) == Success(xs)
    ensures ParseExpressions(h, [e] + items) == Success([x] + xs)
  {
    hide ParseExpression;
    assert ([e] + items)[1..] == items;
  }

  lemma NoClose(e: string, f: string)
    requires ')' !in e && ')' !in f
    ensures ')' !in e + ", " + f
  {}

  lemma OneNumber(h: Numerals, e: string, x: real)
    requires Evaluates(h, e, x)
    ensures ParseParameters(h, Option.Some(e)) == Success([x]) && ')' !in e
  {
    hide ParseExpression, Trim, Evaluates;
    EvaluatedText(h, e, x);
    SplitFirst(e, "", ',');
    OneItem(h, e, x);
  }

  lemma TwoNumbers(h: Numerals, e: string, x: real, f: string, y: real)
    requires Evaluates(h, e, x) && Evaluates(h, f, y)
    ensures ParseParameters(h, Option.Some(e + ", " + f)) == Success([x, y]) && ')' !in e + ", " + f
  {
    hide ParseExpression, ParseExpressions, Trim, Evaluates, Split;
    EvaluatedText(h, e, x);
    EvaluatedText(h, f, y);
    Untrimmed(h, e, x, ", " + f);
    assert e + ", " + f == e + [','] + (" " + f) == e + (", " + f);
    SplitFirst(e, " " + f, ',');
    SplitFirst(" " + f, "", ',');
    OneItem(h, " " + f, y);
    NextItem(h, e, x, [" " + f], [y]);
    assert [x] + [y] == [x, y];
    NoClose(e, f);
  }

  lemma ThreeNumbers(h: Numerals, e: string, x: real, f: string, y: real, g: string, z: real)
    requires Evaluates(h, e, x) && Evaluates(h, f, y) && Evaluates(h, g, z)
    ensures ParseParameters(h, Option.Some(e + ", " + f + ", " + g)) == Success([x, y, z])
    ensures ')' !in e + ", " + f + ", " + g
  {
    hide ParseExpression, ParseExpressions, Trim, Evaluates, Split;
    EvaluatedText(h, e, x);
    EvaluatedText(h, f, y);
    EvaluatedText(h, g, z);
    Untrimmed(h, e, x, ", " + f + ", " + g);
    assert e + ", " + f + ", " + g == e + [','] + (" " + f + ", " + g) == e + (", " + f + ", " + g);
    SplitFirst(e, " " + f + ", " + g, ',');
    assert " " + f + ", " + g == (" " + f) + [','] + (" " + g);
    SplitFirst(" " + f, " " + g, ',');
    SplitFirst(" " + g, "", ',');
    OneItem(h, " " + g, z);
    NextItem(h, " " + f, y, [" " + g], [z]);
    NextItem(h, e, x, [" " + f] + [" " + g], [y] + [z]);
    assert [e] + ([" " + f] + [" " + g]) == [e] + ([" " + f] + Split(" " + g, ','));
    assert [x] + ([y] + [z]) == [x, y, z];
    NoClose(e, f);
    NoClose(e + ", " + f, g);
  }

  /** A text that begins with a number is not blank. */
  lemma Untrimmed(h: Numerals, e: string, x: real, rest: string)
    requires Evaluates(h, e, x)
    ensures Trim(e + rest) != ""
  {
    var s := e + rest;
    assert s[0] == e[0];
    assert TrimStart(s) == s by { assert CountWhile(s, IsSpace) == 0; }
    KeepsHead(s);
  }

  lemma {:induction false} KeepsHead(s: string)
    requires s != "" && !IsSpace(s[0])
    ensures TrimEnd(s) != ""
  {
    if IsSpace(s[|s| - 1]) {
      KeepsHead(s[..|s| - 1]);
    }
  }

  // ----- gates without parameters

  lemma BareGate(h: Numerals, pi: real, st: State, n: nat, name: string, g: GateName, operands: seq<nat>)
    requires Ready(st, n) && Within(operands, n) && GateWord(Lower(name))
    requires ResolveGate(pi, Lower(name), []) == Success((g, []))
    requires ParamCount(g) == 0 && |operands| == TargetCount(g) + ControlCount(g)
    ensures Reads(h, pi, st, name + (" " + Join(Operands(operands), ", ")),
                  ToOperation(g, [], operands, |st.operations| + 1))
  {
    hide Lower, GateWord, ResolveGate, Reads, ToOperation, Join, Within, ParseParameters, GateForm;
    NoParameters(h);
    ReadsGate(h, pi, st, n, name, Option.None, [], g, [], operands);
    BareForm(name, Join(Operands(operands), ", "));
  }

  lemma NoParameters(h: Numerals)
    ensures ParseParameters(h, Option.None) == Success([])
  {}

  lemma BareForm(name: string, text: string)
    ensures GateForm(name, Option.None, text) == name + (" " + text)
  {}

  lemma PrintedGate(pi: real, g: GateName, params: seq<real>)
    requires HasStatement(g)
    ensures GateWord(GateText(g)) && ResolveGate(pi, GateText(g), params) == Success((g, params))
  {
    hide GateText, ResolveGate, GateWord;
    PrintedWord(g);
    Resolves(pi, g, params);
  }

  lemma JoinSome(x: string, y: string, z: string, d: string)
    ensures Join([x], d) == x && Join([x, y], d) == x + d + y && Join([x, y, z], d) == x + d + y + d + z
  {
    assert [x, y][1..] == [y] && [x, y, z][1..] == [y, z] && [y, z][1..] == [z];
    assert Join([z], d) == z && Join([y], d) == y && Join([y, z], d) == y + d + z;
    assert x + d + (y + d + z) == x + d + y + d + z;
  }

  lemma OperandsAre(a: nat, b: nat, c: nat)
    ensures Operands([a]) == [Indexed("q", a)] && Operands([a, b]) == [Indexed("q", a), Indexed("q", b)]
    ensures Operands([a, b, c]) == [Indexed("q", a), Indexed("q", b), Indexed("q", c)]
  {
    hide Indexed;
  }

  /** How operand lists are written. */
  lemma OperandTexts(a: nat, b: nat, c: nat)
    ensures Join(Operands([a]), ", ") == "q[" + NatText(a) + "]"
    ensures Join(Operands([a, b]), ", ") == "q[" + NatText(a) + "], q[" + NatText(b) + "]"
    ensures Join(Operands([a, b, c]), ", ") == "q[" + NatText(a) + "], q[" + NatText(b) + "], q[" + NatText(c) + "]"
  {
    hide NatText, Join, Operands;
    OperandsAre(a, b, c);
    var x, y, z := "q[" + NatText(a) + "]", "q[" + NatText(b) + "]", "q[" + NatText(c) + "]";
    JoinSome(x, y, z, ", ");
    assert Indexed("q", a) == x && Indexed("q", b) == y && Indexed("q", c) == z;
    assert x + ", " + y == "q[" + NatText(a) + "], q[" + NatText(b) + "]";
    assert "q[" + NatText(a) + "], q[" + NatText(b) + "]" + ", " + z ==
           "q[" + NatText(a) + "], q[" + NatText(b) + "], q[" + NatText(c) + "]";
  }

  /** The space before the operands. */
  lemma Spacing(name: string, a: string, b: string, c: string)
    ensures name + (" " + ("q[" + a + "]")) == name + " q[" + a + "]"
    ensures name + (" " + ("q[" + a + "], q[" + b + "]")) == name + " q[" + a + "], q[" + b + "]"
    ensures name + (" " + ("q[" + a + "], q[" + b + "], q[" + c + "]")) ==
            name + " q[" + a + "], q[" + b + "], q[" + c + "]"
  {}

  lemma OneBare(h: Numerals, pi: real, st: State, n: nat, name: string, g: GateName, a: nat)
    requires Ready(st, n) && a < n && Lower(name) == GateText(g)
    requires g in {I, X, Y, Z, H, SX, S, SDG, T, TDG}
    ensures Reads(h, pi, st, name + " q[" + NatText(a) + "]",
                  Operation("op-" + NatText(|st.operations| + 1), g, [a], [], [], |st.operations|))
  {
    hide Lower, GateWord, ResolveGate, Reads, Join, GateText, NatText;
    PrintedGate(pi, g, []);
    BareGate(h, pi, st, n, name, g, [a]);
    OperandTexts(a, a, a);
    Spacing(name, NatText(a), NatText(a), NatText(a));
  }

  /** The gates on one qubit that take no parameter, in any mixture of upper and lower case. */
  lemma ReadsOneQubit(h: Numerals, pi: real, st: State, n: nat, name: string, a: nat)
    requires Ready(st, n) && a < n
    ensures var s, id, l := name + " q[" + NatText(a) + "]", "op-" + NatText(|st.operations| + 1), |st.operations|;
      && (Lower(name) == "i" ==> Reads(h, pi, st, s, Operation(id, I, [a], [], [], l)))
      && (Lower(name) == "x" ==> Reads(h, pi, st, s, Operation(id, X, [a], [], [], l)))
      && (Lower(name) == "y" ==> Reads(h, pi, st, s, Operation(id, Y, [a], [], [], l)))
      && (Lower(name) == "z" ==> Reads(h, pi, st, s, Operation(id, Z, [a], [], [], l)))
      && (Lower(name) == "h" ==> Reads(h, pi, st, s, Operation(id, H, [a], [], [], l)))
      && (Lower(name) == "sx" ==> Reads(h, pi, st, s, Operation(id, SX, [a], [], [], l)))
      && (Lower(name) == "s" ==> Reads(h, pi, st, s, Operation(id, S, [a], [], [], l)))
      && (Lower(name) == "sdg" ==> Reads(h, pi, st, s, Operation(id, SDG, [a], [], [], l)))
      && (Lower(name) == "t" ==> Reads(h, pi, st, s, Operation(id, T, [a], [], [], l)))
      && (Lower(name) == "tdg" ==> Reads(h, pi, st, s, Operation(id, TDG, [a], [], [], l)))
  {
    hide Lower, Reads, NatText;
    forall g | g in {I, X, Y, Z, H, SX, S, SDG, T, TDG} && Lower(name) == GateText(g)
      ensures Reads(h, pi, st, name + " q[" + NatText(a) + "]",
                    Operation("op-" + NatText(|st.operations| + 1), g, [a], [], [], |st.operations|))
    {
      OneBare(h, pi, st, n, name, g, a);
    }
    assert GateText(I) == "i" && GateText(X) == "x" && GateText(Y) == "y" && GateText(Z) == "z" && GateText(H) == "h";
    assert GateText(SX) == "sx" && GateText(S) == "s" && GateText(SDG) == "sdg" && GateText(T) == "t";
    assert GateText(TDG) == "tdg";
  }

  lemma TwoBare(h: Numerals, pi: real, st: State, n: nat, name: string, g: GateName, a: nat, b: nat)
    requires Ready(st, n) && a < n && b < n && g in {CX, CY, CH, CZ, SWAP}
    requires GateWord(Lower(name)) && ResolveGate(pi, Lower(name), []) == Success((g, []))
    ensures Reads(h, pi, st, name + " q[" + NatText(a) + "], q[" + NatText(b) + "]",
                  Operation("op-" + NatText(|st.operations| + 1), g, if g == SWAP then [a, b] else [b],
                            if g == SWAP then [] else [a], [], |st.operations|))
  {
    hide Lower, GateWord, ResolveGate, Reads, Join, NatText;
    BareGate(h, pi, st, n, name, g, [a, b]);
    OperandTexts(a, b, a);
    assert [a, b][1..] == [b] && [a, b][..1] == [a];
    Spacing(name, NatText(a), NatText(b), NatText(a));
  }

  lemma CnotResolves(pi: real)
    ensures GateWord("cnot") && ResolveGate(pi, "cnot", []) == Success((CX, []))
  {
    LowerFixed("cnot");
  }

  /** The gates on two qubits that take no parameter; the first operand of a controlled gate is its control. */
  lemma ReadsTwoQubits(h: Numerals, pi: real, st: State, n: nat, name: string, a: nat, b: nat)
    requires Ready(st, n) && a < n && b < n
    ensures var id, l := "op-" + NatText(|st.operations| + 1), |st.operations|;
      var s := name + " q[" + NatText(a) + "], q[" + NatText(b) + "]";
      && (Lower(name) == "cx" ==> Reads(h, pi, st, s, Operation(id, CX, [b], [a], [], l)))
      && (Lower(name) == "cnot" ==> Reads(h, pi, st, s, Operation(id, CX, [b], [a], [], l)))
      && (Lower(name) == "cy" ==> Reads(h, pi, st, s, Operation(id, CY, [b], [a], [], l)))
      && (Lower(name) == "ch" ==> Reads(h, pi, st, s, Operation(id, CH, [b], [a], [], l)))
      && (Lower(name) == "cz" ==> Reads(h, pi, st, s, Operation(id, CZ, [b], [a], [], l)))
      && (Lower(name) == "swap" ==> Reads(h, pi, st, s, Operation(id, SWAP, [a, b], [], [], l)))
  {
    hide Lower, Reads, NatText, ResolveGate, GateWord;
    forall g | g in {CX, CY, CH, CZ, SWAP} && Lower(name) == GateText(g)
      ensures Reads(h, pi, st, name + " q[" + NatText(a) + "], q[" + NatText(b) + "]",
                    Operation("op-" + NatText(|st.operations| + 1), g, if g == SWAP then [a, b] else [b],
                              if g == SWAP then [] else [a], [], |st.operations|))
    {
      PrintedGate(pi, g, []);
      TwoBare(h, pi, st, n, name, g, a, b);
    }
    assert GateText(CX) == "cx" && GateText(CY) == "cy" && GateText(CH) == "ch" && GateText(CZ) == "cz";
    assert GateText(SWAP) == "swap";
    if Lower(name) == "cnot" {
      CnotResolves(pi);
      TwoBare(h, pi, st, n, name, CX, a, b);
    }
  }

  lemma ThreeBare(h: Numerals, pi: real, st: State, n: nat, name: string, g: GateName, a: nat, b: nat, c: nat)
    requires Ready(st, n) && a < n && b < n && c < n && g in {CCX, CSWAP} && Lower(name) == GateText(g)
    ensures Reads(h, pi, st, name + " q[" + NatText(a) + "], q[" + NatText(b) + "], q[" + NatText(c) + "]",
                  ToOperation(g, [], [a, b, c], |st.operations| + 1))
  {
    hide Lower, Reads, NatText, ResolveGate, GateWord, Join, ToOperation, GateText;
    OperandTexts(a, b, c);
    Spacing(name, NatText(a), NatText(b), NatText(c));
    PrintedGate(pi, g, []);
    BareGate(h, pi, st, n, name, g, [a, b, c]);
  }

  /** ccx and cswap. */
  lemma ReadsThreeQubits(h: Numerals, pi: real, st: State, n: nat, name: string, a: nat, b: nat, c: nat)
    requires Ready(st, n) && a < n && b < n && c < n
    ensures var id, l := "op-" + NatText(|st.operations| + 1), |st.operations|;
      var s := name + " q[" + NatText(a) + "], q[" + NatText(b) + "], q[" + NatText(c) + "]";
      && (Lower(name) == "ccx" ==> Reads(h, pi, st, s, Operation(id, CCX, [c], [a, b], [], l)))
      && (Lower(name) == "cswap" ==> Reads(h, pi, st, s, Operation(id, CSWAP, [b, c], [a], [], l)))
  {
    hide Lower, Reads, NatText;
    assert GateText(CCX) == "ccx" && GateText(CSWAP) == "cswap";
    assert [a, b, c][2..] == [c] && [a, b, c][..2] == [a, b] && [a, b, c][1..] == [b, c] && [a, b, c][..1] == [a];
    if Lower(name) == "ccx" {
      ThreeBare(h, pi, st, n, name, CCX, a, b, c);
    } else if Lower(name) == "cswap" {
      ThreeBare(h, pi, st, n, name, CSWAP, a, b, c);
    }
  }

  // ----- gates with parameters

  lemma AngleGate(h: Numerals, pi: real, st: State, n: nat, name: string, group: string, params: seq<real>, g: GateName,
                  all: seq<real>, operands: seq<nat>)
    requires Ready(st, n) && Within(operands, n) && GateWord(Lower(name)) && ')' !in group
    requires ParseParameters(h, Option.Some(group)) == Success(params)
    requires ResolveGate(pi, Lower(name), params) == Success((g, all))
    requires |all| == ParamCount(g) && |operands| == TargetCount(g) + ControlCount(g)
    ensures Reads(h, pi, st, name + "(" + group + ") " + Join(Operands(operands), ", "),
                  ToOperation(g, all, operands, |st.operations| + 1))
  {
    hide Lower, GateWord, ResolveGate, Reads, ToOperation, Join, Within, ParseParameters, GateForm;
    ReadsGate(h, pi, st, n, name, Option.Some(group), params, g, all, operands);
    GroupForm(name, group, Join(Operands(operands), ", "));
  }

  lemma GroupForm(name: string, group: string, text: string)
    ensures GateForm(name, Option.Some(group), text) == name + "(" + group + ") " + text
  {}

  /** The space between the parameters and the operands. */
  lemma GroupSpacing(head: string, a: string, b: string)
    ensures head + ") " + ("q[" + a + "]") == head + ") q[" + a + "]"
    ensures head + ") " + ("q[" + a + "], q[" + b + "]") == head + ") q[" + a + "], q[" + b + "]"
  {}

  /** A gate without parameters may be written with parentheses that hold nothing but spaces. */
  lemma ReadsEmptyGroup(h: Numerals, pi: real, st: State, n: nat, name: string, g: GateName, blank: string, a: nat)
    requires Ready(st, n) && a < n && All(blank, IsSpace)
    requires g in {I, X, Y, Z, H, SX, S, SDG, T, TDG} && Lower(name) == GateText(g)
    ensures Reads(h, pi, st, name + "(" + blank + ") q[" + NatText(a) + "]",
                  Operation("op-" + NatText(|st.operations| + 1), g, [a], [], [], |st.operations|))
  {
    hide Lower, GateWord, ResolveGate, Reads, NatText, IsSpace, Trim, GateText;
    PrintedGate(pi, g, []);
    TrimAllSpaces(blank);
    assert ')' !in blank by { SpacesHaveNoClose(blank); }
    OneAngle(h, pi, st, n, name, blank, [], g, [], a);
  }

  lemma SpacesHaveNoClose(s: string)
    requires All(s, IsSpace)
    ensures ')' !in s
  {}

  /** A gate on one qubit with these parameters, written in this group. */
  lemma OneAngle(h: Numerals, pi: real, st: State, n: nat, name: string, group: string, params: seq<real>, g: GateName,
                 all: seq<real>, a: nat)
    requires Ready(st, n) && a < n && GateWord(Lower(name)) && ')' !in group
    requires ParseParameters(h, Option.Some(group)) == Success(params)
    requires ResolveGate(pi, Lower(name), params) == Success((g, all))
    requires |all| == ParamCount(g) && TargetCount(g) == 1 && ControlCount(g) == 0
    ensures Reads(h, pi, st, name + "(" + group + ") q[" + NatText(a) + "]",
                  Operation("op-" + NatText(|st.operations| + 1), g, [a], [], all, |st.operations|))
  {
    hide Lower, GateWord, ResolveGate, Reads, Join, ParseParameters, NatText;
    AngleGate(h, pi, st, n, name, group, params, g, all, [a]);
    OperandTexts(a, a, a);
    GroupSpacing(name + "(" + group, NatText(a), NatText(a));
  }

  /** rx, ry, rz, p and u1; u1 is u with two leading zeros. */
  lemma ReadsAngle(h: Numerals, pi: real, st: State, n: nat, name: string, e: string, x: real, a: nat)
    requires Ready(st, n) && a < n && Evaluates(h, e, x)
    ensures var id, l := "op-" + NatText(|st.operations| + 1), |st.operations|;
      var s := name + "(" + e + ") q[" + NatText(a) + "]";
      && (Lower(name) == "rx" ==> Reads(h, pi, st, s, Operation(id, RX, [a], [], [x], l)))
      && (Lower(name) == "ry" ==> Reads(h, pi, st, s, Operation(id, RY, [a], [], [x], l)))
      && (Lower(name) == "rz" ==> Reads(h, pi, st, s, Operation(id, RZ, [a], [], [x], l)))
      && (Lower(name) == "p" ==> Reads(h, pi, st, s, Operation(id, P, [a], [], [x], l)))
      && (Lower(name) == "u1" ==> Reads(h, pi, st, s, Operation(id, U, [a], [], [0.0, 0.0, x], l)))
  {
    hide Lower, Reads, NatText, ResolveGate, GateWord, Evaluates, ParseParameters;
    OneNumber(h, e, x);
    forall g | g in {RX, RY, RZ, P} && Lower(name) == GateText(g)
      ensures Reads(h, pi, st, name + "(" + e + ") q[" + NatText(a) + "]",
                    Operation("op-" + NatText(|st.operations| + 1), g, [a], [], [x], |st.operations|))
    {
      PrintedGate(pi, g, [x]);
      OneAngle(h, pi, st, n, name, e, [x], g, [x], a);
    }
    assert GateText(RX) == "rx" && GateText(RY) == "ry" && GateText(RZ) == "rz" && GateText(P) == "p";
    if Lower(name) == "u1" {
      UResolves(pi, [x], [x], [x]);
      assert [0.0, 0.0] + [x] == [0.0, 0.0, x];
      OneAngle(h, pi, st, n, name, e, [x], U, [0.0, 0.0, x], a);
    }
  }

  lemma UResolves(pi: real, x: seq<real>, y: seq<real>, z: seq<real>)
    ensures GateWord("u1") && ResolveGate(pi, "u1", x) == Success((U, [0.0, 0.0] + x))
    ensures GateWord("u2") && ResolveGate(pi, "u2", y) == Success((U, [pi / 2.0] + y))
    ensures GateWord("u3") && ResolveGate(pi, "u3", z) == Success((U, z))
  {
    hide LookupGate;
    LowerFixed("u1");
    LowerFixed("u2");
    LowerFixed("u3");
  }

  lemma GroupTexts(name: string, e: string, f: string, g: string)
    ensures name + "(" + (e + ", " + f) == name + "(" + e + ", " + f
    ensures name + "(" + (e + ", " + f + ", " + g) == name + "(" + e + ", " + f + ", " + g
  {}

  /** u2 is u with a leading quarter turn; u3 is u. */
  lemma ReadsU(h: Numerals, pi: real, st: State, n: nat, name: string, e: string, x: real, f: string, y: real,
               g: string, z: real, a: nat)
    requires Ready(st, n) && a < n && Evaluates(h, e, x) && Evaluates(h, f, y) && Evaluates(h, g, z)
    ensures var id, l := "op-" + NatText(|st.operations| + 1), |st.operations|;
      var two := name + "(" + e + ", " + f + ") q[" + NatText(a) + "]";
      var three := name + "(" + e + ", " + f + ", " + g + ") q[" + NatText(a) + "]";
      && (Lower(name) == "u2" ==> Reads(h, pi, st, two, Operation(id, U, [a], [], [pi / 2.0, x, y], l)))
      && (Lower(name) == "u3" ==> Reads(h, pi, st, three, Operation(id, U, [a], [], [x, y, z], l)))
      && (Lower(name) == "u" ==> Reads(h, pi, st, three, Operation(id, U, [a], [], [x, y, z], l)))
  {
    hide Lower, Reads, NatText, ResolveGate, GateWord, Evaluates, ParseParameters;
    UResolves(pi, [], [x, y], [x, y, z]);
    if Lower(name) == "u2" {
      TwoNumbers(h, e, x, f, y);
      assert [pi / 2.0] + [x, y] == [pi / 2.0, x, y];
      OneAngle(h, pi, st, n, name, e + ", " + f, [x, y], U, [pi / 2.0, x, y], a);
      GroupTexts(name, e, f, g);
    }
    if Lower(name) == "u3" || Lower(name) == "u" {
      assert GateText(U) == "u";
      PrintedGate(pi, U, [x, y, z]);
      ThreeNumbers(h, e, x, f, y, g, z);
      OneAngle(h, pi, st, n, name, e + ", " + f + ", " + g, [x, y, z], U, [x, y, z], a);
      GroupTexts(name, e, f, g);
    }
  }

  /** cp. */
  lemma ReadsControlledAngle(h: Numerals, pi: real, st: State, n: nat, name: string, e: string, x: real, a: nat, b: nat)
    requires Ready(st, n) && a < n && b < n && Evaluates(h, e, x) && Lower(name) == "cp"
    ensures Reads(h, pi, st, name + "(" + e + ") q[" + NatText(a) + "], q[" + NatText(b) + "]",
                  Operation("op-" + NatText(|st.operations| + 1), CP, [b], [a], [x], |st.operations|))
  {
    hide Lower, Reads, NatText, ResolveGate, GateWord, Evaluates, ParseParameters, Join;
    OneNumber(h, e, x);
    assert GateText(CP) == "cp";
    PrintedGate(pi, CP, [x]);
    AngleGate(h, pi, st, n, name, e, [x], CP, [x], [a, b]);
    OperandTexts(a, b, a);
    assert [a, b][1..] == [b] && [a, b][..1] == [a];
    GroupSpacing(name + "(" + e, NatText(a), NatText(b));
  }

  // ----- what the aliases do to a state

  /** `cnot q[a], q[b]` flips qubit `b` where qubit `a` is set: the controlled x. */
  lemma CnotActs(t: Trig, h: Numerals, st: State, n: nat, name: string, a: nat, b: nat, v: Vec, i: nat)
    requires Ready(st, n) && a < n && b < n && a != b && Lower(name) == "cnot" && i < |v| == Pow2(n)
    ensures var f := if i / Pow2(b) % 2 == 1 then i - Pow2(b) else i + Pow2(b); 0 <= f < |v|
    ensures var f := if i / Pow2(b) % 2 == 1 then i - Pow2(b) else i + Pow2(b);
      var r := Step(h, t.pi, st, name + " q[" + NatText(a) + "], q[" + NatText(b) + "]");
      && r.Success? && |r.value.operations| == |st.operations| + 1
      && Denote(t, r.value.operations[|st.operations|], v)[i] == if i / Pow2(a) % 2 == 1 then v[f] else v[i]
  {
    hide Step, Denote, NatText, Lower, Pow2;
    FlipIndex(n, i, b);
    ReadsTwoQubits(h, t.pi, st, n, name, a, b);
    var op := Operation("op-" + NatText(|st.operations| + 1), CX, [b], [a], [], |st.operations|);
    SameEffect(t, op, v);
    ControlledPauliTable(t, v, a, b, i);
    if i / Pow2(b) % 2 == 1 {
      PauliTable(t, v, n, i - Pow2(b), b);
    } else {
      PauliTable(t, v, n, i, b);
    }
  }

  lemma FlipIndex(n: nat, i: nat, q: nat)
    requires q < n && i < Pow2(n)
    ensures i / Pow2(q) % 2 == 1 ==> i >= Pow2(q) && (i - Pow2(q)) / Pow2(q) % 2 == 0
    ensures i / Pow2(q) % 2 != 1 ==> i / Pow2(q) % 2 == 0 && i + Pow2(q) < Pow2(n)
  {
    hide Pow2, Bit, Set;
    BitIs(i, q);
    if i / Pow2(q) % 2 == 1 {
      var j := Set(i, q, false);
      SetIs(j, q);
      SetSet(i, q, false, true);
      assert i == Set(i, q, Bit(i, q));
      BitIs(j, q);
    } else {
      PairIndex(n, i, q);
    }
  }

  /** The name and the layer of an operation do not matter for its effect. */
  lemma SameEffect(t: Trig, op: Operation, v: Vec)
    ensures Denote(t, op, v) == Denote(t, op.(id := "", layer := 0), v)
  {
    hide Apply, MatrixForGate, MatrixForTwoQubitGate, HRows, PhaseRows, Cis;
  }

  lemma UOneRows(t: Trig, x: real)
    requires Exact(t)
    ensures MatrixForGate(t, U, [0.0, 0.0, x]) == MatrixForGate(t, P, [x])
  {
    hide Exact, MatrixForGate;
    assert t.cos(0.0 / 2.0) == 1.0 && t.sin(0.0 / 2.0) == 0.0 by { CosOfZero(t); }
    assert 0.0 + x == x && -t.cos(x) * 0.0 == 0.0 && -t.sin(x) * 0.0 == 0.0;
    URowsAt(t, 0.0, 0.0, x, ONE, ZERO, ZERO, C(t.cos(x), t.sin(x)));
    PRows(t, x);
  }

  lemma CosOfZero(t: Trig)
    requires Exact(t)
    ensures t.cos(0.0) == 1.0 && t.sin(0.0) == 0.0
  {}

  /** `u1(e) q[a]` does to every state what `p(e) q[a]` does. */
  lemma UOneActsAsP(t: Trig, h: Numerals, st: State, n: nat, one: string, p: string, e: string, x: real, a: nat, v: Vec)
    requires Exact(t) && Ready(st, n) && a < n && Lower(one) == "u1" && Lower(p) == "p" && Evaluates(h, e, x)
    ensures var r, s := Step(h, t.pi, st, one + "(" + e + ") q[" + NatText(a) + "]"),
        Step(h, t.pi, st, p + "(" + e + ") q[" + NatText(a) + "]");
      && r.Success? && s.Success? && |r.value.operations| == |s.value.operations| == |st.operations| + 1
      && Denote(t, r.value.operations[|st.operations|], v) == Denote(t, s.value.operations[|st.operations|], v)
  {
    hide Step, Denote, NatText, Lower, Exact, Evaluates, MatrixForGate, KernelOf;
    ReadsAngle(h, t.pi, st, n, one, e, x, a);
    ReadsAngle(h, t.pi, st, n, p, e, x, a);
    var id, l := "op-" + NatText(|st.operations| + 1), |st.operations|;
    SameEffect(t, Operation(id, U, [a], [], [0.0, 0.0, x], l), v);
    SameEffect(t, Operation(id, P, [a], [], [x], l), v);
    UOneRows(t, x);
    SingleKernel(t, U, [0.0, 0.0, x], a);
    SingleKernel(t, P, [x], a);
    SameKernel(t, Operation("", U, [a], [], [0.0, 0.0, x], 0), Operation("", P, [a], [], [x], 0), v);
  }

  lemma SameKernel(t: Trig, a: Operation, b: Operation, v: Vec)
    requires a.gate != M && b.gate != M && KernelOf(t, a) == KernelOf(t, b)
    ensures Denote(t, a, v) == Denote(t, b, v)
  {
    hide KernelOf, Apply;
  }

  // ----- what the printer writes

  lemma BareText(h: Numerals, g: GateName, operands: seq<nat>)
    ensures Body(h, GateStmt(g, [], operands)) == GateText(g) + (" " + Join(Operands(operands), ", "))
  {
    hide Join, GateText;
    var name, text := GateText(g), Join(Operands(operands), ", ");
    assert name + "" + " " + text == name + (" " + text);
  }

  /** Gates on one qubit without parameters. */
  lemma WritesOneQubit(h: Numerals, g: GateName, name: string, a: nat)
    requires (g, name) in {(I, "i"), (X, "x"), (Y, "y"), (Z, "z"), (H, "h"), (SX, "sx"), (S, "s"), (SDG, "sdg"),
                           (T, "t"), (TDG, "tdg")}
    ensures Body(h, GateStmt(g, [], [a])) == name + " q[" + NatText(a) + "]"
  {
    hide Join, NatText, Operands, Body;
    assert GateText(g) == name;
    BareText(h, g, [a]);
    OperandTexts(a, a, a);
    Spacing(name, NatText(a), NatText(a), NatText(a));
  }

  /** Gates on two qubits without parameters. */
  lemma WritesTwoQubits(h: Numerals, g: GateName, name: string, a: nat, b: nat)
    requires (g, name) in {(CX, "cx"), (CY, "cy"), (CH, "ch"), (CZ, "cz"), (SWAP, "swap")}
    ensures Body(h, GateStmt(g, [], [a, b])) == name + " q[" + NatText(a) + "], q[" + NatText(b) + "]"
  {
    hide Join, NatText, Operands, Body;
    assert GateText(g) == name;
    BareText(h, g, [a, b]);
    OperandTexts(a, b, a);
    Spacing(name, NatText(a), NatText(b), NatText(a));
  }

  /** ccx and cswap. */
  lemma WritesThreeQubits(h: Numerals, g: GateName, name: string, a: nat, b: nat, c: nat)
    requires (g, name) in {(CCX, "ccx"), (CSWAP, "cswap")}
    ensures Body(h, GateStmt(g, [], [a, b, c])) == 
            name + " q[" + NatText(a) + "], q[" + NatText(b) + "], q[" + NatText(c) + "]"
  {
    hide Join, NatText, Operands, Body;
    assert GateText(g) == name;
    BareText(h, g, [a, b, c]);
    OperandTexts(a, b, c);
    Spacing(name, NatText(a), NatText(b), NatText(c));
  }

  /** A measurement. */
  lemma WritesMeasure(h: Numerals, a: nat, b: nat)
    ensures Body(h, MeasureStmt(b, a)) == "c[" + NatText(b) + "] = measure q[" + NatText(a) + "]"
  {
    hide NatText;
    MeasureText(NatText(b), NatText(a));
  }

  lemma MeasureText(b: string, a: string)
    ensures "c" + "[" + b + "]" + " = measure " + ("q" + "[" + a + "]") == "c[" + b + "] = measure q[" + a + "]"
  {}

  lemma AngleText(h: Numerals, g: GateName, params: seq<real>, group: string, operands: seq<nat>)
    requires params != [] && Join(Formatted(h, params), ", ") == group
    ensures Body(h, GateStmt(g, params, operands)) ==
            GateText(g) + "(" + group + ") " + Join(Operands(operands), ", ")
  {
    hide Join, GateText;
    var name, text := GateText(g), Join(Operands(operands), ", ");
    assert name + ("(" + group + ")") + " " + text == name + "(" + group + ") " + text;
  }

  lemma FormattedAre(h: Numerals, x: real, y: real, z: real)
    ensures Formatted(h, [x]) == [h.format(x)]
    ensures Formatted(h, [x, y, z]) == [h.format(x), h.format(y), h.format(z)]
  {}

  /** Gates on one qubit with one parameter. */
  lemma WritesAngle(h: Numerals, g: GateName, name: string, x: real, a: nat)
    requires (g, name) in {(RX, "rx"), (RY, "ry"), (RZ, "rz"), (P, "p")}
    ensures Body(h, GateStmt(g, [x], [a])) == name + "(" + h.format(x) + ") q[" + NatText(a) + "]"
  {
    hide Join, NatText, Operands, Formatted, Body;
    assert GateText(g) == name;
    OperandTexts(a, a, a);
    FormattedAre(h, x, x, x);
    JoinSome(h.format(x), "", "", ", ");
    AngleText(h, g, [x], h.format(x), [a]);
    GroupSpacing(name + "(" + h.format(x), NatText(a), NatText(a));
  }

  /** cp and u. */
  lemma WritesAngles(h: Numerals, x: real, y: real, z: real, a: nat, b: nat)
    ensures Body(h, GateStmt(CP, [x], [a, b])) == "cp(" + h.format(x) + ") q[" + NatText(a) + "], q[" + NatText(b) + "]"
    ensures Body(h, GateStmt(U, [x, y, z], [a])) ==
            "u(" + h.format(x) + ", " + h.format(y) + ", " + h.format(z) + ") q[" + NatText(a) + "]"
  {
    hide Join, NatText, Operands, Formatted, Body;
    OperandTexts(a, b, a);
    FormattedAre(h, x, y, z);
    JoinSome(h.format(x), h.format(y), h.format(z), ", ");
    assert GateText(CP) == "cp" && GateText(U) == "u" && "cp" + "(" == "cp(" && "u" + "(" == "u(";
    AngleText(h, CP, [x], h.format(x), [a, b]);
    GroupSpacing("cp(" + h.format(x), NatText(a), NatText(b));
    var group := h.format(x) + ", " + h.format(y) + ", " + h.format(z);
    AngleText(h, U, [x, y, z], group, [a]);
    GroupSpacing("u(" + group, NatText(a), NatText(b));
    GroupTexts("u", h.format(x), h.format(y), h.format(z));
  }

  /** Every statement ends with a semicolon and a line feed. */
  lemma WritesLines(n: nat, body: string, rest: seq<string>)
    ensures TextOf([body]) == body + ";\n"
    ensures rest != [] ==> TextOf([body] + rest) == body + ";\n" + TextOf(rest)
    ensures Preamble(n) ==
            ["OPENQASM 3", "include \"stdgates.inc\"", "qubit[" + NatText(n) + "] q", "bit[" + NatText(n) + "] c"]
  {
    hide NatText;
    var all := Terminated([body] + rest);
    assert all[0] == body + ";" && all[1..] == Terminated(rest);
    assert Terminated([body]) == [body + ";"] && Join([body + ";"], "\n") == body + ";";
    assert body + ";" + "\n" == body + ";\n";
    if rest != [] {
      assert Join(all, "\n") == body + ";" + "\n" + Join(Terminated(rest), "\n");
      assert body + ";" + "\n" + Join(Terminated(rest), "\n") + "\n" == body + ";\n" + TextOf(rest);
    }
  }

  /** A measurement is printed into the bit of its own qubit; an operation that lacks operands is not printed. */
  lemma WritesOperation(pi: real, op: Operation)
    ensures SerializeOperation(pi, op).Throws? <==>
      || |op.targets| != (if op.gate in {SWAP, CSWAP, RXX, RYY, RZZ, RZX} then 2 else 1)
      || (op.gate in {CX, CY, CH, CP, CZ, CSWAP} && |op.controls| != 1)
      || (op.gate in {CCX, CCZ} && |op.controls| != 2)
      || (op.gate in {RX, RY, RZ, P, CP, RXX, RYY, RZZ, RZX} && |op.params| != 1) || (op.gate == U && |op.params| != 3)
    ensures op.gate == M && |op.targets| == 1 ==>
      SerializeOperation(pi, op) == Lines([MeasureStmt(op.targets[0], op.targets[0])])
  {}
}
