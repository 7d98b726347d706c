/** Which statements the reader rejects, and with which error. */
module QasmErrors {
  import opened Options
  import opened Text
  import opened Bits
  import opened Circuits
  import opened CircuitValidation
  import opened QasmStatements
  import opened QasmPrinter
  import opened QasmParser
  import opened QasmLexing
  import opened QasmReading
  import opened QasmSteps
  import opened QasmTexts
  import opened QasmRoundTrip

  /** A name the grammar accepts. */
  predicate Name(s: string) {
    s != "" && IsIdentStart(s[0]) && All(s, IsWord)
  }

  // ----- declarations

  lemma WordHead(c: char)
    requires IsWord(c)
    ensures !IsSpace(c) && c != '[' && c != '='
  {}

  /** A declaration replaces the register, in every state; the header sets its flag, and the include does nothing. */
  lemma ReadsDeclarations(h: Numerals, pi: real, st: State, n: nat, name: string)
    requires Name(name)
    ensures Step(h, pi, st, "OPENQASM 3") == Success(st.(hasHeader := true))
    ensures Step(h, pi, st, "include \"stdgates.inc\"") == Success(st)
    ensures Step(h, pi, st, "qubit[" + NatText(n) + "] " + name) ==
            Success(st.(qubit := Option.Some(Register(name, n))))
    ensures Step(h, pi, st, "bit[" + NatText(n) + "] " + name) == Success(st.(bit := Option.Some(Register(name, n))))
  {
    hide IsHeader, IsInclude, MatchDeclaration, NatText, MatchMeasure, ParseMeasure, ParseGate, All;
    HeaderText();
    IncludeText();
    DeclarationText("qubit", n, name);
    DeclarationText("bit", n, name);
    var q, c := "qubit[" + NatText(n) + "] " + name, "bit[" + NatText(n) + "] " + name;
    assert q == "qubit" + ("[" + NatText(n) + "]" + (" " + name));
    assert c == "bit" + ("[" + NatText(n) + "]" + (" " + name));
    NotDeclaration("qubit", c);
    NotHeader(q);
    NotInclude(q);
    NotHeader(c);
    NotInclude(c);
  }

  /** Nothing else may come before the header and the qubit register. */
  lemma TooEarly(h: Numerals, pi: real, st: State, s: string)
    requires Ordinary(s) && (!st.hasHeader || st.qubit.None?)
    ensures Step(h, pi, st, s) == Failure(if !st.hasHeader then MissingHeader else MissingDeclaration)
  {
    hide IsHeader, IsInclude, MatchDeclaration, MatchMeasure, ParseGate, ParseMeasure;
    NotHeader(s);
    NotInclude(s);
    NotDeclaration("qubit", s);
    NotDeclaration("bit", s);
  }

  // ----- operands

  lemma IndexedText(r: string, i: nat)
    requires Name(r)
    ensures var s := Indexed(r, i);
      && Tight(s) && ',' !in s && All(s, NotLineBreak) && s != "" && !IsSpace(s[0])
      && MatchIndexed(s) == Option.Some((r, i, "")) && Trim(s) == s
  {
    hide MatchIndexed, Trim, IsSpace, NatText;
    var s := Indexed(r, i);
    assert s[0] == r[0] && s[|s| - 1] == ']';
    WordHead(r[0]);
    assert !IsSpace(']') by { MarksAreNoSpace(); }
    forall c | c in s ensures c != ',' && NotLineBreak(c) {
      assert c in r || c in NatText(i) || c == '[' || c == ']';
    }
    MatchIndexedText(r, i, "");
    assert s + "" == s;
    TrimTight(s);
  }

  /** An operand must name the declared register and lie inside it. */
  lemma OperandExactly(h: Numerals, pi: real, st: State, q: string, n: nat, r: string, i: nat)
    requires st.hasHeader && st.qubit == Option.Some(Register(q, n)) && Name(r)
    ensures Step(h, pi, st, "x " + r + "[" + NatText(i) + "]") ==
            if r == q && i < n
            then Success(st.(operations := st.operations
                             + [Operation("op-" + NatText(|st.operations| + 1), X, [i], [], [], |st.operations|)]))
            else Failure(InvalidOperand)
  {
    hide MatchGate, MatchMeasure, ResolveGate, NatText, Ordinary, GateForm, Step, Trim, MatchIndexed, All, IsSpace,
      Name, Tight, Lower;
    IndexedText(r, i);
    XWord();
    GateFormMatches("x", Option.None, Indexed(r, i));
    BareForm("x", Indexed(r, i));
    assert "x" + (" " + Indexed(r, i)) == "x " + r + "[" + NatText(i) + "]";
    assert Lower("x") == "x" by { LowerFixed("x"); }
    WordIsOrdinary("x", Option.None, Indexed(r, i));
    assert GateText(X) == "x";
    PrintedGate(pi, X, []);
    SplitFirst(Indexed(r, i), "", ',');
    OneOperandList(Indexed(r, i), Register(q, n));
    GateLine(h, pi, st, GateForm("x", Option.None, Indexed(r, i)),
             ParseGate(h, pi, GateForm("x", Option.None, Indexed(r, i)), Register(q, n), |st.operations| + 1));
  }

  lemma XWord()
    ensures Name("x") && IsIdentStart("x"[0]) && All("x", IsWord) && GateWord("x")
  {}

  lemma OneOperandList(s: string, qubit: Register)
    ensures ParseOperands([s], qubit) ==
      match ParseOperand(s, qubit)
      case Success(i) => Success([i])
      case Failure(code) => Failure(code)
  {
    hide ParseOperand;
    assert [s][1..] == [] && ParseOperands([], qubit) == Success([]);
    var first := ParseOperand(s, qubit);
    if first.Success? {
      assert [first.value] + [] == [first.value];
    }
  }

  // ----- measurements

  /** Words end where a bracket begins. */
  lemma FitsInWord(word: string, c: string, rest: string, like: string)
    requires All(word, IsLetter) && rest != "" && rest[0] == '[' && |like| == |word| <= |c + rest|
    requires forall k :: 0 <= k < |word| ==> LowerChar(like[k]) == word[k] && like[k] == (c + rest)[k]
    ensures |word| <= |c|
  {
    assert forall k :: 0 <= k < |word| ==> word[k] in word;
    assert (c + rest)[|c|] == '[';
  }

  lemma AfterWord(c: string, rest: string, m: nat)
    requires Name(c) && rest != "" && rest[0] == '[' && m <= |c|
    ensures var tail := (c + rest)[m..];
      tail != "" && !IsSpace(tail[0]) && (m < |c| ==> tail[0] != '[') && (m == |c| ==> tail == rest)
  {
    var tail := (c + rest)[m..];
    if m < |c| {
      assert tail[0] == c[m] && c[m] in c;
      WordHead(tail[0]);
    } else {
      assert tail == rest;
    }
  }

  lemma WordThenBracket(word: string, c: string, rest: string)
    requires Name(c) && All(word, IsLetter) && word != "" && rest != "" && rest[0] == '['
    ensures MatchWord(word, c + rest).Some? ==> MatchSpaces(MatchWord(word, c + rest).value) == Option.None
  {
    hide IsSpace, Name, All;
    var s := c + rest;
    if |s| >= |word| && Lower(s[..|word|]) == word {
      FitsInWord(word, c, rest, s[..|word|]);
      AfterWord(c, rest, |word|);
    }
  }

  lemma NoDeclaration(keyword: string, c: string, rest: string, i: nat, tail: string)
    requires Name(c) && All(keyword, IsLetter) && rest != "" && rest[0] == '['
    requires MatchIndex(rest) == Option.Some((i, " =" + tail))
    ensures MatchDeclaration(keyword, c + rest) == Option.None
  {
    hide IsSpace, Name, All, MatchIdent;
    var s := c + rest;
    if keyword <= s {
      LettersAreLower(keyword);
      FitsInWord(keyword, c, rest, keyword);
      AfterWord(c, rest, |keyword|);
      NoIdentAfterSpace(tail);
    }
  }

  lemma LettersAreLower(s: string)
    requires All(s, IsLetter)
    ensures forall k :: 0 <= k < |s| ==> LowerChar(s[k]) == s[k]
  {
    assert forall k :: 0 <= k < |s| ==> s[k] in s;
  }

  lemma NoIdentAfterSpace(rest: string)
    ensures MatchSpaces(" =" + rest) == Option.Some("=" + rest) && MatchIdent("=" + rest) == Option.None
  {
    assert " =" + rest == " " + ("=" + rest);
    SkipSpace("=" + rest);
  }

  lemma MeasureForm(c: string, i: nat, q: string, j: nat)
    requires Name(c) && Name(q)
    ensures MatchMeasure(Indexed(c, i) + (" =" + (" measure " + Indexed(q, j)))) == Option.Some((c, i, q, j))
  {
    hide MatchIndexed, TrimStart, MatchSpaces, MatchWord, Indexed, IsSpace, Trim;
    var measured := Indexed(q, j);
    var r3 := " " + measured;
    var r2 := "measure" + r3;
    var r1 := "=" + (" " + r2);
    assert " =" + (" measure " + measured) == " " + r1;
    MatchIndexedText(c, i, " " + r1);
    assert !IsSpace('=') && !IsSpace('m') by { EqualsIsNoSpace(); }
    SkipSpace(r1);
    assert r1[1..] == " " + r2;
    SkipSpace(r2);
    MeasureWord(r3);
    IndexedText(q, j);
    SkipSpace(measured);
  }

  lemma EqualsIsNoSpace()
    ensures !IsSpace('=') && !IsSpace('m')
  {}

  /**
   * A measurement must name the declared qubit register and lie inside it, and so must its bit if a bit register
   * has been declared; the bit itself is not kept.
   */
  lemma MeasureExactly(h: Numerals, pi: real, st: State, c: string, i: nat, q: string, j: nat)
    requires st.hasHeader && st.qubit.Some? && Name(c) && Name(q)
    ensures Step(h, pi, st, c + "[" + NatText(i) + "] = measure " + q + "[" + NatText(j) + "]") ==
            if (st.bit.Some? ==> c == st.bit.value.name && i < st.bit.value.size)
            && q == st.qubit.value.name && j < st.qubit.value.size
            then Success(st.(operations := st.operations
                             + [Operation("op-" + NatText(|st.operations| + 1), M, [j], [], [], |st.operations|)]))
            else Failure(InvalidOperand)
  {
    hide NatText, MatchMeasure, MatchDeclaration, MatchWord, MatchSpaces, Name, ParseGate, MatchIndex;
    var s := Indexed(c, i) + (" =" + (" measure " + Indexed(q, j)));
    assert s == c + "[" + NatText(i) + "] = measure " + q + "[" + NatText(j) + "]";
    MeasureForm(c, i, q, j);
    Keywords();
    var rest := "[" + NatText(i) + "]" + (" =" + (" measure " + Indexed(q, j)));
    assert s == c + rest;
    WordThenBracket("openqasm", c, rest);
    WordThenBracket("include", c, rest);
    MatchIndexText(i, " =" + (" measure " + Indexed(q, j)));
    NoDeclaration("qubit", c, rest, i, " measure " + Indexed(q, j));
    NoDeclaration("bit", c, rest, i, " measure " + Indexed(q, j));
  }

  lemma Keywords()
    ensures All("openqasm", IsLetter) && All("include", IsLetter) && All("qubit", IsLetter) && All("bit", IsLetter)
  {}

  // ----- gates

  /** A text that may stand behind a gate name. */
  predicate OperandPart(text: string) {
    text != "" && !IsSpace(text[0]) && All(text, NotLineBreak)
  }

  /** Parameters are read first, then the gate is looked up, then parameters and operands are counted. */
  lemma FormStep(h: Numerals, pi: real, st: State, name: string, group: Option<string>, text: string)
    requires Ordinary(GateForm(name, group, text)) && st.hasHeader && st.qubit.Some?
    requires Name(name) && OperandPart(text) && (group.Some? ==> ')' !in group.value)
    ensures var r, params := Step(h, pi, st, GateForm(name, group, text)), ParseParameters(h, group);
      match params
      case Failure(code) => r == Failure(code)
      case Success(values) =>
        match ResolveGate(pi, Lower(name), values)
        case Failure(code) => r == Failure(code)
        case Success((g, all)) =>
          && (|all| != ParamCount(g) ==> r == Failure(InvalidParameter))
          && (|all| == ParamCount(g) && |Split(text, ',')| != TargetCount(g) + ControlCount(g) ==>
                r == Failure(InvalidOperand))
  {
    hide MatchGate, MatchMeasure, ParseParameters, ResolveGate, ParseOperands, Split, Lower, ToOperation, All, GateForm,
      Ordinary, Step, IsSpace;
    var s := GateForm(name, group, text);
    GateFormMatches(name, group, text);
    var params := ParseParameters(h, group);
    if params.Success? {
      AnyCase(pi, name, params.value);
    }
    GateLine(h, pi, st, s, ParseGate(h, pi, s, st.qubit.value, |st.operations| + 1));
  }

  const KNOWN_NAMES: seq<string> :=
    ["i", "x", "y", "z", "h", "sx", "s", "sdg", "t", "tdg", "rx", "ry", "rz", "u", "p", "cx", "cnot", "cy", "ch", "cp",
     "cz", "ccx", "swap", "cswap", "u1", "u2", "u3"]

  lemma {:induction false} FoundByName(gates: seq<GateName>, name: string)
    ensures FindGate(gates, name).Some? ==> FindGate(gates, name).value in gates
    ensures FindGate(gates, name).Some? ==> GateText(FindGate(gates, name).value) == name
  {
    hide GateText;
    if gates != [] && GateText(gates[0]) != name {
      FoundByName(gates[1..], name);
    }
  }

  lemma PlainNames(g: GateName)
    requires g in {I, X, Y, Z, H, SX, S, SDG, T, TDG}
    ensures GateText(g) in KNOWN_NAMES
  {
    match g
    case I => assert KNOWN_NAMES[0] == "i";
    case X => assert KNOWN_NAMES[1] == "x";
    case Y => assert KNOWN_NAMES[2] == "y";
    case Z => assert KNOWN_NAMES[3] == "z";
    case H => assert KNOWN_NAMES[4] == "h";
    case SX => assert KNOWN_NAMES[5] == "sx";
    case S => assert KNOWN_NAMES[6] == "s";
    case SDG => assert KNOWN_NAMES[7] == "sdg";
    case T => assert KNOWN_NAMES[8] == "t";
    case TDG => assert KNOWN_NAMES[9] == "tdg";
    case _ =>
  }

  lemma OtherNames(g: GateName)
    requires g in {RX, RY, RZ, U, P, CX, CY, CH, CP, CZ, CCX, SWAP, CSWAP}
    ensures GateText(g) in KNOWN_NAMES
  {
    match g
    case RX => assert KNOWN_NAMES[10] == "rx";
    case RY => assert KNOWN_NAMES[11] == "ry";
    case RZ => assert KNOWN_NAMES[12] == "rz";
    case U => assert KNOWN_NAMES[13] == "u";
    case P => assert KNOWN_NAMES[14] == "p";
    case CX => assert KNOWN_NAMES[15] == "cx";
    case CY => assert KNOWN_NAMES[17] == "cy";
    case CH => assert KNOWN_NAMES[18] == "ch";
    case CP => assert KNOWN_NAMES[19] == "cp";
    case CZ => assert KNOWN_NAMES[20] == "cz";
    case CCX => assert KNOWN_NAMES[21] == "ccx";
    case SWAP => assert KNOWN_NAMES[22] == "swap";
    case CSWAP => assert KNOWN_NAMES[23] == "cswap";
    case _ =>
  }

  lemma ParsedNames(g: GateName)
    requires g in PARSED_GATES
    ensures GateText(g) in KNOWN_NAMES
  {
    hide GateText;
    if g in {I, X, Y, Z, H, SX, S, SDG, T, TDG} {
      PlainNames(g);
    } else {
      OtherNames(g);
    }
  }

  lemma Unknown(pi: real, name: string, params: seq<real>)
    requires name !in KNOWN_NAMES && Lower(name) == name
    ensures ResolveGate(pi, name, params) ==
            Failure(if name in {"constructor", "__proto__"} then InvalidParameter else UnsupportedGate)
  {
    hide FindGate, GateText, Lower;
    FoundByName(PARSED_GATES, name);
    if FindGate(PARSED_GATES, name).Some? {
      ParsedNames(FindGate(PARSED_GATES, name).value);
    }
    assert KNOWN_NAMES[16] == "cnot" && KNOWN_NAMES[24] == "u1" && KNOWN_NAMES[25] == "u2" && KNOWN_NAMES[26] == "u3";
  }

  /** A gate outside the table is unsupported; two names the table inherits have no arity to match. */
  lemma UnknownGate(h: Numerals, pi: real, st: State, name: string, text: string)
    requires Ordinary(name + (" " + text)) && st.hasHeader && st.qubit.Some? && Name(name) && OperandPart(text)
    requires Lower(name) !in KNOWN_NAMES
    ensures Step(h, pi, st, name + (" " + text)) ==
            Failure(if Lower(name) in {"constructor", "__proto__"} then InvalidParameter else UnsupportedGate)
  {
    hide Ordinary, Step, Lower, ResolveGate, Name, OperandPart, GateForm, ParseParameters;
    BareForm(name, text);
    NoParameters(h);
    FormStep(h, pi, st, name, Option.None, text);
    LowerTwice(name);
    Unknown(pi, Lower(name), []);
  }

  /** The number of parameters must be that of the gate. */
  lemma ParametersCounted(h: Numerals, pi: real, st: State, name: string, g: GateName, e: string, x: real, text: string)
    requires HasStatement(g) && Lower(name) == GateText(g) && st.hasHeader && st.qubit.Some? && OperandPart(text)
    requires Evaluates(h, e, x)
    ensures g in {RX, RY, RZ, P, CP, U} ==> Step(h, pi, st, name + (" " + text)) == Failure(InvalidParameter)
    ensures g !in {RX, RY, RZ, P, CP} ==>
      Step(h, pi, st, name + "(" + e + ") " + text) == Failure(InvalidParameter)
  {
    hide Ordinary, Step, Lower, ResolveGate, OperandPart, GateForm, ParseParameters, Evaluates, GateText, GateWord;
    PrintedGate(pi, g, []);
    PrintedGate(pi, g, [x]);
    NameOfWord(name);
    BareForm(name, text);
    GroupForm(name, e, text);
    WordIsOrdinary(name, Option.None, text);
    WordIsOrdinary(name, Option.Some(e), text);
    NoParameters(h);
    OneNumber(h, e, x);
    FormStep(h, pi, st, name, Option.None, text);
    FormStep(h, pi, st, name, Option.Some(e), text);
  }

  /** So must the number of operands. */
  lemma OperandsCounted(h: Numerals, pi: real, st: State, name: string, g: GateName, a: nat, b: nat)
    requires HasStatement(g) && Lower(name) == GateText(g) && st.hasHeader && st.qubit.Some?
    ensures g in {CX, CY, CH, CZ, SWAP, CCX, CSWAP} ==>
      Step(h, pi, st, name + (" " + ("q[" + NatText(a) + "]"))) == Failure(InvalidOperand)
    ensures g in {I, X, Y, Z, H, SX, S, SDG, T, TDG, CCX, CSWAP} ==>
      Step(h, pi, st, name + (" " + ("q[" + NatText(a) + "], q[" + NatText(b) + "]"))) == Failure(InvalidOperand)
  {
    hide Ordinary, Step, Lower, ResolveGate, OperandPart, GateForm, ParseParameters, GateText, GateWord, NatText, Split,
      Join;
    var one, two := "q[" + NatText(a) + "]", "q[" + NatText(a) + "], q[" + NatText(b) + "]";
    OperandTexts(a, b, a);
    OperandCount([a]);
    OperandCount([a, b]);
    PrintedGate(pi, g, []);
    NameOfWord(name);
    BareForm(name, one);
    BareForm(name, two);
    WordIsOrdinary(name, Option.None, one);
    WordIsOrdinary(name, Option.None, two);
    NoParameters(h);
    FormStep(h, pi, st, name, Option.None, one);
    FormStep(h, pi, st, name, Option.None, two);
  }

  lemma OperandCount(qs: seq<nat>)
    requires qs != []
    ensures OperandPart(Join(Operands(qs), ", ")) && |Split(Join(Operands(qs), ", "), ',')| == |qs|
  {
    hide Join, Split, Pieces, ParseOperands;
    var n := Beyond(qs);
    OperandList(qs, n);
    OperandsFit(Join(Operands(qs), ", "));
  }

  /** A register large enough for these qubits. */
  function Beyond(qs: seq<nat>): (n: nat)
    ensures Within(qs, n)
  {
    if qs == [] then 0
    else
      var n := Beyond(qs[1..]);
      assert forall k :: 0 < k < |qs| ==> qs[k] == qs[1..][k - 1];
      if qs[0] < n then n else qs[0] + 1
  }

  /** A parameter must be written in the allowed characters, evaluate, and be finite; the gate is not looked at. */
  lemma NumbersChecked(h: Numerals, pi: real, st: State, name: string, e: string, text: string)
    requires Ordinary(name + "(" + e + ") " + text) && st.hasHeader && st.qubit.Some? && Name(name) && OperandPart(text)
    requires Tight(e) && ',' !in e && ')' !in e
    ensures (exists c :: c in e && c !in NUMBER_CHARS && c != '(' && !IsSpace(c)) ==>
      Step(h, pi, st, name + "(" + e + ") " + text) == Failure(InvalidParameter)
    ensures (forall c :: c in e ==> c in NUMBER_CHARS) && h.eval(e) == NotFinite ==>
      Step(h, pi, st, name + "(" + e + ") " + text) == Failure(InvalidParameter)
    ensures (forall c :: c in e ==> c in NUMBER_CHARS) && h.eval(e) == Evaluated.Throws ==>
      Step(h, pi, st, name + "(" + e + ") " + text) == Failure(InvalidSyntax)
  {
    hide Ordinary, Step, Lower, ResolveGate, OperandPart, GateForm, Name, IsSpace, Trim;
    GroupForm(name, e, text);
    FormStep(h, pi, st, name, Option.Some(e), text);
    TrimTight(e);
    TightIsSomething(e);
    SplitFirst(e, "", ',');
    assert [e][1..] == [];
    if c :| c in e && c !in NUMBER_CHARS && c != '(' && !IsSpace(c) {
      OtherChars(c);
    } else if forall c :: c in e ==> c in NUMBER_CHARS {
      NumberCharsOf(e);
    }
  }

  lemma OtherChars(c: char)
    requires c !in NUMBER_CHARS && c != '(' && c != ')' && !IsSpace(c)
    ensures !ExpressionChar(c)
  {
    var s := NUMBER_CHARS;
    assert s[0] == '0' && s[1] == '1' && s[2] == '2' && s[3] == '3' && s[4] == '4' && s[5] == '5' && s[6] == '6';
    assert s[7] == '7' && s[8] == '8' && s[9] == '9' && s[10] == 'p' && s[11] == 'i' && s[12] == 'P' && s[13] == 'I';
    assert s[14] == '+' && s[15] == '-' && s[16] == '*' && s[17] == '/' && s[18] == '.';
  }

  /** A single word is no statement. */
  lemma LoneWord(h: Numerals, pi: real, st: State, s: string)
    requires Ordinary(s) && Name(s) && st.hasHeader && st.qubit.Some?
    ensures Step(h, pi, st, s) == Failure(UnsupportedStatement)
  {
    hide Ordinary, Step, IsSpace;
    MatchIdentText(s, "");
    assert s + "" == s;
    GateLine(h, pi, st, s, Failure(UnsupportedStatement));
  }

  // ----- whole texts

  lemma EmptyText(h: Numerals, pi: real)
    ensures QasmParser.Meaning(h, pi, "") == Failure(MissingHeader)
  {
    hide LineStatement;
    FirstLine("", "");
    BlankLine();
    assert [""][1..] == [] && Optional(Option.None) + [] == [];
    assert LineStatements([]) == Success([]);
    assert LineStatements([""]) == Success([]);
  }

  lemma HeaderOnly(h: Numerals, pi: real)
    ensures QasmParser.Meaning(h, pi, "OPENQASM 3;\n") == Failure(MissingDeclaration)
  {
    hide Step, LineStatements, SplitLines, Clean;
    var bodies := ["OPENQASM 3"];
    assert Clean("OPENQASM 3") by { HeaderClean(); }
    TextStatements(bodies);
    WritesLines(0, "OPENQASM 3", []);
    assert "OPENQASM 3" + ";\n" == "OPENQASM 3;\n";
    ReadsDeclarations(h, pi, START, 0, "q");
    assert bodies[1..] == [];
  }

  lemma HeaderClean()
    ensures Clean("OPENQASM 3")
  {}

  lemma MeasuredTooEarly(ops: seq<Operation>)
    requires |ops| == 2 && ops[0].gate == M && ops[1].gate != M && ops[0].layer <= ops[1].layer
    ensures !Legal(ops)
  {
    hide NoRepeats, SpansApart;
    assert ops[0] in ops && ops[1] in ops;
  }

  lemma MeasureThenX(h: Numerals, n: nat, q: nat)
    requires q < n
    ensures !Legal(Numbered(h, [MeasureStmt(q, q), GateStmt(X, [], [q])], 1))
  {
    hide Legal, OperationId;
    var ops := Numbered(h, [MeasureStmt(q, q), GateStmt(X, [], [q])], 1);
    assert ops[0].gate == M && ops[0].layer == 0 && ops[1].gate == X && ops[1].layer == 1;
    MeasuredTooEarly(ops);
  }

  lemma GoodMeasureThenX(h: Numerals, n: nat, q: nat)
    requires q < n
    ensures var stmts := [MeasureStmt(q, q), GateStmt(X, [], [q])]; AllGood(stmts, n) && AllPlain(h, stmts)
  {}

  /** A gate after a measurement makes the circuit invalid. */
  lemma GateAfterMeasure(h: Numerals, pi: real, n: nat, q: nat)
    requires Codec(h) && q < n
    ensures QasmParser.Meaning(h, pi, TextOf(Preamble(n) + ["c[" + NatText(q) + "] = measure q[" + NatText(q) + "]",
                                                            "x q[" + NatText(q) + "]"])) == Failure(InvalidCircuit)
  {
    hide NatText, Codec, Body, QasmParser.Meaning, TextOf, Preamble, Numbered, Legal, AllGood, AllPlain;
    var stmts := [MeasureStmt(q, q), GateStmt(X, [], [q])];
    WritesMeasure(h, q, q);
    WritesOneQubit(h, X, "x", q);
    assert "x" + " q[" + NatText(q) + "]" == "x q[" + NatText(q) + "]";
    assert Bodies(h, stmts) == [Body(h, stmts[0]), Body(h, stmts[1])];
    GoodMeasureThenX(h, n, q);
    MeasureThenX(h, n, q);
    TextMeans(h, pi, n, stmts);
  }
}
