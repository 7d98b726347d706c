/** What the parser guarantees about any text it accepts. */
module QasmAcceptance {
  import opened Options
  import opened Text
  import opened Bits
  import opened Circuits
  import opened QasmStatements
  import opened QasmPrinter
  import opened QasmParser
  import opened QasmLexing
  import opened QasmReading
  import opened QasmSteps
  import opened QasmRoundTrip
  import opened CircuitValidation

  predicate DeclaresQubits(s: string) {
    !IsHeader(s) && !IsInclude(s) && MatchDeclaration("qubit", s).Some?
  }

  /** How many statements declare the qubit register. */
  function Declarations(statements: seq<string>): nat {
    if statements == [] then 0 else (if DeclaresQubits(statements[0]) then 1 else 0) + Declarations(statements[1..])
  }

  /** The operations fit the register declared so far. */
  predicate Fitting(st: State) {
    if st.qubit.None? then st.operations == [] else AllWellFormed(st.operations, st.qubit.value.size)
  }

  // ----- at most one declaration

  lemma {:induction false} OperandsInRange(items: seq<string>, qubit: Register)
    requires ParseOperands(items, qubit).Success?
    ensures Within(ParseOperands(items, qubit).value, qubit.size)
  {
    hide MatchIndexed, Trim;
    if items != [] {
      OperandsInRange(items[1..], qubit);
    }
  }

  lemma {:induction false} FoundGate(gates: seq<GateName>, name: string)
    requires FindGate(gates, name).Some?
    ensures FindGate(gates, name).value in gates
  {
    hide GateText;
    if GateText(gates[0]) != name {
      FoundGate(gates[1..], name);
    }
  }

  lemma ResolvedGate(pi: real, raw: string, params: seq<real>)
    requires ResolveGate(pi, raw, params).Success?
    ensures var g := ResolveGate(pi, raw, params).value.0; ControlCount(g) == 0 && g != SWAP ==> TargetCount(g) == 1
    ensures ResolveGate(pi, raw, params).value.0 == SWAP ==>
      ParamCount(SWAP) == 0 == ControlCount(SWAP) && TargetCount(SWAP) == 2
  {
    hide FindGate, GateText, Lower;
    var lower := Lower(raw);
    if LookupGate(lower).Some? && lower != "cnot" {
      FoundGate(PARSED_GATES, lower);
    }
  }

  lemma BuiltFits(g: GateName, params: seq<real>, operands: seq<nat>, k: nat, n: nat)
    requires k >= 1 && |operands| == TargetCount(g) + ControlCount(g) && |params| == ParamCount(g)
      && Within(operands, n)
    requires ControlCount(g) == 0 && g != SWAP ==> TargetCount(g) == 1
    requires g == SWAP ==> ParamCount(g) == 0 == ControlCount(g) && TargetCount(g) == 2
    ensures WellFormed(ToOperation(g, params, operands, k), n)
  {
    hide OperationId, TargetCount, ControlCount, ParamCount;
  }

  lemma GateFits(h: Numerals, pi: real, s: string, qubit: Register, k: nat)
    requires k >= 1 && ParseGate(h, pi, s, qubit, k).Success?
    ensures WellFormed(ParseGate(h, pi, s, qubit, k).value, qubit.size)
  {
    hide MatchGate, ParseParameters, ResolveGate, ParseOperands, Split, ToOperation, WellFormed, TargetCount,
      ControlCount, ParamCount;
    var (name, group, text) := MatchGate(s).value;
    var params := ParseParameters(h, group).value;
    var (g, values) := ResolveGate(pi, name, params).value;
    var items := Split(text, ',');
    ResolvedGate(pi, name, params);
    OperandsInRange(items, qubit);
    BuiltFits(g, values, ParseOperands(items, qubit).value, k, qubit.size);
  }

  lemma MeasureFits(m: (string, nat, string, nat), qubit: Register, bit: Option<Register>, k: nat)
    requires k >= 1 && ParseMeasure(m, qubit, bit, k).Success?
    ensures WellFormed(ParseMeasure(m, qubit, bit, k).value, qubit.size)
  {}

  lemma StepFits(h: Numerals, pi: real, st: State, s: string)
    requires Fitting(st) && Step(h, pi, st, s).Success?
    ensures var next := Step(h, pi, st, s).value;
      if DeclaresQubits(s) then next.qubit.Some? && next.operations == st.operations
      else next.qubit == st.qubit && Fitting(next)
  {
    hide IsHeader, IsInclude, MatchDeclaration, MatchMeasure, ParseGate, ParseMeasure, WellFormed;
    if st.qubit.Some? {
      var qubit, k := st.qubit.value, |st.operations| + 1;
      if MatchMeasure(s).Some? {
        if ParseMeasure(MatchMeasure(s).value, qubit, st.bit, k).Success? {
          MeasureFits(MatchMeasure(s).value, qubit, st.bit, k);
        }
      } else if ParseGate(h, pi, s, qubit, k).Success? {
        GateFits(h, pi, s, qubit, k);
      }
    }
  }

  lemma {:induction false} StepsFit(h: Numerals, pi: real, st: State, statements: seq<string>)
    requires Fitting(st) && Steps(h, pi, st, statements).Success?
    requires Declarations(statements) <= if st.qubit.Some? then 0 else 1
    ensures Fitting(Steps(h, pi, st, statements).value)
    decreases statements
  {
    hide Step, Fitting, DeclaresQubits;
    if statements != [] {
      StepFits(h, pi, st, statements[0]);
      var next := Step(h, pi, st, statements[0]).value;
      if DeclaresQubits(statements[0]) {
        EmptyFits(st, next);
      }
      StepsFit(h, pi, next, statements[1..]);
    }
  }

  lemma EmptyFits(st: State, next: State)
    requires Fitting(st) && st.qubit.None? && next.operations == st.operations
    ensures Fitting(next)
  {}

  lemma {:induction false} StepsNumber(h: Numerals, pi: real, st: State, statements: seq<string>)
    requires NumberedFrom(st.operations) && Steps(h, pi, st, statements).Success?
    ensures NumberedFrom(Steps(h, pi, st, statements).value.operations)
    decreases statements
  {
    hide Step, NumberedFrom;
    if statements != [] {
      StepNumbers(h, pi, st, statements[0]);
      StepsNumber(h, pi, Step(h, pi, st, statements[0]).value, statements[1..]);
    }
  }

  /** A text with one qubit declaration is accepted only as a circuit the editor could have printed. */
  lemma AcceptedEditable(h: Numerals, pi: real, source: string)
    requires QasmParser.Meaning(h, pi, source).Success? && LineStatements(SplitLines(source)).Success?
    requires Declarations(LineStatements(SplitLines(source)).value) <= 1
    ensures Editable(QasmParser.Meaning(h, pi, source).value)
  {
    hide LineStatements, SplitLines, Steps, Declarations, Legal, NumberedFrom, NamedUniquely, AllWellFormed;
    var statements := LineStatements(SplitLines(source)).value;
    StartFits();
    StepsFit(h, pi, START, statements);
    StepsNumber(h, pi, START, statements);
    var st := Steps(h, pi, START, statements).value;
    NumberedUniquely(st.operations);
  }

  lemma StartFits()
    ensures Fitting(START) && NumberedFrom(START.operations)
  {}

  // ----- any number of declarations

  predicate IsOperation(s: string) {
    !IsHeader(s) && !IsInclude(s) && MatchDeclaration("qubit", s).None? && MatchDeclaration("bit", s).None?
  }

  /** The numbers in brackets in a list of operands. */
  function Indexes(items: seq<string>): seq<nat> {
    if items == [] then []
    else
      match MatchIndexed(Trim(items[0]))
      case None => Indexes(items[1..])
      case Some((_, index, _)) => [index] + Indexes(items[1..])
  }

  /** The qubits that an operation statement names. */
  function StatementOperands(s: string): seq<nat> {
    match MatchMeasure(s)
    case Some((_, _, _, qubit)) => [qubit]
    case None =>
      match MatchGate(s)
      case None => []
      case Some((_, _, operands)) => Indexes(Split(operands, ','))
  }

  /** Every operation statement names qubits below `n` only. */
  predicate OperandsBelow(statements: seq<string>, n: nat) {
    forall i :: 0 <= i < |statements| && IsOperation(statements[i]) ==> Within(StatementOperands(statements[i]), n)
  }

  /** The qubit register in force after the statements: that of the last declaration. */
  function LastRegister(current: Option<Register>, statements: seq<string>): Option<Register>
    decreases statements
  {
    if statements == [] then current
    else
      var next := if DeclaresQubits(statements[0]) then MatchDeclaration("qubit", statements[0]) else current;
      LastRegister(next, statements[1..])
  }

  predicate AllShaped(ops: seq<Operation>) {
    forall k :: 0 <= k < |ops| ==> Shaped(ops[k])
  }

  predicate AllWithin(ops: seq<Operation>, n: nat) {
    forall k :: 0 <= k < |ops| ==> Within(Qubits(ops[k]), n)
  }

  lemma {:induction false} OperandsAreIndexes(items: seq<string>, qubit: Register)
    requires ParseOperands(items, qubit).Success?
    ensures ParseOperands(items, qubit).value == Indexes(items)
  {
    hide MatchIndexed, Trim;
    if items != [] {
      OperandsAreIndexes(items[1..], qubit);
    }
  }

  lemma BuiltWithin(g: GateName, params: seq<real>, operands: seq<nat>, k: nat, n: nat)
    requires k >= 1 && |operands| == TargetCount(g) + ControlCount(g) && |params| == ParamCount(g)
    requires ControlCount(g) == 0 && g != SWAP ==> TargetCount(g) == 1
    requires g == SWAP ==> ParamCount(g) == 0 == ControlCount(g) && TargetCount(g) == 2
    ensures var op := ToOperation(g, params, operands, k);
      Shaped(op) && (Within(Qubits(op), n) <==> Within(operands, n))
  {
    hide OperationId, TargetCount, ControlCount, ParamCount;
    var op := ToOperation(g, params, operands, k);
    var qs := Qubits(op);
    if ControlCount(g) > 0 {
      var t := TargetCount(g);
      forall j | 0 <= j < |qs| ensures qs[j] == if j < t then operands[ControlCount(g) + j] else operands[j - t] {}
      forall j | 0 <= j < |qs|
        ensures operands[j] == if j < ControlCount(g) then qs[t + j] else qs[j - ControlCount(g)]
      {}
    } else {
      assert qs == operands;
    }
  }

  lemma GateMirrors(h: Numerals, pi: real, s: string, qubit: Register, k: nat, n: nat)
    requires k >= 1 && MatchMeasure(s).None? && ParseGate(h, pi, s, qubit, k).Success?
    ensures var op := ParseGate(h, pi, s, qubit, k).value;
      Shaped(op) && (Within(Qubits(op), n) <==> Within(StatementOperands(s), n))
  {
    hide MatchMeasure, MatchGate, ParseParameters, ResolveGate, ParseOperands, Split, ToOperation, TargetCount,
      ControlCount, ParamCount, Within, Shaped;
    var (name, group, text) := MatchGate(s).value;
    var params := ParseParameters(h, group).value;
    var (g, values) := ResolveGate(pi, name, params).value;
    var items := Split(text, ',');
    ResolvedGate(pi, name, params);
    OperandsAreIndexes(items, qubit);
    BuiltWithin(g, values, ParseOperands(items, qubit).value, k, n);
  }

  lemma MeasureMirrors(s: string, qubit: Register, bit: Option<Register>, k: nat, n: nat)
    requires k >= 1 && MatchMeasure(s).Some? && ParseMeasure(MatchMeasure(s).value, qubit, bit, k).Success?
    ensures var op := ParseMeasure(MatchMeasure(s).value, qubit, bit, k).value;
      Shaped(op) && (Within(Qubits(op), n) <==> Within(StatementOperands(s), n))
  {
    hide MatchMeasure;
    var m := MatchMeasure(s).value;
    assert [m.3] + [] == [m.3];
  }

  lemma StepMirrors(h: Numerals, pi: real, st: State, s: string, n: nat)
    requires AllShaped(st.operations) && Step(h, pi, st, s).Success?
    ensures var next := Step(h, pi, st, s).value;
      && AllShaped(next.operations)
      && (AllWithin(next.operations, n) <==>
          AllWithin(st.operations, n) && (IsOperation(s) ==> Within(StatementOperands(s), n)))
      && next.qubit == if DeclaresQubits(s) then MatchDeclaration("qubit", s) else st.qubit
  {
    hide IsHeader, IsInclude, MatchDeclaration, MatchMeasure, ParseGate, ParseMeasure, Shaped, Within,
      StatementOperands;
    if IsOperation(s) {
      var qubit, k := st.qubit.value, |st.operations| + 1;
      if MatchMeasure(s).Some? {
        MeasureMirrors(s, qubit, st.bit, k, n);
      } else {
        GateMirrors(h, pi, s, qubit, k, n);
      }
      var next := Step(h, pi, st, s).value;
      OneMore(st.operations, next.operations[|st.operations|], n);
    }
  }

  lemma OneMore(ops: seq<Operation>, op: Operation, n: nat)
    requires AllShaped(ops) && Shaped(op)
    ensures AllShaped(ops + [op]) && (AllWithin(ops + [op], n) <==> AllWithin(ops, n) && Within(Qubits(op), n))
  {
    hide Shaped, Within;
    var all := ops + [op];
    assert all[|ops|] == op && forall k :: 0 <= k < |ops| ==> all[k] == ops[k];
  }

  lemma BelowFirst(statements: seq<string>, n: nat)
    requires statements != []
    ensures OperandsBelow(statements, n) <==>
            (IsOperation(statements[0]) ==> Within(StatementOperands(statements[0]), n))
                && OperandsBelow(statements[1..], n)
  {
    hide IsOperation, StatementOperands, Within;
    forall i | 0 <= i < |statements| - 1 ensures statements[1..][i] == statements[i + 1] {}
    if (IsOperation(statements[0]) ==> Within(StatementOperands(statements[0]), n))
        && OperandsBelow(statements[1..], n) {
      forall i | 0 <= i < |statements| && IsOperation(statements[i])
        ensures Within(StatementOperands(statements[i]), n)
      {
        if i > 0 { assert statements[1..][i - 1] == statements[i]; }
      }
    }
  }

  lemma {:induction false} StepsMirror(h: Numerals, pi: real, st: State, statements: seq<string>, n: nat)
    requires AllShaped(st.operations) && Steps(h, pi, st, statements).Success?
    ensures var last := Steps(h, pi, st, statements).value;
      && AllShaped(last.operations)
      && (AllWithin(last.operations, n) <==> AllWithin(st.operations, n) && OperandsBelow(statements, n))
      && last.qubit == LastRegister(st.qubit, statements)
    decreases statements
  {
    hide Step, AllShaped, AllWithin, DeclaresQubits, OperandsBelow, IsOperation, StatementOperands, Within;
    if statements == [] {
      assert OperandsBelow([], n) by { NothingBelow(n); }
    } else {
      StepMirrors(h, pi, st, statements[0], n);
      BelowFirst(statements, n);
      StepsMirror(h, pi, Step(h, pi, st, statements[0]).value, statements[1..], n);
    }
  }

  lemma NothingBelow(n: nat)
    ensures OperandsBelow([], n)
  {}

  lemma ShapedFits(ops: seq<Operation>, n: nat)
    requires AllShaped(ops)
    ensures AllWellFormed(ops, n) <==> AllWithin(ops, n)
  {
    forall k | 0 <= k < |ops| ensures WellFormed(ops[k], n) <==> Within(Qubits(ops[k]), n) { assert Shaped(ops[k]); }
  }

  /**
   * Every accepted text, however many registers it declares, has the size of its last qubit declaration; its circuit is
   * one that the editor could have printed exactly when every operation statement names qubits below that size only,
   * that is, when no operation has a qubit outside the circuit.
   */
  lemma AcceptedExactly(h: Numerals, pi: real, source: string)
    requires QasmParser.Meaning(h, pi, source).Success?
    ensures LineStatements(SplitLines(source)).Success?
    ensures var statements, r := LineStatements(SplitLines(source)).value, QasmParser.Meaning(h, pi, source).value;
      && LastRegister(Option.None, statements).Some? && LastRegister(Option.None, statements).value.size == r.numQubits
      && (Editable(r) <==> OperandsBelow(statements, r.numQubits))
      && (Editable(r) <==> AllWithin(r.operations, r.numQubits))
  {
    hide LineStatements, SplitLines, Steps, Legal, NumberedFrom, NamedUniquely, AllWellFormed, AllShaped, AllWithin,
      OperandsBelow, LastRegister;
    var statements := LineStatements(SplitLines(source)).value;
    var st := Steps(h, pi, START, statements).value;
    var n := st.qubit.value.size;
    StartFits();
    StartEmpty(n);
    StepsMirror(h, pi, START, statements, n);
    StepsNumber(h, pi, START, statements);
    NumberedUniquely(st.operations);
    ShapedFits(st.operations, n);
  }

  lemma StartEmpty(n: nat)
    ensures AllShaped(START.operations) && AllWithin(START.operations, n)
  {}

  /** One gate on qubit `q` of a register of `n` qubits, followed by a declaration of `m` qubits. */
  function Redeclared(h: Numerals, n: nat, q: nat, m: nat): seq<string> {
    Preamble(n) + [Body(h, GateStmt(X, [], [q])), "qubit[" + NatText(m) + "] q"]
  }

  lemma RedeclaredSteps(h: Numerals, pi: real, n: nat, q: nat, m: nat)
    requires Codec(h) && q < n
    ensures Steps(h, pi, START, Redeclared(h, n, q, m)) ==
      Success(Opened(n, [ReadBack(h, GateStmt(X, [], [q]), 1)]).(qubit := Option.Some(Register("q", m))))
  {
    hide Step, Codec, Body, Preamble, GoodGate, ReadBack, StmtPlain;
    var s := GateStmt(X, [], [q]);
    var body, last := Body(h, s), "qubit[" + NatText(m) + "] q";
    PreambleSteps(h, pi, n, [body, last]);
    FlipIsGood(h, n, q);
    StmtStep(h, pi, n, [], s);
    var op := ReadBack(h, s, 1);
    assert [] + [op] == [op];
    var st := Opened(n, [op]);
    assert Step(h, pi, st, last) == Success(st.(qubit := Option.Some(Register("q", m)))) by {
      RedeclareStep(h, pi, st, m);
    }
    assert [body, last][1..] == [last] && [last][1..] == [];
    assert Steps(h, pi, st, [last]) == Success(st.(qubit := Option.Some(Register("q", m))));
    assert Steps(h, pi, Opened(n, []), [body, last]) == Steps(h, pi, st, [last]);
  }

  lemma RedeclareStep(h: Numerals, pi: real, st: State, m: nat)
    ensures Step(h, pi, st, "qubit[" + NatText(m) + "] q") == Success(st.(qubit := Option.Some(Register("q", m))))
  {
    hide IsHeader, IsInclude, MatchDeclaration, MatchMeasure, ParseGate;
    RegisterTexts(m);
  }

  lemma FlipIsGood(h: Numerals, n: nat, q: nat)
    requires q < n
    ensures GoodStmt(GateStmt(X, [], [q]), n) && StmtPlain(h, GateStmt(X, [], [q]))
  {}

  lemma RedeclaredClean(h: Numerals, n: nat, q: nat, m: nat)
    requires Codec(h) && q < n
    ensures AllClean(Redeclared(h, n, q, m)) && Redeclared(h, n, q, m) != []
  {
    hide Clean, Codec, Body, GoodGate, Preamble;
    FlipIsGood(h, n, q);
    GateClean(h, X, [], [q], n);
    PreambleClean(n);
    PreambleClean(m);
    assert Clean("qubit[" + NatText(m) + "] q") by { ThirdClean(m); }
  }

  lemma ThirdClean(m: nat)
    ensures Clean("qubit[" + NatText(m) + "] q")
  {
    PreambleClean(m);
    hide Clean, NatText;
    assert Clean(Preamble(m)[2]);
  }

  /**
   * A repeated declaration is not checked against the operations before it: the text is accepted, and the circuit
   * is well-formed exactly when the gate's qubit happens to lie inside the later register.
   */
  lemma SecondDeclaration(h: Numerals, pi: real, n: nat, q: nat, m: nat)
    requires Codec(h) && q < n
    ensures var r := QasmParser.Meaning(h, pi, TextOf(Redeclared(h, n, q, m)));
      r.Success? && r.value.numQubits == m && (AllWellFormed(r.value.operations, m) <==> q < m)
  {
    hide Steps, Codec, TextOf, Redeclared, AllClean, LineStatements, SplitLines, Legal;
    RedeclaredClean(h, n, q, m);
    TextStatements(Redeclared(h, n, q, m));
    RedeclaredSteps(h, pi, n, q, m);
    LonelyFlip(h, q, n, m);
  }

  lemma LonelyFlip(h: Numerals, q: nat, n: nat, m: nat)
    requires q < n
    ensures var op := ReadBack(h, GateStmt(X, [], [q]), 1); Legal([op]) && (AllWellFormed([op], m) <==> q < m)
  {
    hide ReadBack, Legal, AllWellFormed, WellFormed;
    var op := ReadBack(h, GateStmt(X, [], [q]), 1);
    FlipShape(h, q);
    OneLegal(op, q);
    assert WellFormed(op, m) <==> q < m by { FlipFits(op, q, m); }
    OneFits(op, m);
  }

  lemma FlipShape(h: Numerals, q: nat)
    ensures var op := ReadBack(h, GateStmt(X, [], [q]), 1);
      op.gate == X && op.targets == [q] && op.controls == [] && op.params == [] && op.layer == 0
  {
    hide OperationId;
  }

  lemma FlipFits(op: Operation, q: nat, m: nat)
    requires op.gate == X && op.targets == [q] && op.controls == [] && op.params == []
    ensures WellFormed(op, m) <==> q < m
  {
    assert Qubits(op) == [q];
    assert Within([q], m) <==> q < m by { assert [q][0] == q; }
  }

  lemma OneFits(op: Operation, m: nat)
    ensures AllWellFormed([op], m) <==> WellFormed(op, m)
  {
    hide WellFormed;
    assert [op][0] == op;
  }

  lemma OneLegal(op: Operation, q: nat)
    requires op.targets == [q] && op.controls == []
    ensures Legal([op])
  {
    hide Clash;
    assert Qubits(op) == [q];
  }
}
