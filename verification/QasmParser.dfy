/** Reading OpenQASM 3 text back: statement splitting, the statement grammars, and circuit construction. */
module QasmParser {
  import opened Options
  import opened Text
  import opened Circuits
  import opened QasmPrinter
  import opened CircuitValidation

  datatype ErrorCode =
    | MissingHeader | MissingDeclaration | InvalidSyntax | InvalidCircuit
    | InvalidParameter | InvalidOperand | UnsupportedStatement | UnsupportedGate

  datatype Parsed<+T> = Success(value: T) | Failure(code: ErrorCode) {
    predicate IsFailure() { Failure? }
    function PropagateFailure<U>(): Parsed<U> requires Failure? { Failure(code) }
    function Extract(): T requires Success? { value }
  }

  // ----- lines and statements

  function DropReturn(line: string): string {
    if line != [] && line[|line| - 1] == '\r' then line[..|line| - 1] else line
  }

  /** Lines end with a line feed, optionally preceded by a carriage return. */
  function SplitLines(source: string): seq<string> {
    var parts := Split(source, '\n');
    DropReturns(parts[..|parts| - 1]) + [parts[|parts| - 1]]
  }

  function DropReturns(parts: seq<string>): (r: seq<string>)
    ensures |r| == |parts| && forall i :: 0 <= i < |r| ==> r[i] == DropReturn(parts[i])
  {
    if parts == [] then [] else [DropReturn(parts[0])] + DropReturns(parts[1..])
  }

  function StripComment(line: string): string {
    if |line| < 2 then line
    else if line[0] == '/' && line[1] == '/' then []
    else [line[0]] + StripComment(line[1..])
  }

  /** The statement on a line: none on a blank line, an error without a final semicolon or with nothing before it. */
  function LineStatement(rawLine: string): Parsed<Option<string>> {
    var noComment := Trim(StripComment(rawLine));
    if noComment == [] then Success(Option.None)
    else if noComment[|noComment| - 1] != ';' then Failure(InvalidSyntax)
    else
      var statement := Trim(noComment[..|noComment| - 1]);
      if statement == [] then Failure(InvalidSyntax) else Success(Option.Some(statement))
  }

  function LineStatements(lines: seq<string>): Parsed<seq<string>> {
    if lines == [] then Success([])
    else
      var first :- LineStatement(lines[0]);
      var rest :- LineStatements(lines[1..]);
      Success(Optional(first) + rest)
  }

  // ----- the statement grammars

  function MatchIdent(s: string): Option<(string, string)> {
    if s == [] || !IsIdentStart(s[0]) then Option.None
    else var k := CountWhile(s, IsWord); Option.Some((s[..k], s[k..]))
  }

  /** `[digits]` at the head of a string. */
  function MatchIndex(s: string): Option<(nat, string)> {
    if s == [] || s[0] != '[' then Option.None
    else
      var k := CountWhile(s[1..], IsDigit);
      var rest := s[1..][k..];
      if k == 0 || rest == [] || rest[0] != ']' then Option.None
      else Option.Some((ParseNat(s[1..][..k]), rest[1..]))
  }

  function MatchIndexed(s: string): Option<(string, nat, string)> {
    match MatchIdent(s)
    case None => Option.None
    case Some((name, rest)) =>
      match MatchIndex(rest)
      case None => Option.None
      case Some((index, tail)) => Option.Some((name, index, tail))
  }

  /** The text after a keyword, compared without regard to case. */
  function MatchWord(word: string, s: string): Option<string> {
    if |s| >= |word| && Lower(s[..|word|]) == word then Option.Some(s[|word|..]) else Option.None
  }

  /** At least one space. */
  function MatchSpaces(s: string): Option<string> {
    if s != [] && IsSpace(s[0]) then Option.Some(TrimStart(s)) else Option.None
  }

  predicate IsHeader(s: string) {
    var w := MatchWord("openqasm", s);
    w.Some? && var t := MatchSpaces(w.value); t.Some? && t.value == "3"
  }

  predicate IsInclude(s: string) {
    var w := MatchWord("include", s);
    w.Some? && var t := MatchSpaces(w.value); t.Some? && Lower(t.value) == "\"stdgates.inc\""
  }

  datatype Register = Register(name: string, size: nat)

  function MatchDeclaration(keyword: string, s: string): Option<Register> {
    if !(keyword <= s) then Option.None
    else
      match MatchIndex(s[|keyword|..])
      case None => Option.None
      case Some((size, rest)) =>
        match MatchSpaces(rest)
        case None => Option.None
        case Some(t) =>
          match MatchIdent(t)
          case None => Option.None
          case Some((name, tail)) => if tail == [] then Option.Some(Register(name, size)) else Option.None
  }

  /** `name[i] = measure name[j]` */
  function MatchMeasure(s: string): Option<(string, nat, string, nat)> {
    match MatchIndexed(s)
    case None => Option.None
    case Some((c, ci, r1)) =>
      var r2 := TrimStart(r1);
      if r2 == [] || r2[0] != '=' then Option.None
      else
        match MatchWord("measure", TrimStart(r2[1..]))
        case None => Option.None
        case Some(r3) =>
          match MatchSpaces(r3)
          case None => Option.None
          case Some(r4) =>
            match MatchIndexed(r4)
            case None => Option.None
            case Some((q, qi, tail)) => if tail == [] then Option.Some((c, ci, q, qi)) else Option.None
  }

  predicate NotLineBreak(c: char) { c !in {'\n', '\r', '\U{2028}', '\U{2029}'} }

  predicate NotClose(c: char) { c != ')' }

  /** An optional parenthesised group, and what follows it. */
  function MatchGroup(s: string): Option<(Option<string>, string)> {
    if s == [] || s[0] != '(' then Option.Some((Option.None, s))
    else
      var k := CountWhile(s[1..], NotClose);
      if k == |s[1..]| then Option.None else Option.Some((Option.Some(s[1..][..k]), s[1..][k + 1..]))
  }

  /** Gate name, optional parameter text, operand text. */
  function MatchGate(s: string): Option<(string, Option<string>, string)> {
    match MatchIdent(s)
    case None => Option.None
    case Some((name, r1)) =>
      match MatchGroup(r1)
      case None => Option.None
      case Some((group, r2)) =>
        match MatchSpaces(r2)
        case None => Option.None
        case Some(operands) =>
          if operands != [] && All(operands, NotLineBreak) then Option.Some((name, group, operands)) else Option.None
  }

  // ----- parameters and operands

  predicate ExpressionChar(c: char) {
    IsDigit(c) || c in {'p', 'i', 'P', 'I', '+', '-', '*', '/', '(', ')', '.'} || IsSpace(c)
  }

  /** A failing evaluation surfaces as a syntax error, a non-finite value as a parameter error. */
  function ParseExpression(h: Numerals, s: string): Parsed<real> {
    var trimmed := Trim(s);
    if trimmed == [] || !All(trimmed, ExpressionChar) then Failure(InvalidParameter)
    else
      match h.eval(trimmed)
      case Value(x) => Success(x)
      case NotFinite => Failure(InvalidParameter)
      case Throws => Failure(InvalidSyntax)
  }

  function ParseExpressions(h: Numerals, items: seq<string>): Parsed<seq<real>> {
    if items == [] then Success([])
    else
      var first :- ParseExpression(h, items[0]);
      var rest :- ParseExpressions(h, items[1..]);
      Success([first] + rest)
  }

  function ParseParameters(h: Numerals, raw: Option<string>): Parsed<seq<real>> {
    if raw.None? || Trim(raw.value) == [] then Success([]) else ParseExpressions(h, Split(raw.value, ','))
  }

  function ParseOperand(raw: string, qubit: Register): Parsed<nat> {
    match MatchIndexed(Trim(raw))
    case None => Failure(InvalidOperand)
    case Some((name, index, tail)) =>
      if tail != [] || name != qubit.name || index >= qubit.size then Failure(InvalidOperand) else Success(index)
  }

  function ParseOperands(items: seq<string>, qubit: Register): Parsed<seq<nat>> {
    if items == [] then Success([])
    else
      var first :- ParseOperand(items[0], qubit);
      var rest :- ParseOperands(items[1..], qubit);
      Success([first] + rest)
  }

  const PARSED_GATES: seq<GateName> :=
    [I, X, Y, Z, H, SX, S, SDG, T, TDG, RX, RY, RZ, U, P, CX, CY, CH, CP, CZ, CCX, SWAP, CSWAP]

  function FindGate(gates: seq<GateName>, name: string): Option<GateName> {
    if gates == [] then Option.None
    else if GateText(gates[0]) == name then Option.Some(gates[0])
    else FindGate(gates[1..], name)
  }

  function LookupGate(name: string): Option<GateName> {
    if name == "cnot" then Option.Some(CX) else FindGate(PARSED_GATES, name)
  }

  /** The gate a name stands for, with the parameters its alias adds. */
  function ResolveGate(pi: real, raw: string, params: seq<real>): Parsed<(GateName, seq<real>)> {
    var lower := Lower(raw);
    if lower == "u1" then Success((U, [0.0, 0.0] + params))
    else if lower == "u2" then Success((U, [pi / 2.0] + params))
    else if lower == "u3" then Success((U, params))
    // inherited table members have no arity
    else if lower in {"constructor", "__proto__"} then Failure(InvalidParameter)
    else
      match LookupGate(lower)
      case None => Failure(UnsupportedGate)
      case Some(g) => Success((g, params))
  }

  function OperationId(k: nat): string { "op-" + NatText(k) }

  function ToOperation(g: GateName, params: seq<real>, operands: seq<nat>, k: nat): Operation
    requires k >= 1 && |operands| == TargetCount(g) + ControlCount(g)
  {
    if ControlCount(g) > 0 then
      Operation(OperationId(k), g, operands[ControlCount(g)..], operands[..ControlCount(g)], params, k - 1)
    else if g == SWAP then Operation(OperationId(k), g, [operands[0], operands[1]], [], [], k - 1)
    else Operation(OperationId(k), g, [operands[0]], [], params, k - 1)
  }

  function ParseGate(h: Numerals, pi: real, s: string, qubit: Register, k: nat): Parsed<Operation>
    requires k >= 1
  {
    match MatchGate(s)
    case None => Failure(UnsupportedStatement)
    case Some((name, group, operandText)) =>
      var params :- ParseParameters(h, group);
      var resolved :- ResolveGate(pi, name, params);
      if |resolved.1| != ParamCount(resolved.0) then Failure(InvalidParameter)
      else
        var items := Split(operandText, ',');
        if |items| != TargetCount(resolved.0) + ControlCount(resolved.0) then Failure(InvalidOperand)
        else
          var operands :- ParseOperands(items, qubit);
          if |operands| != |items| then Failure(InvalidOperand)
          else Success(ToOperation(resolved.0, resolved.1, operands, k))
  }

  function ParseMeasure(m: (string, nat, string, nat), qubit: Register, bit: Option<Register>,
                        k: nat): Parsed<Operation>
    requires k >= 1
  {
    if bit.Some? && (m.0 != bit.value.name || m.1 >= bit.value.size) then Failure(InvalidOperand)
    else if m.2 != qubit.name || m.3 >= qubit.size then Failure(InvalidOperand)
    else Success(Operation(OperationId(k), M, [m.3], [], [], k - 1))
  }

  // ----- the statement loop

  datatype State = State(hasHeader: bool, qubit: Option<Register>, bit: Option<Register>, operations: seq<Operation>)

  const START := State(false, Option.None, Option.None, [])

  function Step(h: Numerals, pi: real, st: State, s: string): Parsed<State> {
    if IsHeader(s) then Success(st.(hasHeader := true))
    else if IsInclude(s) then Success(st)
    else
      var q := MatchDeclaration("qubit", s);
      if q.Some? then Success(st.(qubit := q))
      else
        var b := MatchDeclaration("bit", s);
        if b.Some? then Success(st.(bit := b))
        else if !st.hasHeader then Failure(MissingHeader)
        else if st.qubit.None? then Failure(MissingDeclaration)
        else
          var k := |st.operations| + 1;
          var m := MatchMeasure(s);
          var op :- if m.Some? then ParseMeasure(m.value, st.qubit.value, st.bit, k)
            else ParseGate(h, pi, s, st.qubit.value, k);
          Success(st.(operations := st.operations + [op]))
  }

  function Steps(h: Numerals, pi: real, st: State, statements: seq<string>): Parsed<State>
    decreases statements
  {
    if statements == [] then Success(st)
    else
      var next :- Step(h, pi, st, statements[0]);
      Steps(h, pi, next, statements[1..])
  }

  ghost function Finish(st: State): Parsed<Circuit> {
    if !st.hasHeader then Failure(MissingHeader)
    else if st.qubit.None? then Failure(MissingDeclaration)
    else if !Legal(st.operations) then Failure(InvalidCircuit)
    else Success(Circuit(st.qubit.value.size, st.operations))
  }

  /** What a source text means: its circuit, or the first error. */
  ghost function Meaning(h: Numerals, pi: real, source: string): Parsed<Circuit> {
    var statements :- LineStatements(SplitLines(source));
    var st :- Steps(h, pi, START, statements);
    Finish(st)
  }

  // ----- the loops

  method ParseStatementLines(source: string) returns (r: Parsed<seq<string>>)
    ensures r == LineStatements(SplitLines(source))
  {
    hide LineStatement, SplitLines;
    var lines := SplitLines(source);
    var statements: seq<string> := [];
    PrefixNothing(LineStatements(lines));
    assert lines[0..] == lines;
    for k := 0 to |lines|
      invariant Prefixed(statements, LineStatements(lines[k..])) == LineStatements(lines)
    {
      assert lines[k..][1..] == lines[k + 1..];
      var item := LineStatement(lines[k]);
      if item.Failure? {
        return Failure(item.code);
      }
      PrefixStep(statements, lines[k..]);
      statements := statements + Optional(item.value);
    }
    assert lines[|lines|..] == [] && statements + [] == statements;
    return Success(statements);
  }

  function Prefixed(done: seq<string>, rest: Parsed<seq<string>>): Parsed<seq<string>> {
    match rest
    case Success(s) => Success(done + s)
    case Failure(code) => Failure(code)
  }

  function Optional(item: Option<string>): seq<string> {
    if item.Some? then [item.value] else []
  }

  lemma PrefixStep(done: seq<string>, lines: seq<string>)
    requires lines != [] && LineStatement(lines[0]).Success?
    ensures Prefixed(done, LineStatements(lines)) ==
            Prefixed(done + Optional(LineStatement(lines[0]).value), LineStatements(lines[1..]))
  {
    hide LineStatement;
    var item := LineStatement(lines[0]).value;
    var rest := LineStatements(lines[1..]);
    if rest.Success? {
      assert done + (Optional(item) + rest.value) == (done + Optional(item)) + rest.value;
    }
  }

  lemma PrefixNothing(rest: Parsed<seq<string>>)
    ensures Prefixed([], rest) == rest
  {
    if rest.Success? { assert [] + rest.value == rest.value; }
  }

  lemma OperationIdInjective(a: nat, b: nat)
    requires OperationId(a) == OperationId(b)
    ensures a == b
  {
    assert OperationId(a)[3..] == NatText(a) && OperationId(b)[3..] == NatText(b);
    NatTextInjective(a, b);
  }

  predicate NumberedFrom(ops: seq<Operation>) {
    forall k :: 0 <= k < |ops| ==> ops[k].id == OperationId(k + 1) && ops[k].layer == k
  }

  lemma NumberedUniquely(ops: seq<Operation>)
    requires NumberedFrom(ops)
    ensures NamedUniquely(ops)
  {
    forall i, j | 0 <= i < j < |ops| ensures ops[i].id != ops[j].id {
      if OperationId(i + 1) == OperationId(j + 1) { OperationIdInjective(i + 1, j + 1); }
    }
  }

  lemma StepNumbers(h: Numerals, pi: real, st: State, s: string)
    requires NumberedFrom(st.operations) && Step(h, pi, st, s).Success?
    ensures NumberedFrom(Step(h, pi, st, s).value.operations)
  {
    hide IsHeader, IsInclude, MatchDeclaration, MatchMeasure, MatchGate, ParseParameters, ResolveGate, ParseOperands,
      Split;
  }

  /** The statement loop, followed by the legality check of the collected operations. */
  method ParseStatements(h: Numerals, pi: real, statements: seq<string>, idLe: (string, string) -> bool)
    returns (r: Parsed<Circuit>)
    ensures r == match Steps(h, pi, START, statements)
                 case Failure(code) => Failure(code)
                 case Success(st) => Finish(st)
  {
    hide Step, Legal, NumberedFrom, NamedUniquely;
    var st := START;
    assert NumberedFrom(st.operations) by { NothingNumbered(); }
    for k := 0 to |statements|
      invariant Steps(h, pi, st, statements[k..]) == Steps(h, pi, START, statements)
      invariant NumberedFrom(st.operations)
    {
      assert statements[k..][1..] == statements[k + 1..];
      var next := Step(h, pi, st, statements[k]);
      if next.Failure? {
        return Failure(next.code);
      }
      StepNumbers(h, pi, st, statements[k]);
      st := next.value;
    }
    assert statements[|statements|..] == [];
    if !st.hasHeader {
      return Failure(MissingHeader);
    }
    if st.qubit.None? {
      return Failure(MissingDeclaration);
    }
    NumberedUniquely(st.operations);
    var model := Circuit(st.qubit.value.size, st.operations);
    var validation := ValidateCircuitModel(model, idLe);
    if !validation.Ok? {
      return Failure(InvalidCircuit);
    }
    return Success(model);
  }

  lemma NothingNumbered()
    ensures NumberedFrom([])
  {}

  method ParseQasm3(h: Numerals, pi: real, source: string, idLe: (string, string) -> bool) returns (r: Parsed<Circuit>)
    ensures r == Meaning(h, pi, source)
  {
    var statements := ParseStatementLines(source);
    if statements.Failure? {
      return Failure(statements.code);
    }
    r := ParseStatements(h, pi, statements.value, idLe);
  }
}
