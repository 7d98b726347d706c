/** Printing a circuit as OpenQASM 3 text. */
module QasmPrinter {
  import opened Options
  import opened Text
  import opened Circuits
  import opened QasmStatements
  import opened CircuitValidation

  /** What the host's number evaluator makes of a parameter text. */
  datatype Evaluated = Value(x: real) | NotFinite | Throws

  /**
   * The host's number formatting and evaluation.  `rounded` is the number that is read back from the text
   * of a number.
   */
  datatype Numerals = Numerals(format: real -> string, eval: string -> Evaluated, rounded: real -> real)

  predicate NumeralChar(c: char) { IsDigit(c) || c in {'.', '-', '+', 'e'} }

  /** The text is written without an exponent. */
  predicate Plain(s: string) { 'e' !in s }

  ghost predicate NumeralLaw(h: Numerals, x: real) {
    && h.format(x) != "" && All(h.format(x), NumeralChar)
    && (Plain(h.format(x)) ==> h.eval(h.format(x)) == Value(h.rounded(x)) && h.format(h.rounded(x)) == h.format(x))
  }

  /** Formatted numbers use digits, sign, point and exponent, and are read back when they have no exponent. */
  ghost predicate Codec(h: Numerals) {
    forall x :: NumeralLaw(h, x)
  }

  function GateText(g: GateName): string {
    match g
    case I => "i" case X => "x" case Y => "y" case Z => "z" case H => "h" case SX => "sx" case SY => "sy"
    case S => "s" case SDG => "sdg" case T => "t" case TDG => "tdg"
    case RX => "rx" case RY => "ry" case RZ => "rz" case U => "u" case P => "p"
    case CX => "cx" case CY => "cy" case CH => "ch" case CP => "cp" case CZ => "cz" case CCX => "ccx" case CCZ => "ccz"
    case SWAP => "swap" case CSWAP => "cswap" case RXX => "rxx" case RYY => "ryy" case RZZ => "rzz" case RZX => "rzx"
    case M => "m"
  }

  function Indexed(name: string, i: nat): string {
    name + "[" + NatText(i) + "]"
  }

  function Formatted(h: Numerals, params: seq<real>): (r: seq<string>)
    ensures |r| == |params| && forall i :: 0 <= i < |r| ==> r[i] == h.format(params[i])
  {
    if params == [] then [] else [h.format(params[0])] + Formatted(h, params[1..])
  }

  function Operands(qs: seq<nat>): (r: seq<string>)
    ensures |r| == |qs| && forall i :: 0 <= i < |r| ==> r[i] == Indexed("q", qs[i])
  {
    if qs == [] then [] else [Indexed("q", qs[0])] + Operands(qs[1..])
  }

  /** A statement without its semicolon. */
  function Body(h: Numerals, s: Stmt): string {
    match s
    case MeasureStmt(b, q) => Indexed("c", b) + " = measure " + Indexed("q", q)
    case GateStmt(g, params, operands) =>
      GateText(g) + (if params == [] then "" else "(" + Join(Formatted(h, params), ", ") + ")")
      + " " + Join(Operands(operands), ", ")
  }

  function Preamble(n: nat): seq<string> {
    ["OPENQASM 3", "include \"stdgates.inc\"", "qubit[" + NatText(n) + "] q", "bit[" + NatText(n) + "] c"]
  }

  /** All statements of a circuit in (layer, id) order, or nothing when some operation lacks operands. */
  function AllStatements(pi: real, ops: seq<Operation>): Serialized {
    if ops == [] then Lines([])
    else
      match (SerializeOperation(pi, ops[0]), AllStatements(pi, ops[1..]))
      case (Lines(a), Lines(b)) => Lines(a + b)
      case _ => Serialized.Throws
  }

  function Bodies(h: Numerals, stmts: seq<Stmt>): (r: seq<string>)
    ensures |r| == |stmts| && forall i :: 0 <= i < |r| ==> r[i] == Body(h, stmts[i])
  {
    if stmts == [] then [] else [Body(h, stmts[0])] + Bodies(h, stmts[1..])
  }

  function Terminated(bodies: seq<string>): (r: seq<string>)
    ensures |r| == |bodies| && forall i :: 0 <= i < |r| ==> r[i] == bodies[i] + ";"
  {
    if bodies == [] then [] else [bodies[0] + ";"] + Terminated(bodies[1..])
  }

  /** The text of a list of statement bodies. */
  function TextOf(bodies: seq<string>): string {
    Join(Terminated(bodies), "\n") + "\n"
  }

  function Printed(h: Numerals, pi: real, model: Circuit, idLe: (string, string) -> bool): Option<string> {
    match AllStatements(pi, SortOperations(model.operations, idLe))
    case Throws => Option.None
    case Lines(stmts) => Option.Some(TextOf(Preamble(model.numQubits) + Bodies(h, stmts)))
  }

  lemma {:induction false} AllStatementsSnoc(pi: real, ops: seq<Operation>, op: Operation)
    ensures AllStatements(pi, ops + [op]) ==
      match (AllStatements(pi, ops), SerializeOperation(pi, op))
      case (Lines(a), Lines(b)) => Lines(a + b)
      case _ => Serialized.Throws
  {
    hide SerializeOperation;
    if ops == [] {
      assert [] + [op] == [op] && [op][1..] == [];
      match SerializeOperation(pi, op)
      case Lines(a) => assert a + [] == a && [] + a == a;
      case Throws =>
    } else {
      AllStatementsSnoc(pi, ops[1..], op);
      assert (ops + [op])[1..] == ops[1..] + [op];
      match (SerializeOperation(pi, ops[0]), AllStatements(pi, ops[1..]), SerializeOperation(pi, op))
      case (Lines(a), Lines(b), Lines(c)) => assert a + (b + c) == a + b + c;
      case _ =>
    }
  }

  lemma {:induction false} BodiesConcat(h: Numerals, a: seq<Stmt>, b: seq<Stmt>)
    ensures Bodies(h, a + b) == Bodies(h, a) + Bodies(h, b)
  {
    hide Body;
    assert forall i :: 0 <= i < |a + b| ==> Bodies(h, a + b)[i] == (Bodies(h, a) + Bodies(h, b))[i];
  }

  /** Pushing the lines of one more operation. */
  lemma PushLines(h: Numerals, pi: real, preamble: seq<string>, ops: seq<Operation>, op: Operation, done: seq<Stmt>,
                  stmts: seq<Stmt>)
    requires AllStatements(pi, ops) == Lines(done) && SerializeOperation(pi, op) == Lines(stmts)
    ensures AllStatements(pi, ops + [op]) == Lines(done + stmts)
    ensures Terminated(preamble + Bodies(h, done)) + Terminated(Bodies(h, stmts)) ==
            Terminated(preamble + Bodies(h, done + stmts))
  {
    hide SerializeOperation, AllStatements, Bodies, Terminated;
    AllStatementsSnoc(pi, ops, op);
    BodiesConcat(h, done, stmts);
    TerminatedConcat(preamble + Bodies(h, done), Bodies(h, stmts));
    ConcatAssociates(preamble, Bodies(h, done), Bodies(h, stmts));
  }

  lemma NoLines(h: Numerals, pi: real, preamble: seq<string>)
    ensures AllStatements(pi, []) == Lines([]) && Terminated(preamble + Bodies(h, [])) == Terminated(preamble)
  {
    assert preamble + [] == preamble;
  }

  /** The printer pushes the lines of one operation after the other. */
  method ToQasm3(h: Numerals, pi: real, model: Circuit, idLe: (string, string) -> bool) returns (text: Option<string>)
    ensures text == Printed(h, pi, model, idLe)
  {
    hide Bodies, Terminated, AllStatements, SerializeOperation, Join, Preamble, SortOperations;
    var ops := SortOperations(model.operations, idLe);
    var preamble := Preamble(model.numQubits);
    var lines := Terminated(preamble);
    ghost var done: seq<Stmt> := [];
    NoLines(h, pi, preamble);
    assert ops[..0] == [];
    for k := 0 to |ops|
      invariant AllStatements(pi, ops[..k]) == Lines(done)
      invariant lines == Terminated(preamble + Bodies(h, done))
    {
      assert ops[..k + 1] == ops[..k] + [ops[k]];
      match SerializeOperation(pi, ops[k])
      case Throws =>
        AllStatementsSnoc(pi, ops[..k], ops[k]);
        ThrowsEarly(pi, ops, k + 1);
        return Option.None;
      case Lines(stmts) =>
        PushLines(h, pi, preamble, ops[..k], ops[k], done, stmts);
        lines := lines + Terminated(Bodies(h, stmts));
        done := done + stmts;
    }
    assert ops[..|ops|] == ops;
    return Option.Some(Join(lines, "\n") + "\n");
  }

  lemma {:induction false} TerminatedConcat(a: seq<string>, b: seq<string>)
    ensures Terminated(a + b) == Terminated(a) + Terminated(b)
  {
    assert forall i :: 0 <= i < |a + b| ==> Terminated(a + b)[i] == (Terminated(a) + Terminated(b))[i];
  }

  lemma {:induction false} ThrowsEarly(pi: real, ops: seq<Operation>, k: nat)
    requires k <= |ops| && AllStatements(pi, ops[..k]).Throws?
    ensures AllStatements(pi, ops).Throws?
    decreases |ops| - k
  {
    hide SerializeOperation;
    if k == |ops| {
      assert ops[..k] == ops;
    } else {
      AllStatementsSnoc(pi, ops[..k], ops[k]);
      assert ops[..k + 1] == ops[..k] + [ops[k]];
      ThrowsEarly(pi, ops, k + 1);
    }
  }
}
