/** Circuits as the editor stores them, and the arity of every gate. */
module Circuits {
  import opened Bits

  datatype GateName =
    | I | X | Y | Z | H | SX | SY | S | SDG | T | TDG
    | RX | RY | RZ | U | P
    | CX | CY | CH | CP | CZ | CCX | CCZ
    | SWAP | CSWAP | RXX | RYY | RZZ | RZX
    | M

  /** Absent controls and parameters are empty sequences. */
  datatype Operation = Operation(id: string, gate: GateName, targets: seq<nat>, controls: seq<nat>, params: seq<real>,
                                 layer: int)

  datatype Circuit = Circuit(numQubits: nat, operations: seq<Operation>)

  function TargetCount(g: GateName): nat {
    if g in {SWAP, CSWAP, RXX, RYY, RZZ, RZX} then 2 else 1
  }

  function ControlCount(g: GateName): nat {
    if g in {CCX, CCZ} then 2 else if g in {CX, CY, CH, CP, CZ, CSWAP} then 1 else 0
  }

  function ParamCount(g: GateName): nat {
    if g == U then 3 else if g in {RX, RY, RZ, P, CP, RXX, RYY, RZZ, RZX} then 1 else 0
  }

  function Qubits(op: Operation): seq<nat> { op.targets + op.controls }

  /** The operation has as many operands and parameters as its gate takes. */
  predicate Shaped(op: Operation) {
    && |op.targets| == TargetCount(op.gate)
    && |op.controls| == ControlCount(op.gate)
    && |op.params| == ParamCount(op.gate)
  }

  /** The operation has the operands its gate takes, all inside a register of `n` qubits. */
  predicate WellFormed(op: Operation, n: nat) { Shaped(op) && Within(Qubits(op), n) }

  predicate AllWellFormed(ops: seq<Operation>, n: nat) {
    forall k :: 0 <= k < |ops| ==> WellFormed(ops[k], n)
  }

  lemma FirstTarget(op: Operation, n: nat)
    requires WellFormed(op, n)
    ensures op.targets[0] < n
  {
    assert Qubits(op)[0] == op.targets[0];
  }
}
