/** The instruction set and the shape of a compiled chunk. */
module Bytecode {
  import opened Values

  datatype Instruction =
    | OpConstant(idx: nat)
    | OpNil
    | OpTrue
    | OpFalse
    | OpGetGlobal(name: string)
    | OpSetGlobal(name: string, asConst: bool)
    | OpAssignGlobal(name: string)
    | OpArray(count: nat)
    | OpSlice
    | OpIndex
    | OpDup
    | OpMatchSeqLenEq(count: nat)
    | OpMatchSeqLenGte(count: nat)
    | OpMatchSeqTail(count: nat)
    | OpPushScope
    | OpPopScope
    | OpBinary(op: BinOp)
    | OpPrefix(prefix: PrefixOp)
    | OpPop
    | OpJump(target: nat)
    | OpJumpIfFalse(target: nat)
    | OpThrow
    | OpReturn

  datatype Chunk = Chunk(code: seq<Instruction>, consts: seq<Value>)

  predicate IsJump(ins: Instruction) { ins.OpJump? || ins.OpJumpIfFalse? }

  /** Every jump goes forward and stays inside the chunk (or just past its end). */
  predicate Forward(ch: Chunk) {
    forall k | 0 <= k < |ch.code| && IsJump(ch.code[k]) :: k < ch.code[k].target <= |ch.code|
  }
}
