/** The instruction set of the bytecode buffer: the byte value of each
    opcode, in declaration order, and how many bytes each instruction
    occupies in the stream. */
module Opcodes {
  import opened Base

  const OpReturn: Byte := 0
  const OpLineInc: Byte := 1
  const OpConstant: Byte := 2
  const OpConstantLong: Byte := 3
  const OpNotEqual: Byte := 4
  const OpEqual: Byte := 5
  const OpGreater: Byte := 6
  const OpGreaterEqual: Byte := 7
  const OpLess: Byte := 8
  const OpLessEqual: Byte := 9
  const OpAdd: Byte := 10
  const OpSubstract: Byte := 11
  const OpMultiply: Byte := 12
  const OpModulo: Byte := 13
  const OpDivide: Byte := 14
  const OpLogicalNot: Byte := 15
  const OpNegate: Byte := 16
  const OpEndProgram: Byte := 17

  /** True of the bytes that take no operand: everything except the two
      constant-loading opcodes. */
  predicate IsNiladic(op: Byte)
  {
    op != OpConstant && op != OpConstantLong
  }

  /** Bytes occupied by an instruction whose first byte is `op`: the
      opcode itself and its operand bytes. */
  function Width(op: Byte): (w: nat)
    ensures 1 <= w <= 3
    ensures w == 1 <==> IsNiladic(op)
  {
    if op == OpConstant then 2
    else if op == OpConstantLong then 3
    else 1
  }
}
