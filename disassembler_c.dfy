/** The disassembler of the C toolchain: it walks a lump's written bytes
    and prints one row per instruction. Printing is modelled as the rows
    returned, in order; the row format is `Listings.Row`. */
module DisassemblerC {
  import opened Base
  import opened Opcodes
  import opened Encoding
  import opened Listings
  import LumpC

  const NotFound := "Instruction not found..."

  /** The names `print_code` prints, by opcode value. */
  const Names: seq<string> :=
    ["OP_RETURN", "OP_LINE_INC", "OP_CONSTANT", "OP_CONSTANT_LONG",
     "OP_NOT_EQUAL", "OP_EQUAL", "OP_GREATER", "OP_GREATER_EQUAL",
     "OP_LESS", "OP_LESS_EQUAL", "OP_ADD", "OP_SUBSTRACT",
     "OP_MULTIPLY", "OP_MODULO", "OP_DIVIDE", "OP_LOGICAL_NOT", "OP_NEGATE"]

  /** The name of an opcode: every opcode but `OP_END_PROGRAM` has one,
      and any other byte is not found. */
  function Mnemonic(op: Byte): (name: string)
    ensures op < OpEndProgram ==> name == Names[op]
    ensures op >= OpEndProgram <==> name == NotFound
  {
    if op < |Names| then Names[op] else NotFound
  }

  /** No two opcodes share a name, so a row's name tells its opcode. */
  lemma MnemonicsDistinct(a: Byte, b: Byte)
    requires a < OpEndProgram && b < OpEndProgram && a != b
    ensures Mnemonic(a) != Mnemonic(b)
  {
    assert |Names| == 17;
    if |Names[a]| == |Names[b]| {
      // The names of equal length differ within their first few letters.
      assert Names[a][3..6] != Names[b][3..6] || Names[a][6..] != Names[b][6..];
    }
  }

  /** `lmp->constants->array[index]`, as far as the pool has been filled. */
  method ConstantAt(lmp: LumpC.Lump, index: nat) returns (value: Option<real>)
    requires lmp.constants.Valid()
    ensures value == if index < |lmp.constants.Items()| then Some(lmp.constants.Items()[index]) else None
  {
    if index < lmp.constants.count {
      value := Some(lmp.constants.slots[index]);
    } else {
      value := None;
    }
  }

  /** `print_op_constant`: the index is the byte after the opcode. */
  method PrintOpConstant(lmp: LumpC.Lump, offset: nat) returns (operand: Operand)
    requires lmp.Sized() && lmp.constants.Valid() && offset < lmp.count
    requires lmp.code[offset] == OpConstant
    ensures operand == OperandOf(DecodeAt(lmp.Bytes(), offset), lmp.constants.Items())
  {
    if offset + 1 < lmp.count {
      var index := lmp.code[offset + 1];
      var value := ConstantAt(lmp, index);
      operand := Load(index, value);
    } else {
      operand := Truncated;
    }
  }

  /** `print_op_constant_long`: the index is `byte1 << 8 | byte2`. */
  method PrintOpConstantLong(lmp: LumpC.Lump, offset: nat) returns (operand: Operand)
    requires lmp.Sized() && lmp.constants.Valid() && offset < lmp.count
    requires lmp.code[offset] == OpConstantLong
    ensures operand == OperandOf(DecodeAt(lmp.Bytes(), offset), lmp.constants.Items())
  {
    if offset + 2 < lmp.count {
      var index := lmp.code[offset + 1] as int * 256 + lmp.code[offset + 2] as int;
      var value := ConstantAt(lmp, index);
      operand := Load(index, value);
    } else {
      operand := Truncated;
    }
  }

  /** `print_code`: the name and operand of the instruction at `offset`;
      `next` is where it leaves the offset (on the last operand byte) and
      `line'` the line after a `LINE_INC`. */
  method PrintCode(lmp: LumpC.Lump, offset: nat, line: int)
      returns (text: string, operand: Operand, next: nat, line': int)
    requires lmp.Sized() && lmp.constants.Valid() && offset < lmp.count
    ensures var code := lmp.Bytes();
            text == Mnemonic(code[offset]) &&
            operand == OperandOf(DecodeAt(code, offset), lmp.constants.Items()) &&
            next + 1 == offset + Width(code[offset]) &&
            line' == LineAfter(code[offset], line)
  {
    var op := lmp.code[offset];
    text, next, line' := Mnemonic(op), offset, line;
    if op == OpConstant {
      operand := PrintOpConstant(lmp, offset);
      next := offset + 1;
    } else if op == OpConstantLong {
      operand := PrintOpConstantLong(lmp, offset);
      next := offset + 2;
    } else {
      operand := NoOperand;
      if op == OpLineInc {
        line' := line + 1;
      }
    }
  }

  /** `disassemble`: the rows of the whole lump, which are its listing. */
  method Disassemble(lmp: LumpC.Lump) returns (rows: seq<Row>)
    requires lmp.Sized() && lmp.constants.Valid()
    ensures rows == Listing(lmp.Bytes(), lmp.constants.Items(), Mnemonic)
  {
    ghost var code, pool := lmp.Bytes(), lmp.constants.Items();
    var cur, prev := 0, -1;
    var offset := 0;
    rows := [];
    while offset < lmp.count
      invariant rows + RowsFrom(code, pool, Mnemonic, offset, cur, prev) == Listing(code, pool, Mnemonic)
      decreases lmp.count - offset
    {
      RowsStep(rows, code, pool, Mnemonic, offset, cur, prev);
      var column := LabelOf(cur, prev);
      if cur != prev {
        prev := cur;
      }
      var text, operand, next, line := PrintCode(lmp, offset, cur);
      rows := rows + [Row(offset, column, text, operand)];
      cur := line;
      offset := next + 1;
    }
  }

  /** `disassemble_instruction`: the row text and operand of the
      instruction at `offset`, and the line it computes for it by counting
      the earlier bytes equal to `OP_LINE_INC` (a line it does not print). */
  method Instruction(lmp: LumpC.Lump, offset: nat) returns (text: string, operand: Operand, line: int)
    requires lmp.Sized() && lmp.constants.Valid() && offset < lmp.count
    ensures var code := lmp.Bytes();
            text == Mnemonic(code[offset]) &&
            operand == OperandOf(DecodeAt(code, offset), lmp.constants.Items()) &&
            line == RawLineIncs(code, offset)
  {
    line := 0;
    var i := 0;
    while i < offset
      invariant i <= offset
      invariant line == RawLineIncs(lmp.Bytes(), i)
    {
      if lmp.code[i] == OpLineInc {
        line := line + 1;
      }
      i := i + 1;
    }
    var next, after;
    text, operand, next, after := PrintCode(lmp, offset, line);
  }
}
