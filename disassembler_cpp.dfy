/** The disassembler of the C++ toolchain (`disassembler::`): it walks a lump's written bytes
    and prints one row per instruction. Printing is modelled as the rows
    returned, in order; the row format is `Listings.Row`. */
module DisassemblerCpp {
  import opened Base
  import opened Opcodes
  import opened Encoding
  import opened Listings
  import LumpCpp

  const NotFound := "Instruction not found..."

  /** The name of an opcode: only the two loads, `RETURN` and `LINE_INC`
      are named (the long load without the `OP_` prefix the short one
      has); any other byte is not found. */
  function Mnemonic(op: Byte): (name: string)
    ensures op > OpConstantLong <==> name == NotFound
  {
    if op == OpConstant then "OP_CONSTANT"
    else if op == OpConstantLong then "CONSTANT_LONG"
    else if op == OpReturn then "RETURN"
    else if op == OpLineInc then "LINE_INC"
    else NotFound
  }

  /** No two named opcodes share a name. */
  lemma MnemonicsDistinct(a: Byte, b: Byte)
    requires a <= OpConstantLong && b <= OpConstantLong && a != b
    ensures Mnemonic(a) != Mnemonic(b)
  {
    assert Mnemonic(a)[0] != Mnemonic(b)[0] || |Mnemonic(a)| != |Mnemonic(b)|;
  }

  /** `lmp->constants->array[index]`, as far as the pool has been filled. */
  method ConstantAt(lmp: LumpCpp.Lump, index: nat) returns (value: Option<real>)
    requires lmp.constants.Valid()
    ensures value == if index < |lmp.constants.Items()| then Some(lmp.constants.Items()[index]) else None
  {
    if index < lmp.constants.count {
      value := Some(lmp.constants.slots[index]);
    } else {
      value := None;
    }
  }

  /** `print_op_constant`: the index is the byte after the opcode. */
  method PrintOpConstant(lmp: LumpCpp.Lump, offset: nat) returns (operand: Operand)
    requires lmp.Sized() && lmp.constants.Valid() && offset < lmp.count
    requires lmp.code[offset] == OpConstant
    ensures operand == OperandOf(DecodeAt(lmp.Bytes(), offset), lmp.constants.Items())
  {
    if offset + 1 < lmp.count {
      var index := lmp.code[offset + 1];
      var value := ConstantAt(lmp, index);
      operand := Load(index, value);
    } else {
      operand := Truncated;
    }
  }

  /** `print_op_constant_long`: the index is `byte1 << 8 | byte2`. */
  method PrintOpConstantLong(lmp: LumpCpp.Lump, offset: nat) returns (operand: Operand)
    requires lmp.Sized() && lmp.constants.Valid() && offset < lmp.count
    requires lmp.code[offset] == OpConstantLong
    ensures operand == OperandOf(DecodeAt(lmp.Bytes(), offset), lmp.constants.Items())
  {
    if offset + 2 < lmp.count {
      var index := lmp.code[offset + 1] as int * 256 + lmp.code[offset + 2] as int;
      var value := ConstantAt(lmp, index);
      operand := Load(index, value);
    } else {
      operand := Truncated;
    }
  }

  /** `print_code`: the name and operand of the instruction at `offset`;
      `next` is where it leaves the offset (on the last operand byte) and
      `line'` the line after a `LINE_INC`. */
  method PrintCode(lmp: LumpCpp.Lump, offset: nat, line: int)
      returns (text: string, operand: Operand, next: nat, line': int)
    requires lmp.Sized() && lmp.constants.Valid() && offset < lmp.count
    ensures var code := lmp.Bytes();
            text == Mnemonic(code[offset]) &&
            operand == OperandOf(DecodeAt(code, offset), lmp.constants.Items()) &&
            next + 1 == offset + Width(code[offset]) &&
            line' == LineAfter(code[offset], line)
  {
    var op := lmp.code[offset];
    text, next, line' := Mnemonic(op), offset, line;
    if op == OpConstant {
      operand := PrintOpConstant(lmp, offset);
      next := offset + 1;
    } else if op == OpConstantLong {
      operand := PrintOpConstantLong(lmp, offset);
      next := offset + 2;
    } else {
      operand := NoOperand;
      if op == OpLineInc {
        line' := line + 1;
      }
    }
  }

  /** `disassembler::lump`: the rows of the whole lump, which are its
      listing. */
  method DisassembleLump(lmp: LumpCpp.Lump) returns (rows: seq<Row>)
    requires lmp.Sized() && lmp.constants.Valid()
    ensures rows == Listing(lmp.Bytes(), lmp.constants.Items(), Mnemonic)
  {
    ghost var code, pool := lmp.Bytes(), lmp.constants.Items();
    var cur, prev := 0, -1;
    var offset := 0;
    rows := [];
    while offset < lmp.count
      invariant rows + RowsFrom(code, pool, Mnemonic, offset, cur, prev) == Listing(code, pool, Mnemonic)
      decreases lmp.count - offset
    {
      RowsStep(rows, code, pool, Mnemonic, offset, cur, prev);
      var column := LabelOf(cur, prev);
      if cur != prev {
        prev := cur;
      }
      var text, operand, next, line := PrintCode(lmp, offset, cur);
      rows := rows + [Row(offset, column, text, operand)];
      cur := line;
      offset := next + 1;
    }
  }

  /** `disassembler::instruction`: the row text and operand of the
      instruction at `offset`, and the line it computes for it by counting
      the earlier bytes equal to `LINE_INC` (a line it does not print). */
  method Instruction(lmp: LumpCpp.Lump, offset: nat) returns (text: string, operand: Operand, line: int)
    requires lmp.Sized() && lmp.constants.Valid() && offset < lmp.count
    ensures var code := lmp.Bytes();
            text == Mnemonic(code[offset]) &&
            operand == OperandOf(DecodeAt(code, offset), lmp.constants.Items()) &&
            line == RawLineIncs(code, offset)
  {
    line := 0;
    var i := 0;
    while i < offset
      invariant i <= offset
      invariant line == RawLineIncs(lmp.Bytes(), i)
    {
      if lmp.code[i] == OpLineInc {
        line := line + 1;
      }
      i := i + 1;
    }
    var next, after;
    text, operand, next, after := PrintCode(lmp, offset, line);
  }
}
