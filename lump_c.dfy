/** The bytecode buffer of the C toolchain (`struct lump`): a growable
    byte array with a count of written bytes, and its own constant pool.
    Every append writes after the last written byte and never changes an
    earlier one; the ghost record of the appended instructions ties the
    bytes to their encoding. */
module LumpC {
  import opened Base
  import opened Opcodes
  import opened Encoding
  import ConstantArrays

  /** Bytes added at creation and by each growth (`LUMP_BUFFER_COUNT`). */
  const Block: nat := 8

  class Lump {
    var code: array<Byte>
    var count: nat
    const constants: ConstantArrays.ConstantArray
    ghost var written: seq<Instr>

    /** The written bytes fit in the array, whose length is a whole number
        of blocks. */
    ghost predicate Sized()
      reads this
    {
      count <= code.Length && Block <= code.Length && code.Length % Block == 0
    }

    /** The bytes written so far. */
    ghost function Bytes(): seq<Byte>
      reads this, code
      requires Sized()
    {
      code[..count]
    }

    /** The bytes are the encoding of the appended instructions, and every
        load names an entry of the pool. */
    ghost predicate Valid()
      reads this, code, constants
    {
      Sized() && constants.Valid() &&
      Bytes() == Encode(written) && LoadsInPool(written, constants.count)
    }

    /** `lump_init`: no bytes, room for one block, an empty pool. */
    constructor ()
      ensures Valid() && fresh(code) && fresh(constants) && fresh(constants.slots)
      ensures count == 0 && code.Length == Block && written == []
      ensures constants.Items() == []
    {
      code := new Byte[Block];
      count := 0;
      constants := new ConstantArrays.ConstantArray();
      written := [];
    }

    /** `lump_grow`: one more block; the written bytes move over unchanged. */
    method Grow()
      requires Sized()
      modifies this`code
      ensures Sized() && fresh(code)
      ensures code.Length == old(code.Length) + Block
      ensures code[..old(code.Length)] == old(code[..])
    {
      var bigger := new Byte[code.Length + Block];
      forall i | 0 <= i < code.Length {
        bigger[i] := code[i];
      }
      code := bigger;
    }

    /** `lump_add_code_niladic`: appends one byte, growing first when every
        byte is used. */
    method AddNiladic(op: Byte)
      requires Sized()
      modifies this`code, this`count, code
      ensures Sized() && (code == old(code) || fresh(code))
      ensures Bytes() == old(Bytes()) + [op]
      ensures code.Length == if old(count) == old(code.Length)
                             then old(code.Length) + Block
                             else old(code.Length)
    {
      if count == code.Length {
        Grow();
      }
      code[count] := op;
      count := count + 1;
    }

    /** `lump_add_code_monadic`: appends an opcode and one operand byte,
        growing first when the two do not fit. */
    method AddMonadic(op: Byte, val: Byte)
      requires Sized()
      modifies this`code, this`count, code
      ensures Sized() && (code == old(code) || fresh(code))
      ensures Bytes() == old(Bytes()) + [op, val]
      ensures code.Length == if old(count) + 1 >= old(code.Length)
                             then old(code.Length) + Block
                             else old(code.Length)
    {
      if count + 1 >= code.Length {
        Grow();
      }
      code[count] := op;
      code[count + 1] := val;
      count := count + 2;
    }

    /** `lump_add_code_dyladic`: appends an opcode and the 16-bit operand,
        high byte first, growing first when the three do not fit. */
    method AddDyladic(op: Byte, val: Word)
      requires Sized()
      modifies this`code, this`count, code
      ensures Sized() && (code == old(code) || fresh(code))
      ensures Bytes() == old(Bytes()) + [op, val / 256, val % 256]
      ensures code.Length == if old(count) + 2 >= old(code.Length)
                             then old(code.Length) + Block
                             else old(code.Length)
    {
      if count + 2 >= code.Length {
        Grow();
      }
      code[count] := op;
      code[count + 1] := val / 256;
      code[count + 2] := val % 256;
      count := count + 3;
    }

    /** `lump_add_code`: appends the opcode and answers its offset. */
    method AddCode(op: Byte) returns (offset: int)
      requires Valid()
      modifies this`code, this`count, this`written, code
      ensures Valid() && (code == old(code) || fresh(code))
      ensures offset == old(count) && count == old(count) + 1
      ensures written == old(written) + [Code(op)]
      ensures Bytes() == old(Bytes()) + [op]
    {
      ghost var before := written;
      AddNiladic(op);
      written := before + [Code(op)];
      EncodeAppend(before, Code(op));
      assert Bytes() == Encode(written);
      LoadsInBiggerPool(before, Code(op), constants.count, constants.count);
      offset := count - 1;
    }

    /** The branch of `lump_add_constant` that writes the load of pool
        entry `index`: the monadic form below 256, the dyladic one
        otherwise. */
    method AddLoad(index: nat)
      requires Sized()
      modifies this`code, this`count, code
      ensures Sized() && (code == old(code) || fresh(code))
      ensures Bytes() == old(Bytes()) + InstrBytes(Constant(index))
      ensures count == old(count) + (if index < 256 then 2 else 3)
    {
      if index < 256 {
        AddMonadic(OpConstant, index);
      } else {
        AddDyladic(OpConstantLong, ToWord(index));
      }
    }

    /** `lump_add_constant`: adds `d` to the pool and appends the load of
        its index, in the short form below 256 and in the long form
        (through a 16-bit parameter) otherwise. It answers the pool index,
        not a code offset. */
    method AddConstant(d: real) returns (index: nat)
      requires Valid()
      modifies this`code, this`count, this`written, code, constants, constants.slots
      ensures Valid() && (code == old(code) || fresh(code))
      ensures constants.slots == old(constants.slots) || fresh(constants.slots)
      ensures index == old(constants.count)
      ensures constants.Items() == old(constants.Items()) + [d]
      ensures written == old(written) + [Constant(index)]
      ensures Bytes() == old(Bytes()) + InstrBytes(Constant(index))
      ensures count == old(count) + (if index < 256 then 2 else 3)
    {
      ghost var before := written;
      ghost var pool := constants.count;
      index := constants.Add(d);
      AddLoad(index);
      written := before + [Constant(index)];
      EncodeAppend(before, Constant(index));
      assert Bytes() == Encode(written);
      LoadsInBiggerPool(before, Constant(index), pool, constants.count);
    }
  }
}
