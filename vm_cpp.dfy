/** The virtual machine of the C++ toolchain (`virtual_machine`): a
    static machine holding the lump it runs and a program counter into
    the lump's bytes (an offset here). The printed constants are
    returned, in order. */
module VmCpp {
  import opened Base
  import opened Opcodes
  import opened Encoding
  import opened Execution
  import LumpCpp

  /** The results `run` can answer: only `virtual_machine::OK` is ever
      produced. */
  datatype Result = Ok

  class Vm {
    var lump: LumpCpp.Lump?
    var pc: nat

    /** The zero-initialised static machine: no lump yet. */
    constructor ()
      ensures lump == null && pc == 0
    {
      lump := null;
      pc := 0;
    }

    /** `READ_BYTE`: the byte at `pc`, which moves past it. */
    method ReadByte() returns (b: Byte)
      requires lump != null && lump.Sized() && pc < lump.count
      modifies this`pc
      ensures b == lump.Bytes()[old(pc)] && pc == old(pc) + 1
    {
      b := lump.code[pc];
      pc := pc + 1;
    }

    /** `run`: fetches and decodes from `pc` until a `RETURN`, printing
        the constant of every load on the way. The source checks neither
        the end of the bytes nor the pool's count, so the run from `pc`
        must halt without reading past either. */
    method Run() returns (result: Result, out: seq<real>)
      requires lump != null && lump.Sized() && lump.constants.Valid()
      requires Exec(lump.Bytes(), lump.constants.Items(), pc).Halted?
      modifies this`pc
      ensures result == Ok
      ensures Exec(lump.Bytes(), lump.constants.Items(), old(pc)) == Halted(out, pc)
    {
      ghost var code, pool := lump.Bytes(), lump.constants.Items();
      ghost var start := pc;
      out := [];
      assert out + Exec(code, pool, pc).emitted == Exec(code, pool, pc).emitted;
      while true
        invariant lump != null && code == lump.Bytes() && pool == lump.constants.Items()
        invariant Resumes(code, pool, start, out, pc)
        decreases |code| - pc
      {
        ghost var at := pc;
        var instruction := ReadByte();
        if instruction == OpReturn {
          ResumesAtReturn(code, pool, start, out, at);
          return Ok, out;
        } else if instruction == OpConstant {
          ResumesPastLoad(code, pool, start, out, at);
          var index := ReadByte();
          assert index == DecodeAt(code, at).index.value;
          var value := lump.constants.slots[index];
          assert value == pool[index];
          out := out + [value];
        } else if instruction == OpConstantLong {
          ResumesPastLoad(code, pool, start, out, at);
          var byte1 := ReadByte();
          var byte2 := ReadByte();
          var index := byte1 as int * 256 + byte2 as int;
          assert index == DecodeAt(code, at).index.value;
          var value := lump.constants.slots[index];
          assert value == pool[index];
          out := out + [value];
        } else {
          ResumesPastSkip(code, pool, start, out, at);
        }
      }
    }

    /** `virtual_machine::interpret`: the machine takes the lump, starts at
        its first byte and runs. On a lump built by appends, what it prints
        is what the appended loads before the first `RETURN` name. */
    method Interpret(lmp: LumpCpp.Lump) returns (result: Result, out: seq<real>)
      requires lmp.Sized() && lmp.constants.Valid()
      requires Exec(lmp.Bytes(), lmp.constants.Items(), 0).Halted?
      modifies this
      ensures result == Ok && lump == lmp
      ensures Exec(lmp.Bytes(), lmp.constants.Items(), 0) == Halted(out, pc)
      ensures lmp.Valid() && Decodable(lmp.written) ==>
                Some(out) == Emits(lmp.written, lmp.constants.Items())
    {
      lump := lmp;
      pc := 0;
      result, out := Run();
      if lmp.Valid() && Decodable(lmp.written) {
        RunsAppends(lmp.written, lmp.constants.Items());
      }
    }
  }

  /** The C++ driver appends five loads, a `RETURN` and then more loads
      and line markers: the machine prints the first five constants and
      nothing appended after the `RETURN`. */
  lemma DriverPrintsFirstFive(ys: seq<Instr>, pool: seq<real>)
    requires |pool| >= 5
    ensures var xs := [Constant(0), Constant(1), Constant(2), Constant(3), Constant(4), Code(OpReturn)];
            Emits(xs + ys, pool) == Some(pool[..5])
  {
    var loads := [Constant(0), Constant(1), Constant(2), Constant(3), Constant(4)];
    NothingAfterReturn(loads, ys, pool);
    var r := [Code(OpReturn)];
    assert Emits(r, pool) == Some([]);
    EmitsLoadFirst(4, r, pool);
    EmitsLoadFirst(3, [Constant(4)] + r, pool);
    EmitsLoadFirst(2, [Constant(3)] + ([Constant(4)] + r), pool);
    EmitsLoadFirst(1, [Constant(2)] + ([Constant(3)] + ([Constant(4)] + r)), pool);
    EmitsLoadFirst(0, [Constant(1)] + ([Constant(2)] + ([Constant(3)] + ([Constant(4)] + r))), pool);
    assert loads + r == [Constant(0)] + ([Constant(1)] + ([Constant(2)] + ([Constant(3)] + ([Constant(4)] + r))));
    var xs := [Constant(0), Constant(1), Constant(2), Constant(3), Constant(4), Code(OpReturn)];
    assert xs == loads + r && xs + ys == loads + [Code(OpReturn)] + ys;
    assert pool[..5] == [pool[0]] + ([pool[1]] + ([pool[2]] + ([pool[3]] + ([pool[4]] + []))));
  }
}
