/** What the fetch-decode loop of both virtual machines does with a
    lump: it reads an opcode at `pc`; `RETURN` stops it, a load prints
    the constant its operand bytes name, and every other byte is skipped.
    The printed constants are the emitted sequence. The loop has no end
    check and no pool check: a run that would read past the written bytes
    or past the pool's count is `Stuck` here, which the machines exclude
    by precondition. */
module Execution {
  import opened Base
  import opened Opcodes
  import opened Encoding

  datatype Outcome = Halted(emitted: seq<real>, pc: nat) | Stuck

  /** The run from `pc`: on `Halted`, the constants printed and where `pc`
      is left, one past the `RETURN`. */
  function Exec(code: seq<Byte>, pool: seq<real>, pc: nat): (o: Outcome)
    ensures o.Halted? ==> pc < o.pc <= |code| && code[o.pc - 1] == OpReturn
    decreases |code| - pc
  {
    if pc >= |code| then Stuck
    else
      var op := code[pc];
      if op == OpReturn then Halted([], pc + 1)
      else if IsNiladic(op) then Exec(code, pool, pc + 1)
      else
        var d := DecodeAt(code, pc);
        if d.index.None? || d.index.value >= |pool| then Stuck
        else match Exec(code, pool, pc + Width(op))
          case Stuck => Stuck
          case Halted(out, end) => Halted([pool[d.index.value]] + out, end)
  }

  /** A halting run past a bare opcode other than `RETURN` is the run
      from the next byte. */
  lemma ExecSkips(code: seq<Byte>, pool: seq<real>, pc: nat)
    requires pc < |code| && code[pc] != OpReturn && IsNiladic(code[pc])
    ensures Exec(code, pool, pc) == Exec(code, pool, pc + 1)
  {
  }

  /** A halting run past a load prints the constant its operand bytes
      name, then what the run after it prints. */
  lemma ExecLoads(code: seq<Byte>, pool: seq<real>, pc: nat)
    requires pc < |code| && !IsNiladic(code[pc]) && Exec(code, pool, pc).Halted?
    ensures var d, next := DecodeAt(code, pc), pc + Width(code[pc]);
            d.index.Some? && d.index.value < |pool| && next <= |code| &&
            Exec(code, pool, next).Halted? &&
            Exec(code, pool, pc).emitted == [pool[d.index.value]] + Exec(code, pool, next).emitted &&
            Exec(code, pool, pc).pc == Exec(code, pool, next).pc
  {
  }

  /** A run from `start` that has printed `out` so far and goes on from
      `pc`. */
  predicate Resumes(code: seq<Byte>, pool: seq<real>, start: nat, out: seq<real>, pc: nat)
  {
    var rest := Exec(code, pool, pc);
    rest.Halted? && Exec(code, pool, start) == Halted(out + rest.emitted, rest.pc)
  }

  lemma ResumesPastLoad(code: seq<Byte>, pool: seq<real>, start: nat, out: seq<real>, pc: nat)
    requires Resumes(code, pool, start, out, pc) && pc < |code| && !IsNiladic(code[pc])
    ensures var d := DecodeAt(code, pc);
            d.index.Some? && d.index.value < |pool| && pc + Width(code[pc]) <= |code| &&
            Resumes(code, pool, start, out + [pool[d.index.value]], pc + Width(code[pc]))
  {
    ExecLoads(code, pool, pc);
    var d, next := DecodeAt(code, pc), pc + Width(code[pc]);
    assert out + Exec(code, pool, pc).emitted == (out + [pool[d.index.value]]) + Exec(code, pool, next).emitted;
  }

  lemma ResumesPastSkip(code: seq<Byte>, pool: seq<real>, start: nat, out: seq<real>, pc: nat)
    requires Resumes(code, pool, start, out, pc) && pc < |code|
    requires code[pc] != OpReturn && IsNiladic(code[pc])
    ensures Resumes(code, pool, start, out, pc + 1)
  {
    ExecSkips(code, pool, pc);
  }

  lemma ResumesAtReturn(code: seq<Byte>, pool: seq<real>, start: nat, out: seq<real>, pc: nat)
    requires Resumes(code, pool, start, out, pc) && pc < |code| && code[pc] == OpReturn
    ensures Exec(code, pool, start) == Halted(out, pc + 1)
  {
    assert out + [] == out;
  }

  /** What one appended instruction adds in front of what the run after
      it prints (`tail`). */
  function Then(x: Instr, pool: seq<real>, tail: Option<seq<real>>): Option<seq<real>>
  {
    match x
    case Code(op) => if op == OpReturn then Some([]) else tail
    case Constant(i) =>
      if i >= |pool| || tail.None? then None else Some([pool[i]] + tail.value)
  }

  /** What a run over appended instructions should print: the constants
      the loads before the first `RETURN` name, or nothing at all
      (`None`) when no `RETURN` was appended or a load names an entry
      past the pool. */
  function Emits(xs: seq<Instr>, pool: seq<real>): Option<seq<real>>
  {
    if xs == [] then None else Then(xs[0], pool, Emits(xs[1..], pool))
  }

  /** A load in front prints its constant first. */
  lemma EmitsLoadFirst(i: nat, xs: seq<Instr>, pool: seq<real>)
    requires i < |pool| && Emits(xs, pool).Some?
    ensures Emits([Constant(i)] + xs, pool) == Some([pool[i]] + Emits(xs, pool).value)
  {
    assert ([Constant(i)] + xs)[1..] == xs;
  }

  function Printed(o: Outcome): Option<seq<real>>
  {
    if o.Halted? then Some(o.emitted) else None
  }

  /** The run over an appended instruction, whatever surrounds it. */
  lemma ExecStep(before: seq<Byte>, x: Instr, after: seq<Byte>, pool: seq<real>)
    requires Decodable([x])
    ensures var code := before + InstrBytes(x) + after;
            Printed(Exec(code, pool, |before|)) ==
            Then(x, pool, Printed(Exec(code, pool, |before| + |InstrBytes(x)|)))
  {
    StepOver(before, x, after);
    assert [x][0] == x;
  }

  lemma {:induction false} ExecAppended(before: seq<Byte>, xs: seq<Instr>, pool: seq<real>)
    requires Decodable(xs)
    ensures Printed(Exec(before + Encode(xs), pool, |before|)) == Emits(xs, pool)
    decreases |xs|
  {
    var code := before + Encode(xs);
    if xs == [] {
      assert code == before;
    } else {
      var x, rest := xs[0], xs[1..];
      var b := InstrBytes(x);
      Uncons(xs);
      assert code == before + b + Encode(rest) == (before + b) + Encode(rest);
      ExecStep(before, x, Encode(rest), pool);
      ExecAppended(before + b, rest, pool);
    }
  }

  /** A run over a lump's whole stream prints exactly the constants of
      the loads appended before the first `RETURN`, and halts exactly when
      a `RETURN` was appended and those loads name pool entries. */
  lemma RunsAppends(xs: seq<Instr>, pool: seq<real>)
    requires Decodable(xs)
    ensures Printed(Exec(Encode(xs), pool, 0)) == Emits(xs, pool)
  {
    ExecAppended([], xs, pool);
    assert [] + Encode(xs) == Encode(xs);
  }

  /** Whatever is appended after a `RETURN` is never run: it changes
      nothing that is printed. */
  lemma {:induction false} NothingAfterReturn(xs: seq<Instr>, ys: seq<Instr>, pool: seq<real>)
    ensures Emits(xs + [Code(OpReturn)] + ys, pool) == Emits(xs + [Code(OpReturn)], pool)
    decreases |xs|
  {
    if xs == [] {
      assert ([] + [Code(OpReturn)] + ys)[0] == Code(OpReturn);
      assert ([] + [Code(OpReturn)])[0] == Code(OpReturn);
    } else {
      var long, short := xs + [Code(OpReturn)] + ys, xs + [Code(OpReturn)];
      assert long[0] == xs[0] && short[0] == xs[0];
      assert long[1..] == xs[1..] + [Code(OpReturn)] + ys;
      assert short[1..] == xs[1..] + [Code(OpReturn)];
      NothingAfterReturn(xs[1..], ys, pool);
    }
  }
}
