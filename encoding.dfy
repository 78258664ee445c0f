/** The byte form of the instructions the lump appends, and the walk
    that reads them back: the disassemblers and the virtual machines all
    step through a stream by the width of the opcode they meet. */
module Encoding {
  import opened Base
  import opened Opcodes

  /** An instruction as the lump appends it: a bare opcode
      (`lump_add_code`) or the load of pool entry `index`
      (`lump_add_constant`). */
  datatype Instr = Code(op: Byte) | Constant(index: nat)

  /** The bytes one append writes. A pool index below 256 is one operand
      byte; any other goes through a `uint16_t` parameter (so only its
      low 16 bits survive) and is written high byte first. */
  function InstrBytes(x: Instr): (r: seq<Byte>)
    ensures x.Code? ==> r == [x.op]
    ensures x.Constant? && x.index < 256 ==> r == [OpConstant, x.index]
    ensures x.Constant? && x.index >= 256 ==>
              |r| == 3 && r[0] == OpConstantLong && r[1] as int * 256 + r[2] as int == ToWord(x.index)
  {
    match x
    case Code(op) => [op]
    case Constant(i) =>
      if i < 256 then [OpConstant, i]
      else var w := ToWord(i); [OpConstantLong, w / 256, w % 256]
  }

  /** The stream a sequence of appends leaves, in order. */
  function Encode(xs: seq<Instr>): seq<Byte>
  {
    if xs == [] then [] else Encode(xs[..|xs| - 1]) + InstrBytes(xs[|xs| - 1])
  }

  lemma EncodeAppend(xs: seq<Instr>, x: Instr)
    ensures Encode(xs + [x]) == Encode(xs) + InstrBytes(x)
  {
    assert (xs + [x])[..|xs|] == xs;
  }

  lemma {:induction false} EncodeCons(x: Instr, xs: seq<Instr>)
    ensures Encode([x] + xs) == InstrBytes(x) + Encode(xs)
    decreases |xs|
  {
    if xs == [] {
      assert [x] + xs == [] + [x];
      EncodeAppend([], x);
    } else {
      var init, last := xs[..|xs| - 1], xs[|xs| - 1];
      assert [x] + xs == ([x] + init) + [last];
      assert xs == init + [last];
      EncodeAppend([x] + init, last);
      EncodeCons(x, init);
      EncodeAppend(init, last);
    }
  }

  /** Every load in `xs` names one of the first `n` pool entries. */
  predicate LoadsInPool(xs: seq<Instr>, n: nat)
  {
    forall k :: 0 <= k < |xs| && xs[k].Constant? ==> xs[k].index < n
  }

  lemma LoadsInBiggerPool(xs: seq<Instr>, x: Instr, n: nat, m: nat)
    requires LoadsInPool(xs, n) && n <= m
    requires x.Constant? ==> x.index < m
    ensures LoadsInPool(xs + [x], m)
  {
    forall k | 0 <= k < |xs + [x]| && (xs + [x])[k].Constant?
      ensures (xs + [x])[k].index < m
    {
      if k < |xs| {
        assert (xs + [x])[k] == xs[k];
      }
    }
  }

  /** The instructions the walk reads back: bare opcodes other than the
      two loads, and loads whose index fits the operand bytes. */
  predicate Decodable(xs: seq<Instr>)
  {
    forall k :: 0 <= k < |xs| ==>
      (xs[k].Code? ==> IsNiladic(xs[k].op)) && (xs[k].Constant? ==> xs[k].index < 0x1_0000)
  }

  /** One step of the walk: the opcode at `offset` and, for a load, the
      pool index its operand bytes spell (`byte1 << 8 | byte2` for the
      long form), or `None` when they lie beyond the stream. */
  datatype Decoded = Decoded(offset: nat, op: Byte, index: Option<nat>)

  function DecodeAt(code: seq<Byte>, offset: nat): (d: Decoded)
    requires offset < |code|
    ensures d.offset == offset && d.op == code[offset]
    ensures d.index.Some? <==> !IsNiladic(code[offset]) && offset + Width(code[offset]) <= |code|
  {
    var op := code[offset];
    var index :=
      if op == OpConstant && offset + 1 < |code| then Some(code[offset + 1] as nat)
      else if op == OpConstantLong && offset + 2 < |code| then Some(code[offset + 1] as int * 256 + code[offset + 2] as int)
      else None;
    Decoded(offset, op, index)
  }

  /** The walk from `offset` to the end of the stream: each step moves by
      the width of its opcode, operand bytes included. */
  function Decode(code: seq<Byte>, offset: nat): (ds: seq<Decoded>)
    ensures offset < |code| ==> |ds| > 0 && ds[0].offset == offset
    decreases |code| - offset
  {
    if offset >= |code| then []
    else [DecodeAt(code, offset)] + Decode(code, offset + Width(code[offset]))
  }

  /** The instruction one step of the walk stands for. */
  function Recover(d: Decoded): Option<Instr>
  {
    if IsNiladic(d.op) then Some(Code(d.op))
    else if d.index.Some? then Some(Constant(d.index.value))
    else None
  }

  /** Where the `k`-th instruction starts in the stream. */
  function Start(xs: seq<Instr>, k: nat): nat
    requires k <= |xs|
  {
    |Encode(xs[..k])|
  }

  /** The step the walk should take over an appended instruction `x`
      whose bytes begin at `at`. */
  function Expected(x: Instr, at: nat): Decoded
  {
    match x
    case Code(op) => Decoded(at, op, None)
    case Constant(i) => Decoded(at, if i < 256 then OpConstant else OpConstantLong, Some(i))
  }

  /** The steps the walk should take over `xs` appended from `at` on. */
  function ExpectedWalk(xs: seq<Instr>, at: nat): (ds: seq<Decoded>)
    ensures |ds| == |xs|
  {
    if xs == [] then []
    else [Expected(xs[0], at)] + ExpectedWalk(xs[1..], at + |InstrBytes(xs[0])|)
  }

  /** Each expected step stands for the instruction it was built from. */
  lemma {:induction false} ExpectedRecovers(xs: seq<Instr>, at: nat)
    requires Decodable(xs)
    ensures forall k :: 0 <= k < |xs| ==> Recover(ExpectedWalk(xs, at)[k]) == Some(xs[k])
    decreases |xs|
  {
    if xs != [] {
      var ds := ExpectedWalk(xs, at);
      Uncons(xs);
      ExpectedRecovers(xs[1..], at + |InstrBytes(xs[0])|);
      forall k | 0 <= k < |xs|
        ensures Recover(ds[k]) == Some(xs[k])
      {
        if k > 0 {
          assert ds[k] == ExpectedWalk(xs[1..], at + |InstrBytes(xs[0])|)[k - 1];
        }
      }
    }
  }

  /** The walk reads an appended instruction back at the place it was
      written, whatever bytes surround it. */
  lemma StepOver(before: seq<Byte>, x: Instr, after: seq<Byte>)
    requires Decodable([x])
    ensures var code := before + InstrBytes(x) + after;
            |before| < |code| &&
            DecodeAt(code, |before|) == Expected(x, |before|) &&
            Width(code[|before|]) == |InstrBytes(x)|
  {
    var b := InstrBytes(x);
    var code := before + b + after;
    var at := |before|;
    assert forall j :: 0 <= j < |b| ==> code[at + j] == b[j];
    assert [x][0] == x;
    match x
    case Code(op) =>
    case Constant(i) =>
      if i >= 256 {
        assert code[at + 1] as int * 256 + code[at + 2] as int == ToWord(i) == i;
      }
  }

  /** An appended stream split after its first instruction. */
  lemma Uncons(xs: seq<Instr>)
    requires Decodable(xs) && xs != []
    ensures Decodable([xs[0]]) && Decodable(xs[1..])
    ensures Encode(xs) == InstrBytes(xs[0]) + Encode(xs[1..])
  {
    assert xs == [xs[0]] + xs[1..];
    EncodeCons(xs[0], xs[1..]);
    assert [xs[0]][0] == xs[0];
    forall k | 0 <= k < |xs[1..]| ensures xs[1..][k] == xs[k + 1] { }
  }

  lemma {:induction false} DecodeAppended(before: seq<Byte>, xs: seq<Instr>)
    requires Decodable(xs)
    ensures Decode(before + Encode(xs), |before|) == ExpectedWalk(xs, |before|)
    decreases |xs|
  {
    if xs == [] {
      assert before + Encode(xs) == before;
    } else {
      var x, rest := xs[0], xs[1..];
      var b := InstrBytes(x);
      Uncons(xs);
      var code := before + Encode(xs);
      assert code == before + b + Encode(rest);
      StepOver(before, x, Encode(rest));
      DecodeAppended(before + b, rest);
    }
  }

  /** The walk over a lump's stream reads back each appended instruction,
      in order, as long as no bare load was appended and no index was
      truncated. */
  lemma RoundTrip(xs: seq<Instr>)
    requires Decodable(xs)
    ensures var ds := Decode(Encode(xs), 0);
            |ds| == |xs| && forall k :: 0 <= k < |xs| ==> Recover(ds[k]) == Some(xs[k])
    ensures Decode(Encode(xs), 0) == ExpectedWalk(xs, 0)
  {
    DecodeAppended([], xs);
    ExpectedRecovers(xs, 0);
    assert [] + Encode(xs) == Encode(xs);
  }

  /** Where an instruction starts, counted past the first one. */
  lemma StartCons(xs: seq<Instr>, k: nat)
    requires 0 < k <= |xs|
    ensures Start(xs, k) == |InstrBytes(xs[0])| + Start(xs[1..], k - 1)
  {
    var x, rest := xs[0], xs[1..];
    assert xs[..k] == [x] + rest[..k - 1] by {
      assert |xs[..k]| == k == |[x] + rest[..k - 1]|;
      forall j | 0 <= j < k ensures xs[..k][j] == ([x] + rest[..k - 1])[j] {
        if j > 0 { assert rest[j - 1] == xs[j]; }
      }
    }
    EncodeCons(x, rest[..k - 1]);
  }

  /** The walk over appended instructions visits exactly the positions
      where the appends put their opcodes. */
  lemma {:induction false} WalkOffsets(xs: seq<Instr>, at: nat)
    ensures forall k :: 0 <= k < |xs| ==> ExpectedWalk(xs, at)[k].offset == at + Start(xs, k)
    decreases |xs|
  {
    if xs != [] {
      var x, rest := xs[0], xs[1..];
      var ds, next := ExpectedWalk(xs, at), at + |InstrBytes(x)|;
      WalkOffsets(rest, next);
      forall k | 0 <= k < |xs|
        ensures ds[k].offset == at + Start(xs, k)
      {
        if k == 0 {
          assert xs[..0] == [];
        } else {
          assert ds[k] == ExpectedWalk(rest, next)[k - 1];
          StartCons(xs, k);
        }
      }
    }
  }
}
