/** What both disassemblers print for a lump: one row per step of the
    walk over its written bytes, with the offset, the line column, the
    opcode's name and, for a load, the pool index and the constant there.
    The two differ only in the names they give opcodes, which is the
    parameter `names` here. */
module Listings {
  import opened Base
  import opened Opcodes
  import opened Encoding

  /** The line column: the line number when it changed since it was last
      shown, `|` otherwise. */
  datatype Label = Shown(line: int) | Bar

  /** The operand part of a row: none for a bare opcode; for a load, the
      index its operand bytes spell and the constant at that index (`None`
      past the pool's count, where the source reads an unused slot); or
      `Truncated` when the operand bytes lie past the written bytes. */
  datatype Operand = NoOperand | Load(index: nat, value: Option<real>) | Truncated

  datatype Row = Row(offset: nat, column: Label, text: string, operand: Operand)

  /** `print_op_constant` / `print_op_constant_long`, as a value. */
  function OperandOf(d: Decoded, pool: seq<real>): (o: Operand)
    ensures IsNiladic(d.op) <==> o.NoOperand?
    ensures o.Load? <==> !IsNiladic(d.op) && d.index.Some?
    ensures o.Load? ==> o.index == d.index.value && (o.value.Some? <==> o.index < |pool|)
    ensures o.Load? && o.index < |pool| ==> o.value == Some(pool[o.index])
  {
    if IsNiladic(d.op) then NoOperand
    else match d.index
      case None => Truncated
      case Some(i) => Load(i, if i < |pool| then Some(pool[i]) else None)
  }

  /** The line column of a row, given the current line and the last one
      shown. */
  function LabelOf(cur: int, prev: int): (l: Label)
    ensures l == Bar <==> cur == prev
    ensures l.Shown? ==> l.line == cur
  {
    if cur == prev then Bar else Shown(cur)
  }

  /** The line after a row: a `LINE_INC` row counts one more. */
  function LineAfter(op: Byte, line: int): (r: int)
    ensures r == line || r == line + 1
    ensures r == line + 1 <==> op == OpLineInc
  {
    if op == OpLineInc then line + 1 else line
  }

  /** The rows from `offset` on, with `cur` the current line and `prev`
      the last line shown: one row per step of the walk. */
  function RowsFrom(code: seq<Byte>, pool: seq<real>, names: Byte -> string,
                    offset: nat, cur: int, prev: int): (rows: seq<Row>)
    ensures |rows| == |Decode(code, offset)|
    decreases |code| - offset
  {
    if offset >= |code| then []
    else
      var op := code[offset];
      [Row(offset, LabelOf(cur, prev), names(op), OperandOf(DecodeAt(code, offset), pool))] +
      RowsFrom(code, pool, names, offset + Width(op), LineAfter(op, cur), cur)
  }

  /** One step of the listing: the rows before `offset`, the row at
      `offset`, then the rest. */
  lemma RowsStep(done: seq<Row>, code: seq<Byte>, pool: seq<real>, names: Byte -> string,
                 offset: nat, cur: int, prev: int)
    requires offset < |code|
    ensures var op := code[offset];
            done + RowsFrom(code, pool, names, offset, cur, prev) ==
            (done + [Row(offset, LabelOf(cur, prev), names(op), OperandOf(DecodeAt(code, offset), pool))]) +
            RowsFrom(code, pool, names, offset + Width(op), LineAfter(op, cur), cur)
  {
  }

  /** Row `k` is step `k` of the walk: its offset, its opcode's name and
      its operand. */
  predicate RowsMatch(rows: seq<Row>, ds: seq<Decoded>, pool: seq<real>, names: Byte -> string)
  {
    |rows| == |ds| &&
    forall k :: 0 <= k < |rows| ==>
      rows[k].offset == ds[k].offset && rows[k].text == names(ds[k].op) &&
      rows[k].operand == OperandOf(ds[k], pool)
  }

  lemma {:induction false} RowsFollowWalk(code: seq<Byte>, pool: seq<real>, names: Byte -> string,
                                          offset: nat, cur: int, prev: int)
    ensures RowsMatch(RowsFrom(code, pool, names, offset, cur, prev), Decode(code, offset), pool, names)
    decreases |code| - offset
  {
    if offset < |code| {
      var op := code[offset];
      var next, cur' := offset + Width(op), LineAfter(op, cur);
      var rows, ds := RowsFrom(code, pool, names, offset, cur, prev), Decode(code, offset);
      var rest, ds' := RowsFrom(code, pool, names, next, cur', cur), Decode(code, next);
      RowsFollowWalk(code, pool, names, next, cur', cur);
      assert rows == [rows[0]] + rest;
      assert ds == [DecodeAt(code, offset)] + ds';
      forall k | 0 < k < |rows|
        ensures rows[k].offset == ds[k].offset && rows[k].text == names(ds[k].op) &&
                rows[k].operand == OperandOf(ds[k], pool)
      {
        assert rows[k] == rest[k - 1] && ds[k] == ds'[k - 1];
      }
    }
  }

  /** The whole listing: the line starts at 0 and none has been shown. */
  function Listing(code: seq<Byte>, pool: seq<real>, names: Byte -> string): seq<Row>
  {
    RowsFrom(code, pool, names, 0, 0, -1)
  }

  /** The `LINE_INC` steps among `ds`. */
  function LineIncs(ds: seq<Decoded>): nat
  {
    if ds == [] then 0 else (if ds[0].op == OpLineInc then 1 else 0) + LineIncs(ds[1..])
  }

  /** The first row's column is decided by the two lines alone. */
  lemma HeadColumn(code: seq<Byte>, pool: seq<real>, names: Byte -> string,
                   offset: nat, cur: int, prev: int)
    requires offset < |code|
    ensures RowsFrom(code, pool, names, offset, cur, prev)[0].column == LabelOf(cur, prev)
  {
  }

  /** The column a row shows after the steps `pre` above it, the first
      of which started on line `cur`. */
  function ColumnAfter(pre: seq<Decoded>, cur: int): Label
    requires |pre| > 0
  {
    if pre[|pre| - 1].op == OpLineInc then Shown(cur + LineIncs(pre)) else Bar
  }

  /** Every row but the first shows the column its steps above decide. */
  predicate ColumnsFollow(rows: seq<Row>, ds: seq<Decoded>, cur: int)
  {
    |rows| == |ds| && forall k :: 0 < k < |rows| ==> rows[k].column == ColumnAfter(ds[..k], cur)
  }

  /** One row more at the head keeps the columns following their steps. */
  lemma ColumnsCons(r: Row, rest: seq<Row>, d: Decoded, ds: seq<Decoded>, cur: int, prev: int)
    requires ColumnsFollow(rest, ds, LineAfter(d.op, cur))
    requires |rest| > 0 ==> rest[0].column == LabelOf(LineAfter(d.op, cur), cur)
    ensures ColumnsFollow([r] + rest, [d] + ds, cur)
  {
    var rows, all, cur' := [r] + rest, [d] + ds, LineAfter(d.op, cur);
    forall k | 0 < k < |rows|
      ensures rows[k].column == ColumnAfter(all[..k], cur)
    {
      assert rows[k] == rest[k - 1];
      var pre := all[..k];
      assert pre[0] == d && pre[1..] == ds[..k - 1];
      assert LineIncs(pre) == (if d.op == OpLineInc then 1 else 0) + LineIncs(ds[..k - 1]);
      if k == 1 {
        assert ds[..0] == [];
      } else {
        assert pre[k - 1] == ds[..k - 1][k - 2];
        assert rest[k - 1].column == ColumnAfter(ds[..k - 1], cur');
      }
    }
  }

  lemma {:induction false} LabelsFrom(code: seq<Byte>, pool: seq<real>, names: Byte -> string,
                                      offset: nat, cur: int, prev: int)
    ensures ColumnsFollow(RowsFrom(code, pool, names, offset, cur, prev), Decode(code, offset), cur)
    decreases |code| - offset
  {
    if offset < |code| {
      var op := code[offset];
      var next, cur' := offset + Width(op), LineAfter(op, cur);
      var rows, ds := RowsFrom(code, pool, names, offset, cur, prev), Decode(code, offset);
      var rest, ds' := RowsFrom(code, pool, names, next, cur', cur), Decode(code, next);
      assert rows == [rows[0]] + rest;
      assert ds == [DecodeAt(code, offset)] + ds';
      LabelsFrom(code, pool, names, next, cur', cur);
      if next < |code| {
        HeadColumn(code, pool, names, next, cur', cur);
      }
      ColumnsCons(rows[0], rest, DecodeAt(code, offset), ds', cur, prev);
    }
  }

  /** The line column: the first row shows line 0; every later row shows
      the number of `LINE_INC` rows above it exactly when the row right
      above it is a `LINE_INC`, and `|` otherwise. */
  lemma LineColumn(code: seq<Byte>, pool: seq<real>, names: Byte -> string)
    ensures var rows, ds := Listing(code, pool, names), Decode(code, 0);
            (|rows| > 0 ==> rows[0].column == Shown(0)) &&
            forall k :: 0 < k < |rows| ==>
              rows[k].column == if ds[k - 1].op == OpLineInc then Shown(LineIncs(ds[..k])) else Bar
  {
    LabelsFrom(code, pool, names, 0, 0, -1);
    var rows, ds := Listing(code, pool, names), Decode(code, 0);
    forall k | 0 < k < |rows|
      ensures rows[k].column == if ds[k - 1].op == OpLineInc then Shown(LineIncs(ds[..k])) else Bar
    {
      assert rows[k].column == ColumnAfter(ds[..k], 0);
    }
  }

  /** The row a disassembler should print for an appended instruction. */
  function ExpectedOperand(x: Instr, pool: seq<real>): Operand
  {
    match x
    case Code(_) => NoOperand
    case Constant(i) => Load(i, if i < |pool| then Some(pool[i]) else None)
  }

  /** The listing of a lump's bytes has one row per appended instruction,
      at the offset where it was written, and each load row shows the
      index that was appended and the constant stored there. */
  lemma ListsAppends(xs: seq<Instr>, pool: seq<real>, names: Byte -> string)
    requires Decodable(xs) && LoadsInPool(xs, |pool|)
    ensures var rows := Listing(Encode(xs), pool, names);
            |rows| == |xs| &&
            forall k :: 0 <= k < |xs| ==>
              rows[k].offset == Start(xs, k) &&
              rows[k].operand == ExpectedOperand(xs[k], pool) &&
              (xs[k].Constant? ==> rows[k].operand.value == Some(pool[xs[k].index]))
  {
    RoundTrip(xs);
    WalkOffsets(xs, 0);
    RowsFollowWalk(Encode(xs), pool, names, 0, 0, -1);
    var rows, ds := Listing(Encode(xs), pool, names), Decode(Encode(xs), 0);
    forall k | 0 <= k < |xs|
      ensures rows[k].operand == ExpectedOperand(xs[k], pool)
    {
      assert Recover(ds[k]) == Some(xs[k]);
    }
  }

  /** The line `disassemble_instruction` computes for `offset`: the bytes
      before it that equal `OP_LINE_INC`, operand bytes included. */
  function RawLineIncs(code: seq<Byte>, offset: nat): nat
    requires offset <= |code|
  {
    if offset == 0 then 0
    else RawLineIncs(code, offset - 1) + (if code[offset - 1] == OpLineInc then 1 else 0)
  }

  /** The raw count and the walk disagree as soon as an operand byte
      equals `OP_LINE_INC`: after a load of pool entry 1, the walk's
      second step, at offset 2, has seen no `LINE_INC` step, yet one byte
      before it equals `OP_LINE_INC`. */
  lemma RawCountSeesOperands()
    ensures var code: seq<Byte> := [OpConstant, OpLineInc, OpReturn];
            var ds := Decode(code, 0);
            |ds| == 2 && ds[1].offset == 2 && ds[1].op == OpReturn &&
            LineIncs(ds[..1]) == 0 && RawLineIncs(code, 2) == 1
  {
    var code: seq<Byte> := [OpConstant, OpLineInc, OpReturn];
    var ds := Decode(code, 0);
    assert Decode(code, 2) == [DecodeAt(code, 2)] + Decode(code, 3);
    assert ds == [DecodeAt(code, 0)] + Decode(code, 2);
    assert ds[..1] == [DecodeAt(code, 0)];
    assert LineIncs(ds[..1]) == 0 by {
      assert ds[..1][1..] == [];
    }
    assert RawLineIncs(code, 2) == 1 by {
      assert RawLineIncs(code, 1) == 0;
    }
  }
}
