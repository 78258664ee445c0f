/** The recursive-descent evaluator: it reads the token vector through a
    cursor that never moves past the end-of-file token and evaluates the
    expression at its head with the value operators.

    The grammar functions take the cursor position and answer the value,
    the position after the tokens they consumed and the diagnostics they
    reported, in order. A diagnostic is what `report` prints; it also
    raises the panic flag. The value is `None` when an operator is
    applied outside its domain: the operand check aborts the program
    there, so nothing after it runs. The conversion of a literal token's
    text to a number (`atoi`, `atof`) is the parameter `lit`. */
module Parser {
  import opened Base
  import opened Tokens
  import opened Values

  /** A token vector as `scan_tokens` leaves it: ending with the
      end-of-file token. */
  predicate WellEnded(ts: seq<Token>)
  {
    |ts| > 0 && ts[|ts| - 1].kind == EndOfFile
  }

  /** A cursor position inside a well-ended vector. */
  predicate Positioned(ts: seq<Token>, i: nat)
  {
    WellEnded(ts) && i < |ts|
  }

  /** Where `advance` leaves the cursor: one token on, except on the
      end-of-file token, where it stays. */
  function Step(ts: seq<Token>, i: nat): (j: nat)
    requires Positioned(ts, i)
    ensures Positioned(ts, j)
    ensures ts[i].kind == EndOfFile ==> j == i
    ensures ts[i].kind != EndOfFile ==> j == i + 1
  {
    if ts[i].kind == EndOfFile then i else i + 1
  }

  /** What `report` is called with: the line it is given and the message. */
  datatype Diagnostic = NoExpression(line: int) | ExpectedRightParen(line: int)

  /** The result of a grammar function: the value (`None` once an operand
      check has aborted the program), the cursor afterwards, and the
      diagnostics reported on the way. */
  datatype Parsed = Parsed(value: Option<Value>, next: nat, reports: seq<Diagnostic>)

  /** The operator a binary token selects, applied where its operand check
      passes. Division by zero and a modulo outside the `int` range have no
      `real` result and count as outside the domain too. */
  function Apply(op: TokenType, a: Value, b: Value): (r: Option<Value>)
    ensures op in {Plus, Minus, Star} ==> (r.Some? <==> BothNumbers(a, b))
    ensures op == Slash ==> (r.Some? <==> DivideDefined(a, b))
    ensures op == Percent ==> (r.Some? <==> ModuloDefined(a, b))
    ensures op in {Greater, GreaterEqual, Less, LessEqual} ==>
              (r.Some? <==> BothNumbers(a, b)) && (r.Some? ==> r.value.Bool?)
    ensures op in {EqualEqual, BangEqual} ==>
              (r.Some? <==> Comparable(a, b)) && (r.Some? ==> r.value.Bool?)
    ensures (op !in {Plus, Minus, Star, Slash, Percent, Greater, GreaterEqual,
                     Less, LessEqual, EqualEqual, BangEqual}) ==> r.None?
  {
    match op
    case EqualEqual => if Comparable(a, b) then Some(Values.Equal(a, b)) else None
    case BangEqual => if Comparable(a, b) then Some(Values.NotEqual(a, b)) else None
    case Greater => if BothNumbers(a, b) then Some(Values.Greater(a, b)) else None
    case GreaterEqual => if BothNumbers(a, b) then Some(Values.GreaterOrEqual(a, b)) else None
    case Less => if BothNumbers(a, b) then Some(Values.Less(a, b)) else None
    case LessEqual => if BothNumbers(a, b) then Some(Values.LessOrEqual(a, b)) else None
    case Plus => if BothNumbers(a, b) then Some(Add(a, b)) else None
    case Minus => if BothNumbers(a, b) then Some(Substract(a, b)) else None
    case Star => if BothNumbers(a, b) then Some(Multiply(a, b)) else None
    case Slash => if DivideDefined(a, b) then Some(Divide(a, b)) else None
    case Percent => if ModuloDefined(a, b) then Some(Values.Modulo(a, b)) else None
    case _ => None
  }

  /** A binary level after its operator: the right operand has been
      evaluated, then the operator is applied to both values. */
  function Combine(op: TokenType, left: Parsed, right: Parsed): Parsed
    requires left.value.Some?
  {
    var v := if right.value.Some? then Apply(op, left.value.value, right.value.value) else None;
    Parsed(v, right.next, left.reports + right.reports)
  }

  /** `expression`. */
  function Expression(ts: seq<Token>, i: nat, lit: Token -> real): (r: Parsed)
    requires Positioned(ts, i)
    ensures Positioned(ts, r.next) && i <= r.next
    ensures ts[i].kind != EndOfFile ==> i < r.next
    decreases |ts| - i, 6
  {
    Equality(ts, i, lit)
  }

  /** `equality`: a comparison, then at most one `==` or `!=` and the
      comparison after it. */
  function Equality(ts: seq<Token>, i: nat, lit: Token -> real): (r: Parsed)
    requires Positioned(ts, i)
    ensures Positioned(ts, r.next) && i <= r.next
    ensures ts[i].kind != EndOfFile ==> i < r.next
    decreases |ts| - i, 5
  {
    var left := Comparison(ts, i, lit);
    if left.value.Some? && ts[left.next].kind in {EqualEqual, BangEqual} then
      Combine(ts[left.next].kind, left, Comparison(ts, left.next + 1, lit))
    else
      left
  }

  /** `comparison`: a term, then at most one of `>`, `>=`, `<`, `<=` and
      the term after it (the body of its loop always returns). */
  function Comparison(ts: seq<Token>, i: nat, lit: Token -> real): (r: Parsed)
    requires Positioned(ts, i)
    ensures Positioned(ts, r.next) && i <= r.next
    ensures ts[i].kind != EndOfFile ==> i < r.next
    decreases |ts| - i, 4
  {
    var left := Term(ts, i, lit);
    if left.value.Some? && ts[left.next].kind in {Greater, GreaterEqual, Less, LessEqual} then
      Combine(ts[left.next].kind, left, Term(ts, left.next + 1, lit))
    else
      left
  }

  /** `term`: a factor, then at most one `+` or `-` and the factor after it. */
  function Term(ts: seq<Token>, i: nat, lit: Token -> real): (r: Parsed)
    requires Positioned(ts, i)
    ensures Positioned(ts, r.next) && i <= r.next
    ensures ts[i].kind != EndOfFile ==> i < r.next
    decreases |ts| - i, 3
  {
    var left := Factor(ts, i, lit);
    if left.value.Some? && ts[left.next].kind in {Plus, Minus} then
      Combine(ts[left.next].kind, left, Factor(ts, left.next + 1, lit))
    else
      left
  }

  /** `factor`: a unary, then at most one `*`, `/` or `%` (the kind
      `PERCENT`, which the scanner never produces) and the unary after it. */
  function Factor(ts: seq<Token>, i: nat, lit: Token -> real): (r: Parsed)
    requires Positioned(ts, i)
    ensures Positioned(ts, r.next) && i <= r.next
    ensures ts[i].kind != EndOfFile ==> i < r.next
    decreases |ts| - i, 2
  {
    var left := Unary(ts, i, lit);
    if left.value.Some? && ts[left.next].kind in {Star, Slash, Percent} then
      Combine(ts[left.next].kind, left, Unary(ts, left.next + 1, lit))
    else
      left
  }

  /** `unary`: a leading `-` or `!` applies to the unary after it, so a
      run of them applies innermost last; otherwise a primary. */
  function Unary(ts: seq<Token>, i: nat, lit: Token -> real): (r: Parsed)
    requires Positioned(ts, i)
    ensures Positioned(ts, r.next) && i <= r.next
    ensures ts[i].kind != EndOfFile ==> i < r.next
    decreases |ts| - i, 1
  {
    if ts[i].kind in {Minus, Bang} then
      var inner := Unary(ts, i + 1, lit);
      var v := if inner.value.Some? && IsNumber(inner.value.value) then
                 Some(if ts[i].kind == Minus then Negate(inner.value.value)
                      else LogicalNot(inner.value.value))
               else None;
      Parsed(v, inner.next, inner.reports)
    else
      Primary(ts, i, lit)
  }

  /** `primary`: consumes one token. A literal gives its number; `(`
      gives the expression after it and consumes one more token, which
      is reported when it is not `)` (at the line of the token the cursor
      then rests on); anything else is reported and gives the
      zero-initialised value. */
  function Primary(ts: seq<Token>, i: nat, lit: Token -> real): (r: Parsed)
    requires Positioned(ts, i)
    ensures Positioned(ts, r.next) && i <= r.next
    ensures ts[i].kind != EndOfFile ==> i < r.next
    decreases |ts| - i, 0
  {
    var t := ts[i];
    var j := Step(ts, i);
    match t.kind
    case ConstantInt => Parsed(Some(Value.Number(lit(t))), j, [])
    case ConstantFloat => Parsed(Some(Value.Number(lit(t))), j, [])
    case LeftParen =>
      var inner := Expression(ts, j, lit);
      if inner.value.None? then inner
      else
        var k := Step(ts, inner.next);
        var missing := if ts[inner.next].kind != RightParen then [ExpectedRightParen(ts[k].line)] else [];
        Parsed(inner.value, k, inner.reports + missing)
    case _ => Parsed(Some(Zero), j, [NoExpression(t.line)])
  }

  /** `__TOKEN_IS__`: whether the token's kind is one of `kinds` (the
      list the source ends with a -1 sentinel). */
  method TokenIs(t: Token, kinds: seq<TokenType>) returns (b: bool)
    ensures b <==> t.kind in kinds
  {
    var i := 0;
    while i < |kinds|
      invariant i <= |kinds|
      invariant t.kind !in kinds[..i]
    {
      if t.kind == kinds[i] {
        return true;
      }
      i := i + 1;
    }
    return false;
  }

  /** The global parser: the token vector, the cursor into it and the
      panic flag. */
  class Parser {
    const tokens: seq<Token>
    var current: nat
    var panic: bool

    ghost predicate Valid()
      reads this
    {
      Positioned(tokens, current)
    }

    constructor (ts: seq<Token>)
      requires WellEnded(ts)
      ensures Valid() && tokens == ts && current == 0 && !panic
    {
      tokens := ts;
      current := 0;
      panic := false;
    }

    /** `advance`: answers the current token and steps past it, except
        on the end-of-file token, where the cursor stays. */
    method Advance() returns (t: Token)
      requires Valid()
      modifies this`current
      ensures Valid()
      ensures t == tokens[old(current)]
      ensures current == Step(tokens, old(current))
    {
      var atEnd := TokenIs(tokens[current], [EndOfFile]);
      t := tokens[current];
      if !atEnd {
        current := current + 1;
      }
    }

    /** `parse`: puts the cursor on the first token, clears the panic
        flag and evaluates one expression. The flag is raised exactly
        when something was reported. */
    method Parse(lit: Token -> real) returns (v: Option<Value>)
      requires WellEnded(tokens)
      modifies this`current, this`panic
      ensures Valid()
      ensures var r := Expression(tokens, 0, lit);
              v == r.value && current == r.next && (panic <==> r.reports != [])
    {
      current := 0;
      panic := false;
      var r := Expression(tokens, 0, lit);
      current := r.next;
      if r.reports != [] {
        panic := true;
      }
      v := r.value;
    }
  }
}
