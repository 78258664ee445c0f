/** What the evaluator does at any cursor position, whatever tokens
    follow: the precedence of its levels, the single operator each level
    consumes, the run of prefix operators, and its two diagnostics.
    Literal tokens are any tokens of the kinds `primary` converts; `lit`
    is their conversion. */
module ParserFacts {
  import opened Base
  import opened Tokens
  import opened Values
  import opened Parser

  predicate IsLiteral(t: Token)
  {
    t.kind == ConstantInt || t.kind == ConstantFloat
  }

  /** The operators each binary level tests for after its left operand. */
  const FactorOps: set<TokenType> := {Star, Slash, Percent}
  const TermOps: set<TokenType> := {Plus, Minus}
  const ComparisonOps: set<TokenType> := {Greater, GreaterEqual, Less, LessEqual}
  const EqualityOps: set<TokenType> := {EqualEqual, BangEqual}

  /** The number a literal token evaluates to. */
  function Literal(t: Token, lit: Token -> real): Value
  {
    Value.Number(lit(t))
  }

  /** A literal is one operand: `unary` consumes exactly its token. */
  lemma LiteralUnary(ts: seq<Token>, i: nat, lit: Token -> real)
    requires Positioned(ts, i) && IsLiteral(ts[i])
    ensures i + 1 < |ts|
    ensures Unary(ts, i, lit) == Parsed(Some(Literal(ts[i], lit)), i + 1, [])
  {
    assert Primary(ts, i, lit) == Parsed(Some(Literal(ts[i], lit)), i + 1, []);
  }

  /** A literal passes unchanged through every level whose operators do
      not follow it, and stops before the first operator that does. */
  lemma LiteralLevels(ts: seq<Token>, i: nat, lit: Token -> real)
    requires Positioned(ts, i) && IsLiteral(ts[i])
    ensures i + 1 < |ts|
    ensures var r := Parsed(Some(Literal(ts[i], lit)), i + 1, []);
            var k := ts[i + 1].kind;
            (k !in FactorOps ==> Factor(ts, i, lit) == r) &&
            (k !in FactorOps + TermOps ==> Term(ts, i, lit) == r) &&
            (k !in FactorOps + TermOps + ComparisonOps ==> Comparison(ts, i, lit) == r) &&
            (k !in FactorOps + TermOps + ComparisonOps + EqualityOps ==> Expression(ts, i, lit) == r)
  {
    LiteralUnary(ts, i, lit);
  }

  /** `factor` applies one `*`, `/` or `%` to two literals and leaves
      the cursor after the second, whatever follows it (a second `*`
      too). */
  lemma FactorTakesOneOperator(ts: seq<Token>, i: nat, lit: Token -> real)
    requires Positioned(ts, i) && IsLiteral(ts[i])
    requires ts[i + 1].kind in FactorOps && IsLiteral(ts[i + 2])
    ensures Factor(ts, i, lit) ==
              Parsed(Apply(ts[i + 1].kind, Literal(ts[i], lit), Literal(ts[i + 2], lit)), i + 3, [])
  {
    LiteralUnary(ts, i, lit);
    LiteralUnary(ts, i + 2, lit);
  }

  /** `term` applies one `+` or `-` to two literals and leaves the cursor
      after the second: in `a - b - c` the second `-` is not consumed. */
  lemma TermTakesOneOperator(ts: seq<Token>, i: nat, lit: Token -> real)
    requires Positioned(ts, i) && IsLiteral(ts[i])
    requires ts[i + 1].kind in TermOps && IsLiteral(ts[i + 2])
    requires ts[i + 3].kind !in FactorOps
    ensures Term(ts, i, lit) ==
              Parsed(Apply(ts[i + 1].kind, Literal(ts[i], lit), Literal(ts[i + 2], lit)), i + 3, [])
  {
    LiteralLevels(ts, i, lit);
    LiteralLevels(ts, i + 2, lit);
  }

  /** `comparison` applies one ordering to two literals and leaves the
      cursor after the second: `a < b < c` compares only `a` and `b`. */
  lemma ComparisonTakesOneOperator(ts: seq<Token>, i: nat, lit: Token -> real)
    requires Positioned(ts, i) && IsLiteral(ts[i])
    requires ts[i + 1].kind in ComparisonOps && IsLiteral(ts[i + 2])
    requires ts[i + 3].kind !in FactorOps + TermOps
    ensures Comparison(ts, i, lit) ==
              Parsed(Apply(ts[i + 1].kind, Literal(ts[i], lit), Literal(ts[i + 2], lit)), i + 3, [])
  {
    LiteralLevels(ts, i, lit);
    LiteralLevels(ts, i + 2, lit);
  }

  /** `equality` applies one `==` or `!=` to two literals and leaves the
      cursor after the second: `a == b == c` compares only `a` and `b`. */
  lemma EqualityTakesOneOperator(ts: seq<Token>, i: nat, lit: Token -> real)
    requires Positioned(ts, i) && IsLiteral(ts[i])
    requires ts[i + 1].kind in EqualityOps && IsLiteral(ts[i + 2])
    requires ts[i + 3].kind !in FactorOps + TermOps + ComparisonOps
    ensures Expression(ts, i, lit) ==
              Parsed(Apply(ts[i + 1].kind, Literal(ts[i], lit), Literal(ts[i + 2], lit)), i + 3, [])
  {
    LiteralLevels(ts, i, lit);
    LiteralLevels(ts, i + 2, lit);
  }

  /** `*`, `/` and `%` bind tighter than `+` and `-`: `a + b * c` is
      `a + (b * c)`, and the term ends after `c` whatever follows. */
  lemma Precedence(ts: seq<Token>, i: nat, lit: Token -> real)
    requires Positioned(ts, i) && IsLiteral(ts[i])
    requires ts[i + 1].kind in TermOps && IsLiteral(ts[i + 2])
    requires ts[i + 3].kind in FactorOps && IsLiteral(ts[i + 4])
    ensures var bc := Apply(ts[i + 3].kind, Literal(ts[i + 2], lit), Literal(ts[i + 4], lit));
            Term(ts, i, lit) ==
              Parsed(if bc.Some? then Apply(ts[i + 1].kind, Literal(ts[i], lit), bc.value) else None,
                     i + 5, [])
  {
    LiteralLevels(ts, i, lit);
    FactorTakesOneOperator(ts, i + 2, lit);
  }

  /** A run of `k` prefix `-` before a literal is the literal for an even
      `k` and its negation for an odd `k`, and it consumes the run and
      the literal. */
  lemma {:induction false} NegationRun(ts: seq<Token>, i: nat, k: nat, lit: Token -> real)
    requires Positioned(ts, i) && i + k < |ts|
    requires forall j :: i <= j < i + k ==> ts[j].kind == Minus
    requires IsLiteral(ts[i + k])
    ensures Unary(ts, i, lit) ==
              Parsed(Some(Value.Number(if k % 2 == 0 then lit(ts[i + k]) else -lit(ts[i + k]))),
                     i + k + 1, [])
    decreases k
  {
    if k == 0 {
      LiteralUnary(ts, i, lit);
    } else {
      assert ts[i].kind == Minus;
      NegationRun(ts, i + 1, k - 1, lit);
    }
  }

  /** After `(` and an expression, `primary` consumes the next token
      whatever it is; when it is not `)` that is reported at the line of
      the token the cursor then rests on, and the inner value is kept. */
  lemma MissingRightParen(ts: seq<Token>, i: nat, lit: Token -> real)
    requires Positioned(ts, i) && ts[i].kind == LeftParen && IsLiteral(ts[i + 1])
    requires ts[i + 2].kind !in FactorOps + TermOps + ComparisonOps + EqualityOps
    requires ts[i + 2].kind !in {EndOfFile, RightParen}
    ensures i + 3 < |ts|
    ensures Primary(ts, i, lit) ==
              Parsed(Some(Literal(ts[i + 1], lit)), i + 3, [ExpectedRightParen(ts[i + 3].line)])
  {
    LiteralLevels(ts, i + 1, lit);
    assert Step(ts, i + 2) == i + 3;
  }

  /** On the end-of-file token (an empty input, or the end of a
      truncated one) `primary` reports that no expression was found and
      the cursor stays where it is. */
  lemma NothingToParse(ts: seq<Token>, i: nat, lit: Token -> real)
    requires Positioned(ts, i) && ts[i].kind == EndOfFile
    ensures Expression(ts, i, lit) == Parsed(Some(Zero), i, [NoExpression(ts[i].line)])
  {
    var r := Parsed(Some(Zero), i, [NoExpression(ts[i].line)]);
    assert Primary(ts, i, lit) == r;
    assert Unary(ts, i, lit) == r;
    assert Factor(ts, i, lit) == r;
    assert Term(ts, i, lit) == r;
    assert Comparison(ts, i, lit) == r;
    assert Equality(ts, i, lit) == r;
  }

  /** Every token that is not a literal, `(`, `-` or `!` in operand
      position is consumed (unless it is the end-of-file token),
      reported, and gives the zero value. The `NUMBER` tokens the scanner
      produces are among them: the evaluator tests for other kinds. */
  lemma NoExpressionFound(ts: seq<Token>, i: nat, lit: Token -> real)
    requires Positioned(ts, i)
    requires ts[i].kind !in {ConstantInt, ConstantFloat, LeftParen, Minus, Bang}
    ensures var r := Unary(ts, i, lit);
            r.value == Some(Zero) && r.next == Step(ts, i) &&
            r.reports == [NoExpression(ts[i].line)]
  {
  }

  /** `(a == b)` in operand position is a boolean, and `factor` stops
      after the `)` unless a `*`, `/` or `%` follows. */
  lemma ParenthesisedEquality(ts: seq<Token>, i: nat, lit: Token -> real)
    requires Positioned(ts, i) && ts[i].kind == LeftParen
    requires IsLiteral(ts[i + 1]) && ts[i + 2].kind == EqualEqual && IsLiteral(ts[i + 3])
    requires ts[i + 4].kind == RightParen && ts[i + 5].kind !in FactorOps
    ensures Factor(ts, i, lit) == Parsed(Some(Bool(lit(ts[i + 1]) == lit(ts[i + 3]))), i + 5, [])
  {
    EqualityTakesOneOperator(ts, i + 1, lit);
    var r := Parsed(Some(Bool(lit(ts[i + 1]) == lit(ts[i + 3]))), i + 5, []);
    assert Primary(ts, i, lit) == r;
    assert Unary(ts, i, lit) == r;
  }

  /** A comparison's boolean result fed to `+` or `-` fails the operand
      check: `(a == b) + c` aborts, whatever the right operand is. */
  lemma BooleanOperandAborts(ts: seq<Token>, i: nat, lit: Token -> real)
    requires Positioned(ts, i) && ts[i].kind == LeftParen
    requires IsLiteral(ts[i + 1]) && ts[i + 2].kind == EqualEqual && IsLiteral(ts[i + 3])
    requires ts[i + 4].kind == RightParen && ts[i + 5].kind in TermOps
    ensures Expression(ts, i, lit).value == None
  {
    ParenthesisedEquality(ts, i, lit);
    assert Term(ts, i, lit).value == None;
    assert Comparison(ts, i, lit).value == None;
  }
}
