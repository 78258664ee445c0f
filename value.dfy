/** The tagged scalar value of the virtual machine and its operators.
    Every operator checks the tags of its operands before it reads a
    payload; a failed check aborts the program, so the tag condition of
    each operator is its precondition here. Payloads are `real`: the
    rounding of `double` arithmetic is not modelled. */
module Values {

  datatype Value = Number(number: real) | Bool(boolean: bool) | Nil

  /** The zero-initialised value `(struct value){}`: the tag whose
      ordinal is 0 is NUMBER and the payload bytes are all zero. */
  const Zero: Value := Number(0.0)

  /** A C `int` (32 bits). */
  predicate InInt(n: int)
  {
    -0x8000_0000 <= n < 0x8000_0000
  }

  /** The C conversion `(int)d` of a double: truncation toward zero. */
  function Truncate(r: real): (n: int)
    ensures 0.0 <= r ==> n as real <= r < n as real + 1.0
    ensures r <= 0.0 ==> n as real - 1.0 < r <= n as real
  {
    if r >= 0.0 then r.Floor else -((-r).Floor)
  }

  function Abs(n: int): nat
  {
    if n < 0 then -n else n
  }

  /** C's `/` on `int`: the quotient is truncated toward zero. */
  function CQuotient(a: int, b: int): int
    requires b != 0
  {
    var q := Abs(a) / Abs(b);
    if (a < 0) == (b < 0) then q else -q
  }

  /** C's `%` on `int`: the remainder takes the sign of the dividend. */
  function CRemainder(a: int, b: int): (r: int)
    requires b != 0
    ensures Abs(r) < Abs(b)
    ensures r != 0 ==> (r < 0 <==> a < 0)
  {
    var m := Abs(a) % Abs(b);
    if a >= 0 then m else -m
  }

  /** C99's identity `(a / b) * b + a % b == a`. */
  lemma {:induction false} CDivision(a: int, b: int)
    requires b != 0
    ensures CQuotient(a, b) * b + CRemainder(a, b) == a
  {
    var x: int, y: int := Abs(a), Abs(b);
    var q: int, m: int := x / y, x % y;
    assert x == q * y + m;
    if a >= 0 && b > 0 {
      assert CQuotient(a, b) * b == q * y;
    } else if a >= 0 {
      assert CQuotient(a, b) * b == (-q) * (-y) == q * y;
    } else if b > 0 {
      assert CQuotient(a, b) * b == (-q) * y == -(q * y);
    } else {
      assert CQuotient(a, b) * b == q * (-y) == -(q * y);
    }
  }

  predicate IsNumber(v: Value)
  {
    v.Number?
  }

  /** The operand condition of every binary arithmetic and ordering operator. */
  predicate BothNumbers(a: Value, b: Value)
  {
    a.Number? && b.Number?
  }

  /** The operand condition of `value_equal` and `value_not_equal`. */
  predicate Comparable(a: Value, b: Value)
  {
    (a.Number? && b.Number?) || (a.Bool? && b.Bool?)
  }

  /** `value_modulo` truncates both payloads to `int`: the conversion is
      only defined inside the `int` range, and `%` needs a non-zero divisor
      and a representable quotient. */
  predicate ModuloDefined(a: Value, b: Value)
  {
    BothNumbers(a, b) &&
    InInt(Truncate(a.number)) && InInt(Truncate(b.number)) &&
    Truncate(b.number) != 0 &&
    !(Truncate(a.number) == -0x8000_0000 && Truncate(b.number) == -1)
  }

  /** Division by a zero `double` gives an infinity or NaN, which `real`
      cannot represent; it is excluded here. */
  predicate DivideDefined(a: Value, b: Value)
  {
    BothNumbers(a, b) && b.number != 0.0
  }

  function Negate(v: Value): (r: Value)
    requires IsNumber(v)
    ensures r.Number? && r.number + v.number == 0.0
  {
    Number(-v.number)
  }

  /** `!x` on the payload: the result stays a NUMBER and is 1 exactly when
      the operand is 0. */
  function LogicalNot(v: Value): (r: Value)
    requires IsNumber(v)
    ensures r.Number? && (r.number == 1.0 || r.number == 0.0)
    ensures r.number == 1.0 <==> v.number == 0.0
  {
    Number(if v.number == 0.0 then 1.0 else 0.0)
  }

  function Add(a: Value, b: Value): (r: Value)
    requires BothNumbers(a, b)
    ensures r.Number?
  {
    Number(a.number + b.number)
  }

  function Substract(a: Value, b: Value): (r: Value)
    requires BothNumbers(a, b)
    ensures r.Number?
  {
    Number(a.number - b.number)
  }

  function Multiply(a: Value, b: Value): (r: Value)
    requires BothNumbers(a, b)
    ensures r.Number?
  {
    Number(a.number * b.number)
  }

  function Divide(a: Value, b: Value): (r: Value)
    requires DivideDefined(a, b)
    ensures r.Number? && r.number * b.number == a.number
  {
    Number(a.number / b.number)
  }

  function Modulo(a: Value, b: Value): (r: Value)
    requires ModuloDefined(a, b)
    ensures r.Number?
    ensures Abs(r.number.Floor) < Abs(Truncate(b.number))
    ensures r.number == r.number.Floor as real
  {
    Number(CRemainder(Truncate(a.number), Truncate(b.number)) as real)
  }

  function Greater(a: Value, b: Value): (r: Value)
    requires BothNumbers(a, b)
    ensures r.Bool?
  {
    Bool(a.number > b.number)
  }

  function GreaterOrEqual(a: Value, b: Value): (r: Value)
    requires BothNumbers(a, b)
    ensures r.Bool?
  {
    Bool(a.number >= b.number)
  }

  function Less(a: Value, b: Value): (r: Value)
    requires BothNumbers(a, b)
    ensures r.Bool?
  {
    Bool(a.number < b.number)
  }

  function LessOrEqual(a: Value, b: Value): (r: Value)
    requires BothNumbers(a, b)
    ensures r.Bool?
  {
    Bool(a.number <= b.number)
  }

  /** Payload equality for two numbers or two booleans. */
  function Equal(a: Value, b: Value): (r: Value)
    requires Comparable(a, b)
    ensures r.Bool?
    ensures r.boolean <==> a == b
  {
    if a.Number? then Bool(a.number == b.number) else Bool(a.boolean == b.boolean)
  }

  function NotEqual(a: Value, b: Value): (r: Value)
    requires Comparable(a, b)
    ensures r.Bool?
    ensures r.boolean <==> a != b
  {
    if a.Number? then Bool(a.number != b.number) else Bool(a.boolean != b.boolean)
  }

  // Relations between the operators.

  lemma NegateInvolutive(v: Value)
    requires IsNumber(v)
    ensures Negate(Negate(v)) == v
  {
  }

  /** Applying `!` twice normalises a number to 0 or 1. */
  lemma LogicalNotTwice(v: Value)
    requires IsNumber(v)
    ensures LogicalNot(LogicalNot(v)) == Number(if v.number == 0.0 then 0.0 else 1.0)
  {
  }

  lemma SubstractUndoesAdd(a: Value, b: Value)
    requires BothNumbers(a, b)
    ensures Substract(Add(a, b), b) == a
    ensures Add(Substract(a, b), b) == a
  {
  }

  /** The order of the operands of `+` does not matter, and 0 adds
      nothing. */
  lemma AddCommutes(a: Value, b: Value)
    requires BothNumbers(a, b)
    ensures Add(a, b) == Add(b, a)
    ensures Add(a, Number(0.0)) == a
  {
  }

  lemma DivideUndoesMultiply(a: Value, b: Value)
    requires DivideDefined(a, b)
    ensures Divide(Multiply(a, b), b) == a
  {
  }

  /** `value_modulo` satisfies C99's division identity on the truncated
      operands. */
  lemma ModuloIdentity(a: Value, b: Value)
    requires ModuloDefined(a, b)
    ensures var x, y := Truncate(a.number), Truncate(b.number);
            CQuotient(x, y) * y + Modulo(a, b).number.Floor == x
  {
    CDivision(Truncate(a.number), Truncate(b.number));
  }

  /** The four orderings are two relations seen from both sides. */
  lemma OrderingDuality(a: Value, b: Value)
    requires BothNumbers(a, b)
    ensures Greater(a, b) == Less(b, a)
    ensures GreaterOrEqual(a, b) == LessOrEqual(b, a)
    ensures GreaterOrEqual(a, b).boolean == !Less(a, b).boolean
    ensures LessOrEqual(a, b).boolean == !Greater(a, b).boolean
  {
  }

  /** What the orderings answer: adding a positive number gives a
      greater value, adding a negative one a smaller value. */
  lemma OrderingMeaning(a: Value, b: Value)
    requires BothNumbers(a, b)
    ensures Greater(Add(a, b), a).boolean <==> b.number > 0.0
    ensures Less(Add(a, b), a).boolean <==> b.number < 0.0
  {
  }

  /** Of `a > b`, `a < b` and `a == b`, exactly one is true. */
  lemma OrderingTrichotomy(a: Value, b: Value)
    requires BothNumbers(a, b)
    ensures Greater(a, b).boolean || Less(a, b).boolean || Equal(a, b).boolean
    ensures !(Greater(a, b).boolean && Less(a, b).boolean)
    ensures !(Greater(a, b).boolean && Equal(a, b).boolean)
    ensures !(Less(a, b).boolean && Equal(a, b).boolean)
  {
  }

  lemma NotEqualNegatesEqual(a: Value, b: Value)
    requires Comparable(a, b)
    ensures NotEqual(a, b) == Bool(!Equal(a, b).boolean)
    ensures Equal(a, b) == Equal(b, a)
  {
  }
}
