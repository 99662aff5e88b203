/**
 * The reference definition of `calculate` and `evaluate`: C's integer
 * operators, and a stack machine that runs a postfix token sequence one
 * token at a time.
 */
module PostfixMachine {
  import opened CalculatorUtils

  /**
   * What evaluating an operator or a whole postfix sequence gives: a value,
   * a division by zero (which `evaluate` reports through `errno`), a power
   * whose C value is undefined, or a pop from an empty stack, whose effect
   * the stack library decides.
   */
  datatype Outcome = Value(n: int) | DivisionByZero | Undefined | StackUnderflow

  function Abs(x: int): nat
  {
    if x < 0 then -x else x
  }

  /** C's `b / a` on `int`: the quotient truncated toward zero. */
  function CDiv(b: int, a: int): (q: int)
    requires a != 0
    ensures Abs(b - q * a) < Abs(a)
    ensures b - q * a == 0 || (b - q * a < 0 <==> b < 0)
  {
    var m := Abs(b) / Abs(a);
    var r := Abs(b) % Abs(a);
    assert Abs(b) == m * Abs(a) + r;
    if (b < 0) == (a < 0) then
      assert b - m * a == if b < 0 then -r else r;
      m
    else
      assert b - (-m) * a == if b < 0 then -r else r;
      -m
  }

  /** Truncation toward zero differs from Dafny's Euclidean division on negative operands. */
  lemma {:induction false} CDivExamples()
    ensures CDiv(15, 3) == 5 && CDiv(5, 3) == 1
    ensures CDiv(-7, 2) == -3 && -7 / 2 == -4
    ensures CDiv(7, -2) == -3 && CDiv(-7, -2) == 3
  {
  }

  function Power(base: int, exponent: nat): (p: int)
    ensures base != 0 ==> p != 0
  {
    if exponent == 0 then 1 else base * Power(base, exponent - 1)
  }

  /**
   * `(int) pow(b, a)` for integer arguments: the power itself for a
   * non-negative exponent; for a negative one the fraction `1 / b^-a`
   * truncated toward zero, which is undefined (infinite) for `b == 0`.
   */
  function PowResult(b: int, a: int): (o: Outcome)
    ensures a >= 0 ==> o == Value(Power(b, a))
    ensures o.Undefined? <==> a < 0 && b == 0
    ensures o.Value? || o.Undefined?
  {
    if a >= 0 then Value(Power(b, a))
    else if b == 0 then Undefined
    else if b == 1 then Value(1)
    else if b == -1 then Value(if (-a) % 2 == 0 then 1 else -1)
    else Value(0)
  }

  lemma {:induction false} PowerOfMinusOne(n: nat)
    ensures Power(-1, n) == if n % 2 == 0 then 1 else -1
  {
    if n > 0 {
      PowerOfMinusOne(n - 1);
    }
  }

  lemma {:induction false} PowerOfOne(n: nat)
    ensures Power(1, n) == 1
  {
    if n > 0 {
      PowerOfOne(n - 1);
    }
  }

  lemma {:induction false} PowerGrows(b: int, n: nat)
    requires Abs(b) >= 2 && n >= 1
    ensures Abs(Power(b, n)) >= 2
  {
    if n > 1 {
      PowerGrows(b, n - 1);
      var p := Power(b, n - 1);
      assert Abs(b * p) == Abs(b) * Abs(p);
    }
  }

  /** For a negative exponent the result is `1 / b^-a` under C's truncating division. */
  lemma {:induction false} PowNegativeExponent(b: int, a: int)
    requires a < 0 && b != 0
    ensures PowResult(b, a) == Value(CDiv(1, Power(b, -a)))
  {
    if b == 1 {
      PowerOfOne(-a);
    } else if b == -1 {
      PowerOfMinusOne(-a);
    } else {
      PowerGrows(b, -a);
      CDivSmall(1, Power(b, -a));
    }
  }

  lemma {:induction false} CDivSmall(b: int, a: int)
    requires a != 0 && Abs(b) < Abs(a)
    ensures CDiv(b, a) == 0
  {
    assert Abs(b) / Abs(a) == 0;
  }

  /**
   * `evaluate(a, b, op)`: `a` is the right operand and `b` the left one.
   * Division by zero is reported instead of performed, and any character
   * that is not an operator gives 0.
   */
  function Evaluate(a: int, b: int, operator: int): (o: Outcome)
    ensures o.DivisionByZero? <==> operator == '/' as int && a == 0
    ensures o.Undefined? <==> operator == '^' as int && a < 0 && b == 0
    ensures !o.StackUnderflow?
    ensures !IsOperatorCode(operator) ==> o == Value(0)
    ensures operator == '/' as int && a != 0 ==> o.Value? && Abs(b - o.n * a) < Abs(a)
  {
    if operator == '+' as int then Value(b + a)
    else if operator == '-' as int then Value(b - a)
    else if operator == '*' as int then Value(b * a)
    else if operator == '/' as int then
      if a == 0 then DivisionByZero else Value(CDiv(b, a))
    else if operator == '^' as int then PowResult(b, a)
    else Value(0)
  }

  // ---------------------------------------------------------------------
  // The stack machine of `calculate`

  /** The machine's state: the value stack, top last, or the fault that stopped it. */
  datatype Machine = Running(stack: seq<int>) | Faulted(outcome: Outcome)

  /**
   * One postfix token: an operand pushes its value; an operator pops the
   * right operand, then the left one, and pushes the result; other tokens
   * are skipped.  A fault stops the machine for good.
   */
  function Exec(m: Machine, input: Input): (next: Machine)
    ensures m.Faulted? ==> next == m
    ensures m.Running? && next.Running? ==>
      |next.stack| == |m.stack| + (if IsOperand(input) then 1 else if IsOperator(input) then -1 else 0)
    ensures next.Faulted? && m.Running? ==> IsOperator(input)
  {
    match m
    case Faulted(_) => m
    case Running(stack) =>
      if IsOperand(input) then Running(stack + [input.value])
      else if IsOperator(input) then
        if |stack| < 2 then Faulted(StackUnderflow)
        else
          var o := Evaluate(stack[|stack| - 1], stack[|stack| - 2], CharCast(input.value));
          if o.Value? then Running(stack[..|stack| - 2] + [o.n]) else Faulted(o)
      else m
  }

  /** The machine after running a token sequence from `m`. */
  function Run(m: Machine, inputs: seq<Input>): Machine
  {
    if inputs == [] then m else Exec(Run(m, inputs[..|inputs| - 1]), inputs[|inputs| - 1])
  }

  /** What `calculate` computes: the top of the final stack. */
  function Result(postfix: seq<Input>): (o: Outcome)
    ensures o.StackUnderflow? <==>
      Run(Running([]), postfix) == Running([]) ||
      Run(Running([]), postfix) == Faulted(StackUnderflow)
  {
    match Run(Running([]), postfix)
    case Faulted(o) => o
    case Running(stack) => if stack == [] then StackUnderflow else Value(stack[|stack| - 1])
  }

  /** Running two sequences one after the other is running their concatenation. */
  lemma {:induction false} RunAppend(m: Machine, a: seq<Input>, b: seq<Input>)
    ensures Run(m, a + b) == Run(Run(m, a), b)
    decreases |b|
  {
    if b == [] {
      assert a + b == a;
    } else {
      assert (a + b)[..|a + b| - 1] == a + b[..|b| - 1];
      RunAppend(m, a, b[..|b| - 1]);
    }
  }

  /** Once faulted, the machine stays faulted whatever follows. */
  lemma {:induction false} FaultSticks(o: Outcome, inputs: seq<Input>)
    ensures Run(Faulted(o), inputs) == Faulted(o)
    decreases |inputs|
  {
    if inputs != [] {
      FaultSticks(o, inputs[..|inputs| - 1]);
    }
  }

  // ---------------------------------------------------------------------
  // Expressions: what a postfix sequence means

  /** An arithmetic expression over integers. */
  datatype Expr = Number(n: int) | Apply(op: char, left: Expr, right: Expr)

  predicate WellFormed(e: Expr)
  {
    match e
    case Number(_) => true
    case Apply(op, left, right) => op in "^+-*/" && WellFormed(left) && WellFormed(right)
  }

  /** The postfix token sequence of an expression. */
  function Emit(e: Expr): seq<Input>
  {
    match e
    case Number(n) => [Input(NumberType, n)]
    case Apply(op, left, right) => Emit(left) + Emit(right) + [CharToken(op)]
  }

  /** The value of an expression, with `evaluate`'s operators, left operand first. */
  function Eval(e: Expr): (o: Outcome)
    ensures !o.StackUnderflow?
  {
    match e
    case Number(n) => Value(n)
    case Apply(op, left, right) =>
      var l := Eval(left);
      if !l.Value? then l
      else
        var r := Eval(right);
        if !r.Value? then r
        else Evaluate(r.n, l.n, CharCode(op))
  }

  /** The machine state an outcome leaves on top of `stack`. */
  function Pushed(stack: seq<int>, o: Outcome): Machine
  {
    if o.Value? then Running(stack + [o.n]) else Faulted(o)
  }

  /** Running an expression's postfix form pushes its value, or stops with its fault. */
  lemma {:induction false} EmitRuns(e: Expr, stack: seq<int>)
    requires WellFormed(e)
    ensures Run(Running(stack), Emit(e)) == Pushed(stack, Eval(e))
  {
    match e
    case Number(n) =>
      assert Emit(e)[..0] == [];
    case Apply(op, left, right) =>
      var m := Running(stack);
      RunSnoc(m, Emit(left) + Emit(right), CharToken(op));
      RunAppend(m, Emit(left), Emit(right));
      EmitRuns(left, stack);
      var l := Eval(left);
      if !l.Value? {
        FaultSticks(l, Emit(right));
      } else {
        EmitRuns(right, stack + [l.n]);
        var r := Eval(right);
        if r.Value? {
          ApplyOperator(stack, l.n, r.n, op);
        }
      }
  }

  lemma {:induction false} RunSnoc(m: Machine, inputs: seq<Input>, input: Input)
    ensures Run(m, inputs + [input]) == Exec(Run(m, inputs), input)
  {
    assert (inputs + [input])[..|inputs|] == inputs;
  }

  /** An operator token applied to the two values on top of the stack. */
  lemma {:induction false} ApplyOperator(stack: seq<int>, left: int, right: int, op: char)
    requires op in "^+-*/"
    ensures Exec(Running(stack + [left] + [right]), CharToken(op)) ==
      Pushed(stack, Evaluate(right, left, CharCode(op)))
  {
    var s := stack + [left] + [right];
    assert s[|s| - 1] == right && s[|s| - 2] == left && s[..|s| - 2] == stack;
    CharTokenClass(op);
    CharCastOfCode(op);
  }

  /** The postfix machine computes the value of every well-formed expression. */
  lemma {:induction false} ResultOfEmit(e: Expr)
    requires WellFormed(e)
    ensures Result(Emit(e)) == Eval(e)
  {
    EmitRuns(e, []);
  }
}
