/**
 * What the shunting-yard conversion guarantees, for either popping rule:
 * operands keep their order, no `')'` reaches the output, the operator
 * stack stays ordered by precedence between parentheses, and a fully
 * parenthesised expression comes out as its postfix form, so that the
 * postfix machine then computes its value.
 */
module ConversionProperties {
  import opened CalculatorUtils
  import opened ShuntingYard
  import opened PostfixMachine

  /** The operand tokens of a sequence, in order. */
  function Operands(s: seq<Input>): (r: seq<Input>)
    ensures |r| <= |s|
    ensures forall t :: t in r ==> t in s && IsOperand(t)
  {
    if s == [] then []
    else Operands(s[..|s| - 1]) + (if IsOperand(s[|s| - 1]) then [s[|s| - 1]] else [])
  }

  lemma {:induction false} OperandsAppend(a: seq<Input>, b: seq<Input>)
    ensures Operands(a + b) == Operands(a) + Operands(b)
    decreases |b|
  {
    if b == [] {
      assert a + b == a;
    } else {
      assert (a + b)[..|a + b| - 1] == a + b[..|b| - 1];
      OperandsAppend(a, b[..|b| - 1]);
    }
  }

  lemma {:induction false} OperandsOfSnoc(s: seq<Input>, x: Input)
    ensures Operands(s + [x]) == Operands(s) + (if IsOperand(x) then [x] else [])
  {
    assert (s + [x])[..|s|] == s;
  }

  predicate NoCloseParen(s: seq<Input>)
  {
    forall t :: t in s ==> !IsCloseParen(t)
  }

  predicate NoOperand(s: seq<Input>)
  {
    forall t :: t in s ==> !IsOperand(t)
  }

  /**
   * The operator stack holds only `'('` and operators, and no operator
   * outranks the operator directly above it: with `popOnEqual` the
   * precedences strictly increase up to the next `'('`, without it they
   * never decrease.
   */
  predicate StackShape(stack: seq<Input>, popOnEqual: bool)
  {
    && (forall k :: 0 <= k < |stack| ==> IsOpenParen(stack[k]) || IsOperator(stack[k]))
    && (forall k :: 0 < k < |stack| && IsOperator(stack[k - 1]) && IsOperator(stack[k]) ==>
          !Outranks(Precedence(stack[k - 1]), Precedence(stack[k]), popOnEqual))
  }

  /** What holds of the conversion state after any prefix of the input. */
  predicate Invariant(c: Conversion, consumed: seq<Input>, popOnEqual: bool)
  {
    && StackShape(c.stack, popOnEqual)
    && Operands(c.output) == Operands(consumed)
    && NoCloseParen(c.output)
  }

  lemma {:induction false} ShapeHasNoOperand(stack: seq<Input>, popOnEqual: bool)
    requires StackShape(stack, popOnEqual)
    ensures NoOperand(stack) && NoCloseParen(stack)
  {
    forall t | t in stack
      ensures !IsOperand(t) && !IsCloseParen(t)
    {
      TokenClasses(t);
    }
  }

  lemma {:induction false} NoOperandsAtAll(s: seq<Input>)
    requires NoOperand(s)
    ensures Operands(s) == []
    decreases |s|
  {
    if s != [] {
      NoOperandsAtAll(s[..|s| - 1]);
    }
  }

  lemma {:induction false} NoOperandReversed(s: seq<Input>)
    requires NoOperand(s) && NoCloseParen(s)
    ensures Operands(Reversed(s)) == [] && NoCloseParen(Reversed(s))
  {
    ReversedMultiset(s);
    assert forall t :: t in Reversed(s) <==> t in multiset(Reversed(s));
    NoOperandsAtAll(Reversed(s));
  }

  /** Appending stack elements to the output changes neither of the output's invariants. */
  lemma {:induction false} AppendStackPart(output: seq<Input>, part: seq<Input>, consumed: seq<Input>)
    requires Operands(output) == Operands(consumed) && NoCloseParen(output)
    requires NoOperand(part) && NoCloseParen(part)
    ensures Operands(output + Reversed(part)) == Operands(consumed)
    ensures NoCloseParen(output + Reversed(part))
  {
    NoOperandReversed(part);
    OperandsAppend(output, Reversed(part));
    assert Operands(consumed) + [] == Operands(consumed);
  }

  lemma {:induction false} ShapePrefix(stack: seq<Input>, n: nat, popOnEqual: bool)
    requires StackShape(stack, popOnEqual) && n <= |stack|
    ensures StackShape(stack[..n], popOnEqual)
    ensures NoOperand(stack[n..]) && NoCloseParen(stack[n..])
  {
    ShapeHasNoOperand(stack, popOnEqual);
  }

  lemma {:induction false} StepOperand(c: Conversion, consumed: seq<Input>, input: Input, popOnEqual: bool)
    requires Invariant(c, consumed, popOnEqual) && IsOperand(input)
    ensures Invariant(Step(c, input, popOnEqual), consumed + [input], popOnEqual)
  {
    OperandsOfSnoc(c.output, input);
    OperandsOfSnoc(consumed, input);
    TokenClasses(input);
  }

  lemma {:induction false} StepOpen(c: Conversion, consumed: seq<Input>, input: Input, popOnEqual: bool)
    requires Invariant(c, consumed, popOnEqual) && IsOpenParen(input)
    ensures Invariant(Step(c, input, popOnEqual), consumed + [input], popOnEqual)
  {
    TokenClasses(input);
    OperandsOfSnoc(consumed, input);
    assert Operands(consumed) + [] == Operands(consumed);
  }

  lemma {:induction false} StepClose(c: Conversion, consumed: seq<Input>, input: Input, popOnEqual: bool)
    requires Invariant(c, consumed, popOnEqual) && IsCloseParen(input)
    ensures Invariant(Step(c, input, popOnEqual), consumed + [input], popOnEqual)
  {
    TokenClasses(input);
    OperandsOfSnoc(consumed, input);
    assert Operands(consumed) + [] == Operands(consumed);
    var k := LastOpen(c.stack);
    var d := CloseParen(c);
    CloseParenOutput(c);
    assert Step(c, input, popOnEqual) == d;
    ShapePrefix(c.stack, if k < 0 then 0 else k, popOnEqual);
    ShapePrefix(c.stack, k + 1, popOnEqual);
    AppendStackPart(c.output, c.stack[k + 1..], consumed);
  }

  lemma {:induction false} StepOperator(c: Conversion, consumed: seq<Input>, input: Input, popOnEqual: bool)
    requires Invariant(c, consumed, popOnEqual) && IsOperator(input)
    ensures Invariant(Step(c, input, popOnEqual), consumed + [input], popOnEqual)
  {
    TokenClasses(input);
    OperandsOfSnoc(consumed, input);
    assert Operands(consumed) + [] == Operands(consumed);
    var rank := Precedence(input);
    var d := PopOutranking(c, rank, popOnEqual);
    PopOutrankingOutput(c, rank, popOnEqual);
    PopOutrankingStops(c, rank, popOnEqual);
    assert Step(c, input, popOnEqual) == Conversion(d.output, d.stack + [input]);
    assert d.stack == c.stack[..|d.stack|];
    ShapePrefix(c.stack, |d.stack|, popOnEqual);
    AppendStackPart(c.output, c.stack[|d.stack|..], consumed);
    PushOperator(d.stack, input, popOnEqual);
  }

  /** Pushing an operator onto a stack whose top it does not pop keeps the stack's shape. */
  lemma {:induction false} PushOperator(stack: seq<Input>, input: Input, popOnEqual: bool)
    requires StackShape(stack, popOnEqual) && IsOperator(input)
    requires Halts(stack, Precedence(input), popOnEqual)
    ensures StackShape(stack + [input], popOnEqual)
  {
    var s := stack + [input];
    forall k | 0 < k < |s| && IsOperator(s[k - 1]) && IsOperator(s[k])
      ensures !Outranks(Precedence(s[k - 1]), Precedence(s[k]), popOnEqual)
    {
      if k == |stack| {
        TokenClasses(s[k - 1]);
      } else {
        assert s[k - 1] == stack[k - 1] && s[k] == stack[k];
      }
    }
  }

  lemma {:induction false} StepInvariant(c: Conversion, consumed: seq<Input>, input: Input, popOnEqual: bool)
    requires Invariant(c, consumed, popOnEqual)
    ensures Invariant(Step(c, input, popOnEqual), consumed + [input], popOnEqual)
  {
    TokenClasses(input);
    if IsOperand(input) {
      StepOperand(c, consumed, input, popOnEqual);
    } else if IsOpenParen(input) {
      StepOpen(c, consumed, input, popOnEqual);
    } else if IsCloseParen(input) {
      StepClose(c, consumed, input, popOnEqual);
    } else if IsOperator(input) {
      StepOperator(c, consumed, input, popOnEqual);
    } else {
      OperandsOfSnoc(consumed, input);
      assert Operands(consumed) + [] == Operands(consumed);
    }
  }

  /** The main loop keeps the invariant over every prefix of the input. */
  lemma {:induction false} ConvertInvariant(infix: seq<Input>, popOnEqual: bool)
    ensures Invariant(Convert(infix, popOnEqual), infix, popOnEqual)
    decreases |infix|
  {
    if infix != [] {
      var front := infix[..|infix| - 1];
      ConvertInvariant(front, popOnEqual);
      StepInvariant(Convert(front, popOnEqual), front, infix[|infix| - 1], popOnEqual);
      assert front + [infix[|infix| - 1]] == infix;
    }
  }

  /**
   * The postfix output holds the operands in their input order, never a
   * `')'`, and an operator stack that is ordered by precedence.
   */
  lemma {:induction false} PostfixShape(infix: seq<Input>, popOnEqual: bool)
    ensures Operands(ToPostfix(infix, popOnEqual)) == Operands(infix)
    ensures NoCloseParen(ToPostfix(infix, popOnEqual))
    ensures StackShape(Convert(infix, popOnEqual).stack, popOnEqual)
  {
    var c := Convert(infix, popOnEqual);
    ConvertInvariant(infix, popOnEqual);
    ShapeHasNoOperand(c.stack, popOnEqual);
    AppendStackPart(c.output, c.stack, infix);
  }

  // ---------------------------------------------------------------------
  // Fully parenthesised expressions

  /** The infix tokens of an expression with every application in parentheses. */
  function Infix(e: Expr): seq<Input>
  {
    match e
    case Number(n) => [Input(NumberType, n)]
    case Apply(op, left, right) =>
      [CharToken('(')] + Infix(left) + [CharToken(op)] + Infix(right) + [CharToken(')')]
  }

  /**
   * Converting a fully parenthesised expression appends its postfix form to
   * the output and leaves the stack as it found it, whatever the stack
   * holds and under either popping rule.
   */
  lemma {:induction false} FoldParenthesized(e: Expr, c: Conversion, popOnEqual: bool)
    requires WellFormed(e)
    ensures Fold(c, Infix(e), popOnEqual) == Conversion(c.output + Emit(e), c.stack)
  {
    match e
    case Number(n) =>
      FoldSnoc(c, [], Input(NumberType, n), popOnEqual);
    case Apply(op, left, right) =>
      var open, operator := CharToken('('), CharToken(op);
      FoldParenthesized(left, Conversion(c.output, c.stack + [open]), popOnEqual);
      FoldParenthesized(right, Conversion(c.output + Emit(left), c.stack + [open, operator]), popOnEqual);
      FoldApply(c, op, Infix(left), Emit(left), Infix(right), Emit(right), popOnEqual);
  }

  /** The step of `FoldParenthesized` for an application, given what its operands convert to. */
  lemma {:induction false} FoldApply(c: Conversion, op: char, left: seq<Input>, leftPostfix: seq<Input>,
                                     right: seq<Input>, rightPostfix: seq<Input>, popOnEqual: bool)
    requires op in "^+-*/"
    requires Fold(Conversion(c.output, c.stack + [CharToken('(')]), left, popOnEqual) ==
      Conversion(c.output + leftPostfix, c.stack + [CharToken('(')])
    requires Fold(Conversion(c.output + leftPostfix, c.stack + [CharToken('('), CharToken(op)]), right, popOnEqual) ==
      Conversion(c.output + leftPostfix + rightPostfix, c.stack + [CharToken('('), CharToken(op)])
    ensures Fold(c, [CharToken('(')] + left + [CharToken(op)] + right + [CharToken(')')], popOnEqual) ==
      Conversion(c.output + (leftPostfix + rightPostfix + [CharToken(op)]), c.stack)
  {
    var open, operator, close := CharToken('('), CharToken(op), CharToken(')');
    CharTokenClass('(');
    CharTokenClass(op);
    CharTokenClass(')');
    TokenClasses(open);
    TokenClasses(close);
    FoldPieces(c, open, left, operator, right, close, popOnEqual);
    var c1 := Conversion(c.output, c.stack + [open]);
    assert Step(c, open, popOnEqual) == c1;
    var c2 := Conversion(c.output + leftPostfix, c.stack + [open]);
    var c3 := Conversion(c2.output, c.stack + [open, operator]);
    PushTwo(c.stack, open, operator);
    OperatorOverOpen(c2, operator, popOnEqual);
    var c4 := Conversion(c2.output + rightPostfix, c3.stack);
    assert Step(c4, close, popOnEqual) == CloseParen(c4);
    CloseOverOperator(c4, c.stack, open, operator);
    Regroup(c.output, leftPostfix, rightPostfix, operator);
  }

  lemma {:induction false} PushTwo<T>(s: seq<T>, a: T, b: T)
    ensures s + [a] + [b] == s + [a, b]
  {
  }

  lemma {:induction false} Regroup<T>(s: seq<T>, a: seq<T>, b: seq<T>, x: T)
    ensures s + a + b + [x] == s + (a + b + [x])
  {
  }

  /** An operator arriving above a `'('` is pushed without popping anything. */
  lemma {:induction false} OperatorOverOpen(c: Conversion, operator: Input, popOnEqual: bool)
    requires c.stack != [] && IsOpenParen(c.stack[|c.stack| - 1]) && IsOperator(operator)
    ensures Step(c, operator, popOnEqual) == Conversion(c.output, c.stack + [operator])
  {
    TokenClasses(operator);
  }

  /** A `')'` arriving above `'('` and one operator emits the operator and drops the `'('`. */
  lemma {:induction false} CloseOverOperator(c: Conversion, below: seq<Input>, open: Input, operator: Input)
    requires IsOpenParen(open) && IsOperator(operator)
    requires c.stack == below + [open, operator]
    ensures CloseParen(c) == Conversion(c.output + [operator], below)
  {
    TokenClasses(operator);
    var rest := below + [open];
    assert c.stack[..|c.stack| - 1] == rest;
    assert rest[..|rest| - 1] == below;
    ReversedSnoc<Input>([], operator);
  }

  /** Folding over the five pieces of a parenthesised application, one after the other. */
  lemma {:induction false} FoldPieces(c: Conversion, open: Input, left: seq<Input>, operator: Input,
                                      right: seq<Input>, close: Input, popOnEqual: bool)
    ensures Fold(c, [open] + left + [operator] + right + [close], popOnEqual) ==
      Step(Fold(Step(Fold(Step(c, open, popOnEqual), left, popOnEqual), operator, popOnEqual),
                right, popOnEqual), close, popOnEqual)
  {
    FoldSnoc(c, [], open, popOnEqual);
    assert [] + [open] == [open];
    FoldAppend(c, [open], left, popOnEqual);
    FoldSnoc(c, [open] + left, operator, popOnEqual);
    FoldAppend(c, [open] + left + [operator], right, popOnEqual);
    FoldSnoc(c, [open] + left + [operator] + right, close, popOnEqual);
  }

  /** A fully parenthesised expression converts to exactly its postfix form. */
  lemma {:induction false} ParenthesizedToPostfix(e: Expr, popOnEqual: bool)
    requires WellFormed(e)
    ensures ToPostfix(Infix(e), popOnEqual) == Emit(e)
  {
    FoldParenthesized(e, Conversion([], []), popOnEqual);
    assert [] + Emit(e) == Emit(e);
    assert Emit(e) + Reversed<Input>([]) == Emit(e);
  }

  /** Converting and then running a fully parenthesised expression computes its value. */
  lemma {:induction false} ParenthesizedValue(e: Expr, popOnEqual: bool)
    requires WellFormed(e)
    ensures Result(ToPostfix(Infix(e), popOnEqual)) == Eval(e)
  {
    ParenthesizedToPostfix(e, popOnEqual);
    ResultOfEmit(e);
  }

  // ---------------------------------------------------------------------
  // Associativity of operators of equal precedence

  /** Converting five tokens is five steps. */
  lemma {:induction false} ConvertFive(a: Input, b: Input, c: Input, d: Input, e: Input, popOnEqual: bool)
    ensures Convert([a, b, c, d, e], popOnEqual) ==
      var c0 := Conversion([], []);
      Step(Step(Step(Step(Step(c0, a, popOnEqual), b, popOnEqual), c, popOnEqual), d, popOnEqual), e, popOnEqual)
  {
    var c0 := Conversion([], []);
    var infix := [a, b, c, d, e];
    assert infix[..0] == [];
    assert infix[..1][..0] == [];
    assert infix[..2][..1] == infix[..1];
    assert infix[..3][..2] == infix[..2];
    assert infix[..4][..3] == infix[..3];
    assert infix[..4] == infix[..|infix| - 1];
    assert Fold(c0, infix[..1], popOnEqual) == Step(c0, a, popOnEqual);
    assert Fold(c0, infix[..2], popOnEqual) == Step(Fold(c0, infix[..1], popOnEqual), b, popOnEqual);
    assert Fold(c0, infix[..3], popOnEqual) == Step(Fold(c0, infix[..2], popOnEqual), c, popOnEqual);
    assert Fold(c0, infix[..4], popOnEqual) == Step(Fold(c0, infix[..3], popOnEqual), d, popOnEqual);
  }

  /** An incoming operator facing one stacked operator of the same rank. */
  lemma {:induction false} PopSingle(output: seq<Input>, top: Input, rank: int, popOnEqual: bool)
    requires IsOperator(top) && Precedence(top) == rank
    ensures PopOutranking(Conversion(output, [top]), rank, popOnEqual) ==
      if popOnEqual then Conversion(output + [top], []) else Conversion(output, [top])
  {
    TokenClasses(top);
    assert [top][..0] == [];
  }

  /** An operand goes straight to the output. */
  lemma {:induction false} OperandStep(c: Conversion, x: Input, popOnEqual: bool)
    requires IsOperand(x)
    ensures Step(c, x, popOnEqual) == Conversion(c.output + [x], c.stack)
  {
  }

  /** An operator meeting an empty stack is pushed. */
  lemma {:induction false} OperatorOnEmpty(output: seq<Input>, o: Input, popOnEqual: bool)
    requires IsOperator(o)
    ensures Step(Conversion(output, []), o, popOnEqual) == Conversion(output, [o])
  {
    TokenClasses(o);
    assert [] + [o] == [o];
  }

  /** An operator meeting one stacked operator of the same rank. */
  lemma {:induction false} OperatorOnSingle(output: seq<Input>, top: Input, o: Input, popOnEqual: bool)
    requires IsOperator(top) && IsOperator(o) && Precedence(top) == Precedence(o)
    ensures Step(Conversion(output, [top]), o, popOnEqual) ==
      if popOnEqual then Conversion(output + [top], [o]) else Conversion(output, [top, o])
  {
    TokenClasses(o);
    PopSingle(output, top, Precedence(o), popOnEqual);
    assert [] + [o] == [o];
    assert [top] + [o] == [top, o];
  }

  /** The conversion state after `x o1 y o2 z`, one token at a time. */
  lemma {:induction false} ChainSteps(x: Input, o1: Input, y: Input, o2: Input, z: Input, popOnEqual: bool)
    requires IsOperand(x) && IsOperand(y) && IsOperand(z)
    requires IsOperator(o1) && IsOperator(o2) && Precedence(o1) == Precedence(o2)
    ensures Convert([x, o1, y, o2, z], popOnEqual) ==
      if popOnEqual then Conversion([x, y, o1, z], [o2]) else Conversion([x, y, z], [o1, o2])
  {
    ConvertFive(x, o1, y, o2, z, popOnEqual);
    var c0 := Conversion([], []);
    OperandStep(c0, x, popOnEqual);
    assert [] + [x] == [x];
    var c1 := Conversion([x], []);
    OperatorOnEmpty([x], o1, popOnEqual);
    var c2 := Conversion([x], [o1]);
    OperandStep(c2, y, popOnEqual);
    assert [x] + [y] == [x, y];
    var c3 := Conversion([x, y], [o1]);
    OperatorOnSingle([x, y], o1, o2, popOnEqual);
    assert [x, y] + [o1] == [x, y, o1];
    if popOnEqual {
      var c4 := Conversion([x, y, o1], [o2]);
      OperandStep(c4, z, popOnEqual);
      assert [x, y, o1] + [z] == [x, y, o1, z];
    } else {
      var c4 := Conversion([x, y], [o1, o2]);
      OperandStep(c4, z, popOnEqual);
      assert [x, y] + [z] == [x, y, z];
    }
  }

  /**
   * With `popOnEqual`, `x o1 y o2 z` for operators of equal precedence
   * becomes `x y o1 z o2`: the operators associate to the left.
   */
  lemma {:induction false} EqualRuleLeftAssociates(x: Input, o1: Input, y: Input, o2: Input, z: Input)
    requires IsOperand(x) && IsOperand(y) && IsOperand(z)
    requires IsOperator(o1) && IsOperator(o2) && Precedence(o1) == Precedence(o2)
    ensures ToPostfix([x, o1, y, o2, z], true) == [x, y, o1, z, o2]
  {
    ChainSteps(x, o1, y, o2, z, true);
    ReversedSnoc<Input>([], o2);
    assert [] + [o2] == [o2];
  }

  /**
   * Popping only on strictly greater precedence turns `x o1 y o2 z`, for
   * operators of equal precedence, into `x y z o2 o1`: the operators
   * associate to the right.
   */
  lemma {:induction false} StrictRuleRightAssociates(x: Input, o1: Input, y: Input, o2: Input, z: Input)
    requires IsOperand(x) && IsOperand(y) && IsOperand(z)
    requires IsOperator(o1) && IsOperator(o2) && Precedence(o1) == Precedence(o2)
    ensures ToPostfix([x, o1, y, o2, z], false) == [x, y, z, o2, o1]
  {
    ChainSteps(x, o1, y, o2, z, false);
    ReversedSnoc<Input>([], o1);
    assert [] + [o1] == [o1];
    ReversedSnoc<Input>([o1], o2);
    assert [o1] + [o2] == [o1, o2];
    assert Reversed([o1, o2]) == [o2, o1];
  }

  function Num(n: int): Input
  {
    Input(NumberType, n)
  }

  /** "8-3-2" is 3 when converted with `popOnEqual` and 7 when converted without it. */
  lemma {:induction false} SubtractionChain()
    ensures Result(ToPostfix([Num(8), CharToken('-'), Num(3), CharToken('-'), Num(2)], true)) == Value(3)
    ensures Result(ToPostfix([Num(8), CharToken('-'), Num(3), CharToken('-'), Num(2)], false)) == Value(7)
  {
    var minus := CharToken('-');
    CharTokenClass('-');
    EqualRuleLeftAssociates(Num(8), minus, Num(3), minus, Num(2));
    StrictRuleRightAssociates(Num(8), minus, Num(3), minus, Num(2));
    SubtractLeft();
    SubtractRight();
  }

  /** `8 3 - 2 -` is (8 - 3) - 2. */
  lemma {:induction false} SubtractLeft()
    ensures Result([Num(8), Num(3), CharToken('-'), Num(2), CharToken('-')]) == Value(3)
  {
    var inner := Apply('-', Number(8), Number(3));
    var e := Apply('-', inner, Number(2));
    assert Emit(inner) == [Num(8), Num(3), CharToken('-')];
    assert Emit(e) == [Num(8), Num(3), CharToken('-'), Num(2), CharToken('-')];
    assert Eval(inner) == Value(5);
    assert Eval(e) == Value(3);
    ResultOfEmit(e);
  }

  /** `8 3 2 - -` is 8 - (3 - 2). */
  lemma {:induction false} SubtractRight()
    ensures Result([Num(8), Num(3), Num(2), CharToken('-'), CharToken('-')]) == Value(7)
  {
    var inner := Apply('-', Number(3), Number(2));
    var e := Apply('-', Number(8), inner);
    assert Emit(inner) == [Num(3), Num(2), CharToken('-')];
    assert Emit(e) == [Num(8), Num(3), Num(2), CharToken('-'), CharToken('-')];
    assert Eval(inner) == Value(1);
    assert Eval(e) == Value(7);
    ResultOfEmit(e);
  }

  // ---------------------------------------------------------------------
  // The sample expression `a * ( b + c ) - d / e`

  /** The infix tokens of `a * ( b + c ) - d / e`. */
  function SampleInfix(a: int, b: int, c: int, d: int, e: int): seq<Input>
  {
    [Num(a), CharToken('*'), CharToken('('), Num(b), CharToken('+'), Num(c), CharToken(')'),
     CharToken('-'), Num(d), CharToken('/'), Num(e)]
  }

  /** Its postfix form `a b c + * d e / -`. */
  function SamplePostfix(a: int, b: int, c: int, d: int, e: int): seq<Input>
  {
    [Num(a), Num(b), Num(c), CharToken('+'), CharToken('*'), Num(d), Num(e), CharToken('/'), CharToken('-')]
  }

  /**
   * Both popping rules convert `a * ( b + c ) - d / e` to
   * `a b c + * d e / -`: no two operators of equal precedence meet.
   */
  lemma {:induction false} SampleToPostfix(a: int, b: int, c: int, d: int, e: int, popOnEqual: bool)
    ensures ToPostfix(SampleInfix(a, b, c, d, e), popOnEqual) == SamplePostfix(a, b, c, d, e)
  {
    var minus, slash := CharToken('-'), CharToken('/');
    SampleConvert(a, b, c, d, e, popOnEqual);
    ReversedSnoc<Input>([], minus);
    ReversedSnoc<Input>([minus], slash);
    assert [] + [minus] == [minus] && [minus] + [slash] == [minus, slash];
  }

  /** The state after the main loop has consumed `a * ( b + c ) - d / e`. */
  lemma {:induction false} SampleConvert(a: int, b: int, c: int, d: int, e: int, popOnEqual: bool)
    ensures Convert(SampleInfix(a, b, c, d, e), popOnEqual) ==
      Conversion([Num(a), Num(b), Num(c), CharToken('+'), CharToken('*'), Num(d), Num(e)],
                 [CharToken('-'), CharToken('/')])
  {
    var front := [Num(a), CharToken('*')] + Infix(Apply('+', Number(b), Number(c)));
    var tail := [CharToken('-'), Num(d), CharToken('/'), Num(e)];
    SampleSplits(a, b, c, d, e);
    FoldAppend(Conversion([], []), front, tail, popOnEqual);
    SampleFront(a, b, c, popOnEqual);
    SampleTail([Num(a), Num(b), Num(c), CharToken('+')], d, e, popOnEqual);
  }

  /** `a * ( b + c )` leaves `a b c +` in the output and `*` on the stack. */
  lemma {:induction false} SampleFront(a: int, b: int, c: int, popOnEqual: bool)
    ensures Fold(Conversion([], []), [Num(a), CharToken('*')] + Infix(Apply('+', Number(b), Number(c))), popOnEqual) ==
      Conversion([Num(a), Num(b), Num(c), CharToken('+')], [CharToken('*')])
  {
    var inner := Apply('+', Number(b), Number(c));
    FoldAppend(Conversion([], []), [Num(a), CharToken('*')], Infix(inner), popOnEqual);
    SampleHead(a, popOnEqual);
    FoldParenthesized(inner, Conversion([Num(a)], [CharToken('*')]), popOnEqual);
    assert Emit(inner) == [Num(b), Num(c), CharToken('+')];
  }

  /** The sample is `a *`, the parenthesised `b + c`, then `- d / e`. */
  lemma {:induction false} SampleSplits(a: int, b: int, c: int, d: int, e: int)
    ensures SampleInfix(a, b, c, d, e) ==
      [Num(a), CharToken('*')] + Infix(Apply('+', Number(b), Number(c))) + [CharToken('-'), Num(d), CharToken('/'), Num(e)]
  {
    assert Infix(Apply('+', Number(b), Number(c))) == [CharToken('('), Num(b), CharToken('+'), Num(c), CharToken(')')];
  }

  /** `a *` leaves `a` in the output and `*` on the stack. */
  lemma {:induction false} SampleHead(a: int, popOnEqual: bool)
    ensures Fold(Conversion([], []), [Num(a), CharToken('*')], popOnEqual) == Conversion([Num(a)], [CharToken('*')])
  {
    var c0 := Conversion([], []);
    CharTokenClass('*');
    FoldSnoc(c0, [], Num(a), popOnEqual);
    assert [] + [Num(a)] == [Num(a)];
    OperandStep(c0, Num(a), popOnEqual);
    FoldSnoc(c0, [Num(a)], CharToken('*'), popOnEqual);
    OperatorOnEmpty([Num(a)], CharToken('*'), popOnEqual);
  }

  /** `- d / e` after `*`: the `-` pops the `*`, and the `/` stays above the `-`. */
  lemma {:induction false} SampleTail(output: seq<Input>, d: int, e: int, popOnEqual: bool)
    ensures Fold(Conversion(output, [CharToken('*')]), [CharToken('-'), Num(d), CharToken('/'), Num(e)], popOnEqual) ==
      Conversion(output + [CharToken('*'), Num(d), Num(e)], [CharToken('-'), CharToken('/')])
  {
    var star, minus, slash := CharToken('*'), CharToken('-'), CharToken('/');
    var c := Conversion(output, [star]);
    FoldFour(c, minus, Num(d), slash, Num(e), popOnEqual);
    var c1 := Conversion(output + [star], [minus]);
    MinusPopsStar(output, popOnEqual);
    var c2 := Conversion(output + [star] + [Num(d)], [minus]);
    OperandStep(c1, Num(d), popOnEqual);
    var c3 := Conversion(output + [star] + [Num(d)], [minus, slash]);
    SlashOverMinus(c2.output, popOnEqual);
    OperandStep(c3, Num(e), popOnEqual);
    assert output + [star] + [Num(d)] + [Num(e)] == output + [star, Num(d), Num(e)];
  }

  /** An incoming `-` pops a stacked `*` under either rule, then is pushed. */
  lemma {:induction false} MinusPopsStar(output: seq<Input>, popOnEqual: bool)
    ensures Step(Conversion(output, [CharToken('*')]), CharToken('-'), popOnEqual) ==
      Conversion(output + [CharToken('*')], [CharToken('-')])
  {
    var star, minus := CharToken('*'), CharToken('-');
    CharTokenClass('*');
    CharTokenClass('-');
    PrecedenceTable('*');
    PrecedenceTable('-');
    TokenClasses(minus);
    assert [star][..0] == [];
    assert PopOutranking(Conversion(output, [star]), 1, popOnEqual) == Conversion(output + [star], []);
    assert [] + [minus] == [minus];
  }

  /** An incoming `/` does not pop a stacked `-` under either rule. */
  lemma {:induction false} SlashOverMinus(output: seq<Input>, popOnEqual: bool)
    ensures Step(Conversion(output, [CharToken('-')]), CharToken('/'), popOnEqual) ==
      Conversion(output, [CharToken('-'), CharToken('/')])
  {
    var minus, slash := CharToken('-'), CharToken('/');
    CharTokenClass('-');
    CharTokenClass('/');
    PrecedenceTable('-');
    PrecedenceTable('/');
    TokenClasses(slash);
    assert [minus] + [slash] == [minus, slash];
  }

  /** Folding over four tokens is four steps. */
  lemma {:induction false} FoldFour(c: Conversion, t1: Input, t2: Input, t3: Input, t4: Input, popOnEqual: bool)
    ensures Fold(c, [t1, t2, t3, t4], popOnEqual) ==
      Step(Step(Step(Step(c, t1, popOnEqual), t2, popOnEqual), t3, popOnEqual), t4, popOnEqual)
  {
    FoldSnoc(c, [], t1, popOnEqual);
    assert [] + [t1] == [t1];
    FoldSnoc(c, [t1], t2, popOnEqual);
    assert [t1] + [t2] == [t1, t2];
    FoldSnoc(c, [t1, t2], t3, popOnEqual);
    assert [t1, t2] + [t3] == [t1, t2, t3];
    FoldSnoc(c, [t1, t2, t3], t4, popOnEqual);
    assert [t1, t2, t3] + [t4] == [t1, t2, t3, t4];
  }

  /** `7 2 6 + * 15 3 / -` computes 7 * (2 + 6) - 15 / 3 = 51. */
  lemma {:induction false} SampleValue()
    ensures Result(SamplePostfix(7, 2, 6, 15, 3)) == Value(51)
  {
    var sum := Apply('+', Number(2), Number(6));
    var product := Apply('*', Number(7), sum);
    var quotient := Apply('/', Number(15), Number(3));
    var e := Apply('-', product, quotient);
    assert Emit(sum) == [Num(2), Num(6), CharToken('+')];
    assert Emit(product) == [Num(7)] + Emit(sum) + [CharToken('*')];
    assert Emit(quotient) == [Num(15), Num(3), CharToken('/')];
    assert Emit(e) == SamplePostfix(7, 2, 6, 15, 3);
    assert Eval(sum) == Value(8);
    assert Eval(product) == Value(56);
    assert CDiv(15, 3) == 5;
    assert Eval(quotient) == Value(5);
    assert Eval(e) == Value(51);
    ResultOfEmit(e);
  }
}
