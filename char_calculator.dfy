/**
 * The first, character-based revision of the calculator, `Calculator.c`:
 * every character of the infix string is a token of its own.  An operator
 * or a parenthesis stands for itself and any other character is an operand
 * worth `c - '0'`, so "12" is two operands and a space is the operand -16.
 *
 * The revision is modelled by lifting each character to the token of the
 * integer calculator it stands for (`Lift`) and proving that its loops
 * compute the shared reference definitions `ToPostfix` and `Result` on the
 * lifted sequence.
 */
module CharCalculator {
  import opened Stacks
  import opened CalculatorUtils
  import opened ShuntingYard
  import opened PostfixMachine
  import opened ConversionProperties
  import Calculator

  // ---------------------------------------------------------------------
  // Characters

  /** `isOperator`. */
  predicate IsOperatorChar(c: char)
  {
    c == '^' || c == '+' || c == '-' || c == '*' || c == '/'
  }

  /** `isParenthesis`. */
  predicate IsParenthesisChar(c: char)
  {
    c == '(' || c == ')'
  }

  /** `isOperand`: everything that is neither an operator nor a parenthesis, a space included. */
  predicate IsOperandChar(c: char)
  {
    !(IsOperatorChar(c) || IsParenthesisChar(c))
  }

  /**
   * The token a character stands for: an operator or a parenthesis is the
   * CHAR token of that character, anything else a NUMBER token worth
   * `c - '0'` in C's signed `char` arithmetic.  The token predicates of the
   * integer calculator classify it exactly as the character predicates
   * classify the character.
   */
  function Lift(c: char): (input: Input)
    ensures IsOperator(input) <==> IsOperatorChar(c)
    ensures IsOpenParen(input) <==> c == '('
    ensures IsCloseParen(input) <==> c == ')'
    ensures IsOperand(input) <==> IsOperandChar(c)
  {
    if IsOperandChar(c) then Input(NumberType, CharCode(c) - '0' as int)
    else
      CharTokenClass(c);
      CharToken(c)
  }

  /** The tokens a character sequence stands for, one per character. */
  function LiftSeq(s: seq<char>): seq<Input>
  {
    seq(|s|, k requires 0 <= k < |s| => Lift(s[k]))
  }

  lemma LiftSnoc(s: seq<char>, c: char)
    ensures LiftSeq(s + [c]) == LiftSeq(s) + [Lift(c)]
  {
  }

  lemma LiftPrefix(s: seq<char>, i: nat)
    requires i <= |s|
    ensures LiftSeq(s[..i]) == LiftSeq(s)[..i]
  {
  }

  /** Distinct characters of the C character set stand for distinct tokens. */
  lemma {:induction false} LiftInjective(c: char, d: char)
    requires c as int < 256 && d as int < 256
    ensures Lift(c) == Lift(d) ==> c == d
  {
    if Lift(c) == Lift(d) {
      assert CharCast(c as int) == CharCast(d as int);
    }
  }

  /** On the C character set, the tokens a string stands for determine the string. */
  lemma {:induction false} LiftSeqInjective(s: seq<char>, t: seq<char>)
    requires forall k :: 0 <= k < |s| ==> s[k] as int < 256
    requires forall k :: 0 <= k < |t| ==> t[k] as int < 256
    ensures LiftSeq(s) == LiftSeq(t) ==> s == t
  {
    if LiftSeq(s) == LiftSeq(t) {
      forall k | 0 <= k < |s|
        ensures s[k] == t[k]
      {
        assert LiftSeq(s)[k] == Lift(s[k]) && LiftSeq(t)[k] == Lift(t[k]);
        LiftInjective(s[k], t[k]);
      }
    }
  }

  /** `precedence`: 0 for anything but an operator, then `+ -` < `* /` < `^`. */
  function Precedence(op: char): (rank: int)
    ensures rank == 0 <==> !IsOperatorChar(op)
    ensures 0 <= rank <= 3
  {
    match op
    case '+' => 1
    case '-' => 1
    case '*' => 2
    case '/' => 2
    case '^' => 3
    case _ => 0
  }

  /** On operators this revision ranks as the integer calculator does. */
  lemma {:induction false} PrecedenceAgrees(c: char)
    requires IsOperatorChar(c)
    ensures Precedence(c) == ShuntingYard.Precedence(Lift(c))
  {
    PrecedenceTable(c);
  }

  /**
   * The popping test of `infixToPostfix`, `precedence(top) > precedence(c)`
   * for an incoming operator `c`, is the integer calculator's test on the
   * lifted tokens, whatever character is on top.
   */
  lemma {:induction false} OutranksAgree(top: char, c: char)
    requires IsOperatorChar(c)
    ensures Precedence(top) > Precedence(c) <==>
      Outranks(ShuntingYard.Precedence(Lift(top)), ShuntingYard.Precedence(Lift(c)), false)
  {
    PrecedenceAgrees(c);
    if IsOperatorChar(top) {
      PrecedenceAgrees(top);
    }
  }

  /**
   * `evaluate`: `a` is the right operand and `b` the left one.  There is no
   * check for a zero divisor, and `pow` of a zero base with a negative
   * exponent is infinite; C leaves both undefined, so the caller must rule
   * them out.  The value is the integer calculator's.
   */
  function Evaluate(a: int, b: int, op: char): (r: int)
    requires op == '/' ==> a != 0
    requires op == '^' ==> !(a < 0 && b == 0)
    ensures PostfixMachine.Evaluate(a, b, op as int) == Value(r)
    ensures !IsOperatorChar(op) ==> r == 0
  {
    match op
    case '+' => b + a
    case '-' => b - a
    case '*' => b * a
    case '/' => CDiv(b, a)
    case '^' => PowResult(b, a).n
    case _ => 0
  }

  // ---------------------------------------------------------------------
  // The character stack

  /** `peekChar`: pops the top and pushes it back. */
  method PeekChar(stack: Stack<char>) returns (c: char)
    requires stack.items != []
    modifies stack
    ensures stack.items == old(stack.items)
    ensures c == stack.items[|stack.items| - 1]
  {
    c := stack.Pop();
    stack.Push(c);
  }

  /** `popChar`. */
  method PopChar(stack: Stack<char>) returns (c: char)
    requires stack.items != []
    modifies stack
    ensures stack.items + [c] == old(stack.items)
  {
    c := stack.Pop();
  }

  /** `pushChar`. */
  method PushChar(stack: Stack<char>, c: char)
    modifies stack
    ensures stack.items == old(stack.items) + [c]
  {
    stack.Push(c);
  }

  // ---------------------------------------------------------------------
  // infixToPostfix

  /**
   * `infixToPostfix`: writes the postfix form of `infix` to the caller's
   * buffer, popping only stacked operators of greater precedence, and
   * returns the index of the last character written.  Nothing past the
   * postfix form is written.
   */
  method InfixToPostfix(infix: seq<char>, postfix: array<char>) returns (last: int)
    requires |infix| <= postfix.Length
    modifies postfix
    ensures 0 <= last + 1 <= postfix.Length
    ensures LiftSeq(postfix[..last + 1]) == ToPostfix(LiftSeq(infix), false)
    ensures forall k :: last + 1 <= k < postfix.Length ==> postfix[k] == old(postfix[k])
    ensures From(postfix[..last + 1], infix)
  {
    ghost var inputs := LiftSeq(infix);
    var stack := new Stack<char>();
    var postfixLocation := 0;
    var i := 0;
    while i < |infix|
      invariant 0 <= i <= |infix|
      invariant postfixLocation + |stack.items| <= i
      invariant Conversion(LiftSeq(postfix[..postfixLocation]), LiftSeq(stack.items)) == Convert(inputs[..i], false)
      invariant Untouched(postfix, postfixLocation)
      invariant From(postfix[..postfixLocation], infix) && From(stack.items, infix)
    {
      Calculator.ConvertSnoc(inputs, i, false);
      postfixLocation := ConsumeChar(stack, postfix, postfixLocation, infix[i], infix);
      i := i + 1;
    }
    assert inputs[..i] == inputs;
    postfixLocation := PopAll(stack, postfix, postfixLocation, infix);
    return postfixLocation - 1;
  }

  /** Every character of `s` is a character of `infix`. */
  ghost predicate From(s: seq<char>, infix: seq<char>)
  {
    forall x :: x in s ==> x in infix
  }

  /**
   * The last loop of `infixToPostfix`: pops the whole stack to the buffer,
   * top first.
   */
  method PopAll(stack: Stack<char>, postfix: array<char>, loc: nat, ghost infix: seq<char>) returns (next: nat)
    requires loc + |stack.items| <= postfix.Length
    requires From(postfix[..loc], infix) && From(stack.items, infix)
    modifies stack, postfix
    ensures next == loc + |old(stack.items)| && stack.items == []
    ensures LiftSeq(postfix[..next]) == LiftSeq(old(postfix[..loc])) + Reversed(LiftSeq(old(stack.items)))
    ensures Untouched(postfix, next)
    ensures From(postfix[..next], infix)
  {
    ghost var target := LiftSeq(postfix[..loc]) + Reversed(LiftSeq(stack.items));
    next := loc;
    while !stack.IsEmpty()
      invariant next + |stack.items| == loc + |old(stack.items)|
      invariant LiftSeq(postfix[..next]) + Reversed(LiftSeq(stack.items)) == target
      invariant Untouched(postfix, next)
      invariant From(postfix[..next], infix) && From(stack.items, infix)
      decreases |stack.items|
    {
      ghost var written := postfix[..next];
      var c := MoveTop(stack, postfix, next, infix);
      ReversedSnoc(LiftSeq(stack.items), Lift(c));
      AppendShift(LiftSeq(written), Lift(c), Reversed(LiftSeq(stack.items)));
      next := next + 1;
    }
    AppendEmpty(LiftSeq(postfix[..next]));
  }

  /** `postfix[loc] = popChar(stack)`. */
  method MoveTop(stack: Stack<char>, postfix: array<char>, loc: nat, ghost infix: seq<char>) returns (c: char)
    requires stack.items != [] && loc < postfix.Length
    requires From(postfix[..loc], infix) && From(stack.items, infix)
    modifies stack, postfix
    ensures old(stack.items) == stack.items + [c]
    ensures LiftSeq(old(stack.items)) == LiftSeq(stack.items) + [Lift(c)]
    ensures LiftSeq(postfix[..loc + 1]) == LiftSeq(old(postfix[..loc])) + [Lift(c)]
    ensures Untouched(postfix, loc + 1)
    ensures From(postfix[..loc + 1], infix) && From(stack.items, infix)
  {
    ghost var written := postfix[..loc];
    c := PopChar(stack);
    assert c in old(stack.items);
    LiftSnoc(stack.items, c);
    Put(postfix, loc, c);
    LiftSnoc(written, c);
  }

  /** Whether the buffer from `from` on still holds what it held on entry. */
  twostate predicate Untouched(postfix: array<char>, from: nat)
    reads postfix
  {
    forall k :: from <= k < postfix.Length ==> postfix[k] == old(postfix[k])
  }

  /** `postfix[at] = c`: the written prefix grows by `c` and nothing past it changes. */
  method Put(postfix: array<char>, at: nat, c: char)
    requires at < postfix.Length
    modifies postfix
    ensures postfix[..at + 1] == old(postfix[..at]) + [c]
    ensures forall k :: at < k < postfix.Length ==> postfix[k] == old(postfix[k])
  {
    postfix[at] := c;
  }

  /** One character of the main loop of `infixToPostfix`: one step of the conversion. */
  method ConsumeChar(stack: Stack<char>, postfix: array<char>, loc: nat, c: char, ghost infix: seq<char>) returns (next: nat)
    requires loc + |stack.items| < postfix.Length
    requires c in infix && From(postfix[..loc], infix) && From(stack.items, infix)
    modifies stack, postfix
    ensures loc <= next && next + |stack.items| <= loc + |old(stack.items)| + 1
    ensures Conversion(LiftSeq(postfix[..next]), LiftSeq(stack.items)) ==
      Step(Conversion(LiftSeq(old(postfix[..loc])), LiftSeq(old(stack.items))), Lift(c), false)
    ensures Untouched(postfix, next)
    ensures From(postfix[..next], infix) && From(stack.items, infix)
  {
    ghost var written := postfix[..loc];
    ghost var stacked := stack.items;
    next := loc;
    if IsOperandChar(c) {
      Put(postfix, next, c);
      LiftSnoc(written, c);
      next := next + 1;
    }
    if c == '(' {
      PushChar(stack, c);
      LiftSnoc(stacked, c);
    }
    if c == ')' {
      next := PopToOpenParen(stack, postfix, next, infix);
    }
    if IsOperatorChar(c) {
      var pushNow := stack.IsEmpty();
      if !pushNow {
        var top := PeekChar(stack);
        pushNow := top == '(';
      }
      if pushNow {
        Calculator.PopOutrankingHalts(LiftSeq(written), LiftSeq(stacked), ShuntingYard.Precedence(Lift(c)), false);
      } else {
        next := PopOutranked(stack, postfix, next, c, infix);
      }
      ghost var popped := stack.items;
      PushChar(stack, c);
      LiftSnoc(popped, c);
    }
  }

  /**
   * The loop of `infixToPostfix` for `')'`: pops to the buffer until it
   * pops a `'('` or empties the stack.
   */
  method PopToOpenParen(stack: Stack<char>, postfix: array<char>, loc: nat, ghost infix: seq<char>) returns (next: nat)
    requires loc + |stack.items| <= postfix.Length
    requires From(postfix[..loc], infix) && From(stack.items, infix)
    modifies stack, postfix
    ensures loc <= next && next + |stack.items| <= loc + |old(stack.items)|
    ensures Conversion(LiftSeq(postfix[..next]), LiftSeq(stack.items)) ==
      CloseParen(Conversion(LiftSeq(old(postfix[..loc])), LiftSeq(old(stack.items))))
    ensures Untouched(postfix, next)
    ensures From(postfix[..next], infix) && From(stack.items, infix)
  {
    ghost var target := CloseParen(Conversion(LiftSeq(postfix[..loc]), LiftSeq(stack.items)));
    next := loc;
    while !stack.IsEmpty()
      invariant loc <= next && next + |stack.items| == loc + |old(stack.items)|
      invariant CloseParen(Conversion(LiftSeq(postfix[..next]), LiftSeq(stack.items))) == target
      invariant Untouched(postfix, next)
      invariant From(postfix[..next], infix) && From(stack.items, infix)
      decreases |stack.items|
    {
      ghost var written := postfix[..next];
      ghost var stacked := stack.items;
      var stackData := PopChar(stack);
      assert stackData in stacked && From(stack.items, infix);
      LiftSnoc(stack.items, stackData);
      Calculator.CloseParenPop(LiftSeq(written), LiftSeq(stack.items), Lift(stackData));
      if stackData == '(' {
        return;
      }
      Put(postfix, next, stackData);
      LiftSnoc(written, stackData);
      next := next + 1;
    }
    Calculator.CloseParenEmpty(LiftSeq(postfix[..next]), LiftSeq(stack.items));
  }

  /**
   * The loop of `infixToPostfix` for an incoming operator `c`: pops to the
   * buffer while the top is not a `'('` and has greater precedence than `c`.
   */
  method PopOutranked(stack: Stack<char>, postfix: array<char>, loc: nat, c: char, ghost infix: seq<char>) returns (next: nat)
    requires IsOperatorChar(c)
    requires loc + |stack.items| <= postfix.Length
    requires From(postfix[..loc], infix) && From(stack.items, infix)
    modifies stack, postfix
    ensures loc <= next && next + |stack.items| == loc + |old(stack.items)|
    ensures Conversion(LiftSeq(postfix[..next]), LiftSeq(stack.items)) ==
      PopOutranking(Conversion(LiftSeq(old(postfix[..loc])), LiftSeq(old(stack.items))), ShuntingYard.Precedence(Lift(c)), false)
    ensures Untouched(postfix, next)
    ensures From(postfix[..next], infix) && From(stack.items, infix)
  {
    var rank := ShuntingYard.Precedence(Lift(c));
    ghost var target := PopOutranking(Conversion(LiftSeq(postfix[..loc]), LiftSeq(stack.items)), rank, false);
    next := loc;
    var popped := true;
    while popped
      invariant loc <= next && next + |stack.items| == loc + |old(stack.items)|
      invariant popped ==> PopOutranking(Conversion(LiftSeq(postfix[..next]), LiftSeq(stack.items)), rank, false) == target
      invariant !popped ==> Conversion(LiftSeq(postfix[..next]), LiftSeq(stack.items)) == target
      invariant Untouched(postfix, next)
      invariant From(postfix[..next], infix) && From(stack.items, infix)
      decreases |stack.items| + (if popped then 1 else 0)
    {
      next, popped := PopIfOutranks(stack, postfix, next, c, infix);
    }
  }

  /**
   * One test of the loop condition for an incoming operator `c`, and the
   * pop to the buffer when it holds.
   */
  method PopIfOutranks(stack: Stack<char>, postfix: array<char>, loc: nat, c: char, ghost infix: seq<char>) returns (next: nat, popped: bool)
    requires IsOperatorChar(c)
    requires loc + |stack.items| <= postfix.Length
    requires From(postfix[..loc], infix) && From(stack.items, infix)
    modifies stack, postfix
    ensures popped ==> next == loc + 1 && |stack.items| + 1 == |old(stack.items)|
    ensures !popped ==> next == loc && stack.items == old(stack.items)
    ensures var rank := ShuntingYard.Precedence(Lift(c));
      var before := PopOutranking(Conversion(LiftSeq(old(postfix[..loc])), LiftSeq(old(stack.items))), rank, false);
      if popped then PopOutranking(Conversion(LiftSeq(postfix[..next]), LiftSeq(stack.items)), rank, false) == before
      else Conversion(LiftSeq(postfix[..next]), LiftSeq(stack.items)) == before
    ensures Untouched(postfix, next)
    ensures From(postfix[..next], infix) && From(stack.items, infix)
  {
    var rank := ShuntingYard.Precedence(Lift(c));
    next := loc;
    if stack.IsEmpty() {
      Calculator.PopOutrankingHalts(LiftSeq(postfix[..loc]), LiftSeq(stack.items), rank, false);
      return next, false;
    }
    var top := PeekChar(stack);
    OutranksAgree(top, c);
    ghost var rest := stack.items[..|stack.items| - 1];
    assert stack.items == rest + [top];
    LiftSnoc(rest, top);
    if top == '(' || !(Precedence(top) > Precedence(c)) {
      Calculator.PopOutrankingHalts(LiftSeq(postfix[..loc]), LiftSeq(stack.items), rank, false);
      return next, false;
    }
    Calculator.PopOutrankingPop(LiftSeq(postfix[..loc]), LiftSeq(rest), Lift(top), rank, false);
    var data := MoveTop(stack, postfix, loc, infix);
    return loc + 1, true;
  }

  // ---------------------------------------------------------------------
  // calculate

  /**
   * `calculate`: runs the first `postfixSize` characters of the buffer on a
   * stack of values, an operand pushing `c - '0'`.  A division by zero, an
   * infinite power and a pop from an empty stack, which C leaves undefined
   * here, end the run with the outcome that names them.
   */
  method Calculate(postfix: array<char>, postfixSize: int) returns (r: Outcome)
    requires postfixSize <= postfix.Length
    ensures r == Result(LiftSeq(postfix[..if postfixSize < 0 then 0 else postfixSize]))
  {
    ghost var inputs := LiftSeq(postfix[..if postfixSize < 0 then 0 else postfixSize]);
    var stack := new Stack<int>();
    var i := 0;
    while i < postfixSize
      invariant 0 <= i && (postfixSize >= 0 ==> i <= postfixSize) && i <= |inputs|
      invariant Run(Running([]), inputs[..i]) == Running(stack.items)
    {
      var c := postfix[i];
      assert inputs[i] == Lift(c);
      Calculator.RunNext(inputs, i);
      var fault := ExecChar(stack, c);
      if fault.Some? {
        Calculator.Stops(inputs, i + 1, fault.value);
        return fault.value;
      }
      i := i + 1;
    }
    assert inputs[..i] == inputs;
    if stack.IsEmpty() {
      return StackUnderflow;
    }
    var res := stack.Pop();
    return Value(res);
  }

  /**
   * One character of the loop of `calculate`: the machine's step on the
   * token the character stands for, or the fault that stops it.
   */
  method ExecChar(stack: Stack<int>, c: char) returns (fault: Option<Outcome>)
    modifies stack
    ensures Exec(Running(old(stack.items)), Lift(c)) ==
      if fault.Some? then Faulted(fault.value) else Running(stack.items)
  {
    if IsOperandChar(c) {
      var val := CharCode(c) - '0' as int;
      stack.Push(val);
    }
    if IsOperatorChar(c) {
      ghost var before := stack.items;
      if stack.IsEmpty() {
        return Some(StackUnderflow);
      }
      var a := stack.Pop();
      if stack.IsEmpty() {
        return Some(StackUnderflow);
      }
      var b := stack.Pop();
      Calculator.SplitTwo(before, stack.items, b, a);
      CharCastOfCode(c);
      if c == '/' && a == 0 {
        return Some(DivisionByZero);
      }
      if c == '^' && a < 0 && b == 0 {
        return Some(Undefined);
      }
      var res := Evaluate(a, b, c);
      stack.Push(res);
    }
    return None;
  }

  // ---------------------------------------------------------------------
  // The expression of `main`

  /**
   * "7*(2+6)-5/3" stands for the tokens of `7*(2+6)-5/3` and converts to
   * "726+*53/-", which stands for `7 2 6 + * 5 3 / -`.
   */
  lemma {:induction false} CharSample()
    ensures LiftSeq("7*(2+6)-5/3") == SampleInfix(7, 2, 6, 5, 3)
    ensures ToPostfix(LiftSeq("7*(2+6)-5/3"), false) == LiftSeq("726+*53/-")
    ensures LiftSeq("726+*53/-") == SamplePostfix(7, 2, 6, 5, 3)
  {
    LiftSampleInfix("7*(2+6)-5/3");
    LiftSamplePostfix("726+*53/-");
    SampleToPostfix(7, 2, 6, 5, 3, false);
  }

  lemma {:induction false} LiftDigit(c: char)
    requires '0' <= c <= '9'
    ensures Lift(c) == Num(c as int - '0' as int)
  {
  }

  lemma {:induction false} LiftSampleInfix(s: string)
    requires s == "7*(2+6)-5/3"
    ensures LiftSeq(s) == SampleInfix(7, 2, 6, 5, 3)
  {
    var t := SampleInfix(7, 2, 6, 5, 3);
    LiftDigit('7');
    LiftDigit('2');
    LiftDigit('6');
    LiftDigit('5');
    LiftDigit('3');
    forall k | 0 <= k < |t|
      ensures LiftSeq(s)[k] == t[k]
    {
    }
  }

  lemma {:induction false} LiftSamplePostfix(s: string)
    requires s == "726+*53/-"
    ensures LiftSeq(s) == SamplePostfix(7, 2, 6, 5, 3)
  {
    var t := SamplePostfix(7, 2, 6, 5, 3);
    LiftDigit('7');
    LiftDigit('2');
    LiftDigit('6');
    LiftDigit('5');
    LiftDigit('3');
    forall k | 0 <= k < |t|
      ensures LiftSeq(s)[k] == t[k]
    {
    }
  }

  /** `7 2 6 + * 5 3 / -` computes 7 * (2 + 6) - 5 / 3 = 56 - 1 = 55. */
  lemma {:induction false} CharSampleValue()
    ensures Result(SamplePostfix(7, 2, 6, 5, 3)) == Value(55)
  {
    var product := Apply('*', Number(7), Apply('+', Number(2), Number(6)));
    var quotient := Apply('/', Number(5), Number(3));
    var e := Apply('-', product, quotient);
    assert Emit(e) == SamplePostfix(7, 2, 6, 5, 3);
    assert Eval(product) == Value(56);
    assert CDiv(5, 3) == 1;
    assert Eval(quotient) == Value(1);
    ResultOfEmit(e);
  }

  /**
   * Without its last token, `7 2 6 + * 5 3 /` leaves 56 and 1 on the stack,
   * and its result is the top, 1.
   */
  lemma {:induction false} CharSampleShort()
    ensures Result(SamplePostfix(7, 2, 6, 5, 3)[..8]) == Value(1)
  {
    var product := Apply('*', Number(7), Apply('+', Number(2), Number(6)));
    var quotient := Apply('/', Number(5), Number(3));
    assert Emit(product) + Emit(quotient) == SamplePostfix(7, 2, 6, 5, 3)[..8];
    assert Eval(product) == Value(56);
    assert CDiv(5, 3) == 1;
    assert Eval(quotient) == Value(1);
    EmitRuns(product, []);
    assert Run(Running([]), Emit(product)) == Running([56]);
    EmitRuns(quotient, [56]);
    assert Run(Running([56]), Emit(quotient)) == Running([56, 1]);
    RunAppend(Running([]), Emit(product), Emit(quotient));
  }

  /**
   * `main` as written: converts "7*(2+6)-5/3" into a buffer of
   * `strlen + 1` characters, terminates it after the last index and hands
   * `calculate` that last index, 8, as the size.  The final `-` is then
   * never read, and the value is 1 rather than 55.
   */
  method BuiltInAsWritten() returns (text: string, postfixLength: int, value: Outcome)
    ensures text == "726+*53/-"
    ensures postfixLength == 8
    ensures value == Value(1)
  {
    var infix := "7*(2+6)-5/3";
    var postfix := new char[|infix| + 1];
    postfixLength := InfixToPostfix(infix, postfix);
    CharSample();
    text := postfix[..postfixLength + 1];
    BuiltInText(infix, text);
    ghost var written := postfix[..9];
    postfix[postfixLength + 1] := 0 as char;
    assert postfix[..9] == written;
    value := Calculate(postfix, postfixLength);
    assert postfix[..8] == written[..8];
    LiftPrefix(written, 8);
    CharSampleShort();
  }

  /**
   * The characters `infixToPostfix` writes for the built-in expression:
   * they come from the expression, so they are single bytes, and their
   * tokens are those of "726+*53/-".
   */
  lemma BuiltInText(infix: string, text: string)
    requires infix == "7*(2+6)-5/3" && From(text, infix)
    requires LiftSeq(text) == LiftSeq("726+*53/-")
    ensures text == "726+*53/-"
  {
    forall k | 0 <= k < |text|
      ensures text[k] as int < 256
    {
      assert text[k] in infix;
    }
    LiftSeqInjective(text, "726+*53/-");
  }

  /** `main` with the size of the postfix form, `postfixLength + 1`, handed to `calculate`. */
  method BuiltInCorrected() returns (text: string, postfixLength: int, value: Outcome)
    ensures text == "726+*53/-"
    ensures postfixLength == 8
    ensures value == Value(55)
  {
    var infix := "7*(2+6)-5/3";
    var postfix := new char[|infix| + 1];
    postfixLength := InfixToPostfix(infix, postfix);
    CharSample();
    text := postfix[..postfixLength + 1];
    BuiltInText(infix, text);
    value := Calculate(postfix, postfixLength + 1);
    CharSampleValue();
  }
}
