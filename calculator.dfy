/**
 * The final revision of the integer calculator, `calculator.c`: the
 * tokenizer, the converter and the evaluator as the loops they are, each
 * proved to compute its reference definition.
 *
 * Allocation is modelled by `grants`, the number of `malloc`/`realloc`
 * requests on the result buffer that succeed before the first one fails.
 * Every function makes one request to start with and one more per element
 * it appends.
 */
module Calculator {
  import opened Stacks
  import opened CalculatorUtils
  import opened Lexing
  import opened ShuntingYard
  import opened PostfixMachine
  import opened ConversionProperties

  /** `ENOMEM` of `errno.h`; the functions return its negation. */
  const ENOMEM := 12

  // ---------------------------------------------------------------------
  // stringToInputs

  /**
   * The tokens the buffer stands for while a number is being read: the
   * value of the last NUMBER token is only written to the buffer when its
   * run of digits ends.
   */
  function Pending(buffer: seq<Input>, middleOfNumber: bool, value: int): (tokens: seq<Input>)
    ensures |tokens| == |buffer|
  {
    if middleOfNumber && buffer != [] then buffer[..|buffer| - 1] + [Input(NumberType, value)]
    else buffer
  }

  /**
   * `stringToInputs`: the tokens of `str`, or `-ENOMEM` when the buffer
   * cannot grow to hold them.  With no token the buffer is freed and NULL
   * handed back.
   */
  method StringToInputs(str: string, grants: nat) returns (size: int, inputs: Option<seq<Input>>)
    ensures size < 0 <==> grants < |Tokens(str)| + 1
    ensures size < 0 ==> size == -ENOMEM && inputs == None
    ensures size >= 0 ==> size == |Tokens(str)| <= |str|
    ensures size >= 0 ==> inputs == if size == 0 then None else Some(Tokens(str))
  {
    if grants == 0 {
      return -ENOMEM, None;
    }
    var used := 1;
    var buffer: seq<Input> := [];
    var inputsSize := 0;
    var middleOfNumber := false;
    var value := 0;
    var i := 0;
    assert str[..0] == [];
    while i < |str|
      invariant 0 <= i <= |str|
      invariant inputsSize == |buffer| && used == 1 + inputsSize <= grants
      invariant middleOfNumber <==> i > 0 && IsDigit(str[i - 1])
      invariant middleOfNumber ==> buffer != []
      invariant Pending(buffer, middleOfNumber, value) == Tokens(str[..i])
    {
      var c := str[i];
      ghost var lexed := Tokens(str[..i + 1]);
      if IsDigit(c) {
        if middleOfNumber {
          ExtendRun(str, i, buffer, value);
          value := value * 10;
        } else {
          StartRun(str, i, buffer);
          middleOfNumber := true;
          inputsSize := inputsSize + 1;
          if used == grants {
            MoreTokensAhead(str, i);
            return -ENOMEM, None;
          }
          used := used + 1;
          buffer := buffer + [Input(NumberType, 0)];
          value := 0;
        }
        value := value + DigitValue(c);
      } else {
        OtherChar(str, i, buffer, middleOfNumber, value);
        ghost var stored := Pending(buffer, middleOfNumber, value);
        if middleOfNumber {
          buffer := buffer[..|buffer| - 1] + [Input(NumberType, value)];
          middleOfNumber := false;
          value := 0;
        }
        inputsSize := inputsSize + 1;
        if used == grants {
          MoreTokensAhead(str, i);
          return -ENOMEM, None;
        }
        used := used + 1;
        buffer := buffer + [CharToken(c)];
        assert buffer == stored + [CharToken(c)];
      }
      i := i + 1;
    }
    assert str[..i] == str;
    if middleOfNumber {
      buffer := buffer[..|buffer| - 1] + [Input(NumberType, value)];
    }
    if inputsSize == 0 {
      return 0, None;
    }
    return inputsSize, Some(buffer);
  }

  /** A digit after a digit: the pending NUMBER token gains a decimal place. */
  lemma {:induction false} ExtendRun(str: string, i: nat, buffer: seq<Input>, value: int)
    requires i < |str| && IsDigit(str[i]) && i > 0 && IsDigit(str[i - 1]) && buffer != []
    requires Pending(buffer, true, value) == Tokens(str[..i])
    ensures Pending(buffer, true, value * 10 + DigitValue(str[i])) == Tokens(str[..i + 1])
  {
    var p := str[..i];
    assert str[..i + 1] == p + [str[i]];
    assert p[|p| - 1] == str[i - 1];
    TokensSnocExtend(p, str[i]);
    var t := Tokens(p);
    assert t[..|t| - 1] == buffer[..|buffer| - 1];
  }

  /** A digit after anything else, or first: a new NUMBER token starts. */
  lemma {:induction false} StartRun(str: string, i: nat, buffer: seq<Input>)
    requires i < |str| && IsDigit(str[i]) && (i == 0 || !IsDigit(str[i - 1]))
    requires buffer == Tokens(str[..i])
    ensures Pending(buffer + [Input(NumberType, 0)], true, 0 + DigitValue(str[i])) == Tokens(str[..i + 1])
    ensures |Tokens(str[..i + 1])| == |Tokens(str[..i])| + 1
  {
    var p := str[..i];
    assert str[..i + 1] == p + [str[i]];
    assert p != [] ==> p[|p| - 1] == str[i - 1];
    TokensSnocStart(p, str[i]);
    assert (buffer + [Input(NumberType, 0)])[..|buffer|] == buffer;
  }

  /** Any other character: the pending number is stored and one CHAR token follows. */
  lemma {:induction false} OtherChar(str: string, i: nat, buffer: seq<Input>, middleOfNumber: bool, value: int)
    requires i < |str| && !IsDigit(str[i])
    requires Pending(buffer, middleOfNumber, value) == Tokens(str[..i])
    ensures Pending(buffer, middleOfNumber, value) + [CharToken(str[i])] == Tokens(str[..i + 1])
    ensures |Tokens(str[..i + 1])| == |Tokens(str[..i])| + 1
  {
    assert str[..i + 1] == str[..i] + [str[i]];
    TokensSnocOther(str[..i], str[i]);
  }

  /** The token the loop is about to store is not the last one the whole string needs. */
  lemma {:induction false} MoreTokensAhead(str: string, i: nat)
    requires i < |str|
    requires |Tokens(str[..i + 1])| == |Tokens(str[..i])| + 1
    ensures |Tokens(str[..i])| + 1 <= |Tokens(str)|
  {
    assert str == str[..i + 1] + str[i + 1..];
    TokensGrow(str[..i + 1], str[i + 1..]);
  }

  // ---------------------------------------------------------------------
  // infixToPostfix

  /**
   * `infixToPostfix` of the final revision: the shunting-yard conversion
   * that pops stacked operators of greater or equal precedence, or
   * `-ENOMEM` when the output buffer cannot grow to hold the result.  An
   * empty result is freed and not handed back.
   */
  method InfixToPostfix(infix: seq<Input>, grants: nat) returns (size: int, postfix: Option<seq<Input>>)
    ensures size < 0 <==> grants < |ToPostfix(infix, true)| + 1
    ensures size < 0 ==> size == -ENOMEM && postfix == None
    ensures size >= 0 ==> size == |ToPostfix(infix, true)| <= |infix|
    ensures size >= 0 ==> postfix == if size == 0 then None else Some(ToPostfix(infix, true))
  {
    var stack := new Stack<Input>();
    if grants == 0 {
      return -ENOMEM, None;
    }
    var used := 1;
    var output: seq<Input> := [];
    var i := 0;
    while i < |infix|
      invariant 0 <= i <= |infix|
      invariant used == 1 + |output| <= grants
      invariant Conversion(output, stack.items) == Convert(infix[..i], true)
    {
      ConvertSnoc(infix, i, true);
      var ok;
      output, used, ok := ConsumeToken(stack, output, used, grants, infix[i], true);
      if !ok {
        WriteAhead(infix, i + 1, grants);
        return -ENOMEM, None;
      }
      i := i + 1;
    }
    assert infix[..i] == infix;
    while !stack.IsEmpty()
      invariant used == 1 + |output| <= grants
      invariant output + Reversed(stack.items) == ToPostfix(infix, true)
      decreases |stack.items|
    {
      if used == grants {
        return -ENOMEM, None;
      }
      used := used + 1;
      var data := PopInput(stack);
      ReversedSnoc(stack.items, data);
      AppendShift(output, data, Reversed(stack.items));
      output := output + [data];
    }
    AppendEmpty(output);
    if |output| == 0 {
      return 0, None;
    }
    return |output|, Some(output);
  }

  /**
   * The body of the main loop of `infixToPostfix` for one token.  `ok` is
   * false when the output buffer could not grow.
   */
  method ConsumeToken(stack: Stack<Input>, output: seq<Input>, used: nat, grants: nat, input: Input, popOnEqual: bool)
    returns (written: seq<Input>, granted: nat, ok: bool)
    requires used == 1 + |output| <= grants
    modifies stack
    ensures ok ==> Conversion(written, stack.items) == Step(Conversion(output, old(stack.items)), input, popOnEqual)
    ensures ok ==> granted == 1 + |written| <= grants
    ensures !ok ==> grants < |Step(Conversion(output, old(stack.items)), input, popOnEqual).output| + 1
  {
    written, granted, ok := output, used, true;
    TokenClasses(input);
    if IsOperand(input) {
      if granted == grants {
        return written, granted, false;
      }
      granted := granted + 1;
      written := written + [input];
    } else if IsOpenParen(input) {
      PushInput(stack, input);
    } else if IsCloseParen(input) {
      written, granted, ok := PopToOpenParen(stack, output, used, grants);
    } else if IsOperator(input) {
      var pushNow := stack.IsEmpty();
      if !pushNow {
        var top := PeekInput(stack);
        pushNow := IsOpenParen(top);
      }
      if pushNow {
        PopOutrankingHalts(output, stack.items, Precedence(input), popOnEqual);
      } else {
        written, granted, ok := PopOutranked(stack, output, used, grants, Precedence(input), popOnEqual);
        if !ok {
          return;
        }
      }
      PushInput(stack, input);
    }
  }

  /**
   * The loop of `infixToPostfix` for a `')'`: pops to the output until it
   * pops a `'('` or empties the stack.  `ok` is false when the output
   * buffer could not grow.
   */
  method PopToOpenParen(stack: Stack<Input>, output: seq<Input>, used: nat, grants: nat)
    returns (written: seq<Input>, granted: nat, ok: bool)
    requires used == 1 + |output| <= grants
    modifies stack
    ensures ok ==> Conversion(written, stack.items) == CloseParen(Conversion(output, old(stack.items)))
    ensures ok ==> granted == 1 + |written| <= grants
    ensures !ok ==> grants < |CloseParen(Conversion(output, old(stack.items))).output| + 1
  {
    ghost var target := CloseParen(Conversion(output, stack.items));
    written, granted := output, used;
    while !stack.IsEmpty()
      invariant granted == 1 + |written| <= grants
      invariant CloseParen(Conversion(written, stack.items)) == target
      decreases |stack.items|
    {
      var data := PopInput(stack);
      CloseParenPop(written, stack.items, data);
      if IsOpenParen(data) {
        return written, granted, true;
      }
      if granted == grants {
        return written, granted, false;
      }
      granted := granted + 1;
      written := written + [data];
    }
    CloseParenEmpty(written, stack.items);
    return written, granted, true;
  }

  /**
   * The loop of `infixToPostfix` for an operator of rank `rank`: pops to the
   * output while the top is an operator of greater or equal precedence.
   */
  method PopOutranked(stack: Stack<Input>, output: seq<Input>, used: nat, grants: nat, rank: int, popOnEqual: bool)
    returns (written: seq<Input>, granted: nat, ok: bool)
    requires used == 1 + |output| <= grants
    modifies stack
    ensures ok ==> Conversion(written, stack.items) == PopOutranking(Conversion(output, old(stack.items)), rank, popOnEqual)
    ensures ok ==> granted == 1 + |written| <= grants
    ensures !ok ==> grants < |PopOutranking(Conversion(output, old(stack.items)), rank, popOnEqual).output| + 1
  {
    ghost var target := PopOutranking(Conversion(output, stack.items), rank, popOnEqual);
    written, granted := output, used;
    while true
      invariant granted == 1 + |written| <= grants
      invariant PopOutranking(Conversion(written, stack.items), rank, popOnEqual) == target
      decreases |stack.items|
    {
      if stack.IsEmpty() {
        PopOutrankingHalts(written, stack.items, rank, popOnEqual);
        return written, granted, true;
      }
      var top := PeekInput(stack);
      SplitLast(stack.items);
      if IsOpenParen(top) || !Outranks(Precedence(top), rank, popOnEqual) {
        PopOutrankingHalts(written, stack.items, rank, popOnEqual);
        return written, granted, true;
      }
      PopOutrankingPop(written, stack.items[..|stack.items| - 1], top, rank, popOnEqual);
      if granted == grants {
        return written, granted, false;
      }
      granted := granted + 1;
      var data := PopInput(stack);
      written := written + [data];
    }
  }

  /** `')'` pops one token: an operator goes to the output, the `'('` ends the popping. */
  lemma {:induction false} CloseParenPop(output: seq<Input>, rest: seq<Input>, data: Input)
    ensures IsOpenParen(data) ==> CloseParen(Conversion(output, rest + [data])) == Conversion(output, rest)
    ensures !IsOpenParen(data) ==>
      CloseParen(Conversion(output, rest + [data])) == CloseParen(Conversion(output + [data], rest))
  {
    assert (rest + [data])[..|rest|] == rest;
  }

  lemma {:induction false} CloseParenEmpty(output: seq<Input>, stack: seq<Input>)
    requires stack == []
    ensures CloseParen(Conversion(output, stack)) == Conversion(output, stack)
  {
  }

  /** An operator that outranks the incoming one is popped to the output. */
  lemma {:induction false} PopOutrankingPop(output: seq<Input>, rest: seq<Input>, top: Input, rank: int, popOnEqual: bool)
    requires !IsOpenParen(top) && Outranks(Precedence(top), rank, popOnEqual)
    ensures PopOutranking(Conversion(output, rest + [top]), rank, popOnEqual) ==
      PopOutranking(Conversion(output + [top], rest), rank, popOnEqual)
  {
    assert (rest + [top])[..|rest|] == rest;
  }

  /** An empty stack, a `'('` on top or a weaker operator on top stops the popping. */
  lemma {:induction false} PopOutrankingHalts(output: seq<Input>, stack: seq<Input>, rank: int, popOnEqual: bool)
    requires stack == [] || IsOpenParen(stack[|stack| - 1]) || !Outranks(Precedence(stack[|stack| - 1]), rank, popOnEqual)
    ensures PopOutranking(Conversion(output, stack), rank, popOnEqual) == Conversion(output, stack)
  {
  }

  /** The state after one more infix token is one more step. */
  lemma {:induction false} ConvertSnoc(infix: seq<Input>, i: nat, popOnEqual: bool)
    requires i < |infix|
    ensures Convert(infix[..i + 1], popOnEqual) == Step(Convert(infix[..i], popOnEqual), infix[i], popOnEqual)
  {
    assert infix[..i + 1] == infix[..i] + [infix[i]];
    FoldSnoc(Conversion([], []), infix[..i], infix[i], popOnEqual);
  }

  /** A buffer too small for the output of a prefix is too small for the whole result. */
  lemma {:induction false} WriteAhead(infix: seq<Input>, i: nat, grants: nat)
    requires i <= |infix|
    requires grants < |Convert(infix[..i], true).output| + 1
    ensures grants < |ToPostfix(infix, true)| + 1
  {
    ConvertExtends(infix, i, true);
  }

  // ---------------------------------------------------------------------
  // calculate

  /**
   * `calculate`: runs the postfix sequence on a stack of values.  The
   * division by zero that `evaluate` reports through `errno` ends the run
   * (the C function then returns 0), and so does a pop from an empty stack.
   */
  method Calculate(postfix: seq<Input>) returns (r: Outcome)
    ensures r == Result(postfix)
  {
    var stack := new Stack<int>();
    var i := 0;
    while i < |postfix|
      invariant 0 <= i <= |postfix|
      invariant Run(Running([]), postfix[..i]) == Running(stack.items)
    {
      var input := postfix[i];
      RunNext(postfix, i);
      TokenClasses(input);
      if IsOperand(input) {
        stack.Push(input.value);
      } else if IsOperator(input) {
        ghost var before := stack.items;
        if stack.IsEmpty() {
          Stops(postfix, i + 1, StackUnderflow);
          return StackUnderflow;
        }
        var a := stack.Pop();
        if stack.IsEmpty() {
          Stops(postfix, i + 1, StackUnderflow);
          return StackUnderflow;
        }
        var b := stack.Pop();
        SplitTwo(before, stack.items, b, a);
        var res := Evaluate(a, b, CharCast(input.value));
        if !res.Value? {
          Stops(postfix, i + 1, res);
          return res;
        }
        stack.Push(res.n);
      }
      i := i + 1;
    }
    assert postfix[..i] == postfix;
    if stack.IsEmpty() {
      return StackUnderflow;
    }
    var top := stack.Pop();
    return Value(top);
  }

  /** The machine after one more postfix token is one more step. */
  lemma {:induction false} RunNext(postfix: seq<Input>, i: nat)
    requires i < |postfix|
    ensures Run(Running([]), postfix[..i + 1]) == Exec(Run(Running([]), postfix[..i]), postfix[i])
  {
    assert postfix[..i + 1] == postfix[..i] + [postfix[i]];
    RunSnoc(Running([]), postfix[..i], postfix[i]);
  }

  /** A fault on a prefix is the result of the whole sequence. */
  lemma {:induction false} Stops(postfix: seq<Input>, i: nat, o: Outcome)
    requires i <= |postfix|
    requires Run(Running([]), postfix[..i]) == Faulted(o)
    ensures Result(postfix) == o
  {
    assert postfix == postfix[..i] + postfix[i..];
    RunAppend(Running([]), postfix[..i], postfix[i..]);
    FaultSticks(o, postfix[i..]);
  }

  /** Two pops: the first popped value was the top, the second the one below it. */
  lemma {:induction false} SplitTwo(before: seq<int>, rest: seq<int>, b: int, a: int)
    requires before == rest + [b] + [a]
    ensures |before| >= 2 && before[|before| - 1] == a && before[|before| - 2] == b
    ensures before[..|before| - 2] == rest
  {
  }

  // ---------------------------------------------------------------------
  // A whole run

  /** "7*(2+6)-15/3" is tokenized, converted and calculated to 51. */
  lemma {:induction false} SampleRun()
    ensures Tokens("7*(2+6)-15/3") == SampleInfix(7, 2, 6, 15, 3)
    ensures ToPostfix(Tokens("7*(2+6)-15/3"), true) == SamplePostfix(7, 2, 6, 15, 3)
    ensures Result(ToPostfix(Tokens("7*(2+6)-15/3"), true)) == Value(51)
  {
    SampleTokens("7*(2+6)-15/3", '7', '2', '6', '1', '5', '3');
    SampleToPostfix(7, 2, 6, 15, 3, true);
    SampleValue();
  }

  /** The tokens of `x*(y+z)-uv/w` for digits `x`, `y`, `z`, `u`, `v`, `w`. */
  lemma {:induction false} SampleTokens(s: string, x: char, y: char, z: char, u: char, v: char, w: char)
    requires IsDigit(x) && IsDigit(y) && IsDigit(z) && IsDigit(u) && IsDigit(v) && IsDigit(w)
    requires s == [x, '*', '(', y, '+', z, ')', '-', u, v, '/', w]
    ensures Tokens(s) ==
      SampleInfix(DigitValue(x), DigitValue(y), DigitValue(z), DigitValue(u) * 10 + DigitValue(v), DigitValue(w))
  {
    var t := SampleInfix(DigitValue(x), DigitValue(y), DigitValue(z), DigitValue(u) * 10 + DigitValue(v), DigitValue(w));
    assert Tokens(s[12..]) == t[11..] by {
      assert s[12..] == [] && t[11..] == [];
    }
    SampleBack(s, t, u, v, w);
    SampleSum(s, t, y, z);
    SampleLeading(s, t, x);
    assert s[0..] == s && t[0..] == t;
  }

  /** The tokens of the subtraction and the division, read backwards from index 12. */
  lemma {:induction false} SampleBack(s: string, t: seq<Input>, u: char, v: char, w: char)
    requires IsDigit(u) && IsDigit(v) && IsDigit(w)
    requires |s| == 12 && s[7] == '-' && s[8] == u && s[9] == v && s[10] == '/' && s[11] == w
    requires |t| == 11 && t[7] == CharToken('-') && t[8] == Num(DigitValue(u) * 10 + DigitValue(v)) && t[9] == CharToken('/') && t[10] == Num(DigitValue(w))
    requires Tokens(s[12..]) == t[11..]
    ensures Tokens(s[7..]) == t[7..]
  {
    TokensStepDigit(s, 11, t, 10);
    TokensStepOther(s, 10, t, 9);
    TokensStepTwoDigits(s, 8, t, 8);
    TokensStepOther(s, 7, t, 7);
  }

  /** The tokens of the parenthesized addition, read backwards from index 7. */
  lemma {:induction false} SampleSum(s: string, t: seq<Input>, y: char, z: char)
    requires IsDigit(y) && IsDigit(z)
    requires |s| == 12 && s[3] == y && s[4] == '+' && s[5] == z && s[6] == ')'
    requires |t| == 11 && t[3] == Num(DigitValue(y)) && t[4] == CharToken('+') && t[5] == Num(DigitValue(z)) && t[6] == CharToken(')')
    requires Tokens(s[7..]) == t[7..]
    ensures Tokens(s[3..]) == t[3..]
  {
    TokensStepOther(s, 6, t, 6);
    TokensStepDigit(s, 5, t, 5);
    TokensStepOther(s, 4, t, 4);
    TokensStepDigit(s, 3, t, 3);
  }

  /** The tokens of the multiplication, read backwards from index 3. */
  lemma {:induction false} SampleLeading(s: string, t: seq<Input>, x: char)
    requires IsDigit(x)
    requires |s| == 12 && s[0] == x && s[1] == '*' && s[2] == '('
    requires |t| == 11 && t[0] == Num(DigitValue(x)) && t[1] == CharToken('*') && t[2] == CharToken('(')
    requires Tokens(s[3..]) == t[3..]
    ensures Tokens(s[0..]) == t[0..]
  {
    TokensStepOther(s, 2, t, 2);
    TokensStepOther(s, 1, t, 1);
    TokensStepDigit(s, 0, t, 0);
  }

}
