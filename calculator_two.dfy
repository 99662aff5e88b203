/**
 * The earlier revision of the integer calculator, `calculator2.c`, whose
 * `stringToInputs` and `infixToPostfix` `Calculator2.c` repeats line for
 * line.  It differs from the final revision in three ways: spaces give no
 * token, an incoming operator pops only stacked operators of strictly
 * greater precedence, and the converter returns the index of the last
 * token written rather than the count.  Neither function checks its
 * allocations, so here every request succeeds.
 */
module CalculatorTwo {
  import opened Stacks
  import opened CalculatorUtils
  import opened Lexing
  import opened ShuntingYard
  import opened ConversionProperties
  import Calculator

  /** The characters of a C string are bytes. */
  predicate Bytes(str: string)
  {
    forall k :: 0 <= k < |str| ==> str[k] as int < 256
  }

  /** The tokens of this revision: those of the final revision less the spaces. */
  function SpacedTokens(str: string): (tokens: seq<Input>)
    ensures |tokens| <= |str|
  {
    DropSpaces(Tokens(str))
  }

  /** No space token survives, and every other token of the final revision does. */
  lemma {:induction false} SpacedTokensMembers(str: string, t: Input)
    ensures t in SpacedTokens(str) <==> t in Tokens(str) && t != CharToken(' ')
  {
    DropSpacesMembers(Tokens(str), t);
  }

  // ---------------------------------------------------------------------
  // stringToInputs

  /**
   * `stringToInputs`: the tokens of `str` without spaces, a space still
   * ending a run of digits.  With no token the buffer is freed and NULL
   * handed back.
   */
  method StringToInputs(str: string) returns (size: int, inputs: Option<seq<Input>>)
    requires Bytes(str)
    ensures size == |SpacedTokens(str)| <= |str|
    ensures inputs == if size == 0 then None else Some(SpacedTokens(str))
  {
    var buffer: seq<Input> := [];
    var inputsSize := 0;
    var middleOfNumber := false;
    var value := 0;
    var i := 0;
    assert str[..0] == [];
    while i < |str|
      invariant 0 <= i <= |str|
      invariant inputsSize == |buffer|
      invariant middleOfNumber <==> i > 0 && IsDigit(str[i - 1])
      invariant middleOfNumber ==> buffer != []
      invariant Calculator.Pending(buffer, middleOfNumber, value) == SpacedTokens(str[..i])
    {
      var c := str[i];
      if IsDigit(c) {
        if middleOfNumber {
          ExtendRun(str, i, buffer, value);
          value := value * 10;
          value := value + DigitValue(c);
        } else {
          StartRun(str, i, buffer);
          middleOfNumber := true;
          inputsSize := inputsSize + 1;
          buffer := buffer + [Input(NumberType, 0)];
          value := DigitValue(c);
        }
      } else {
        OtherChar(str, i, buffer, middleOfNumber, value);
        ghost var stored := Calculator.Pending(buffer, middleOfNumber, value);
        if middleOfNumber {
          buffer := buffer[..|buffer| - 1] + [Input(NumberType, value)];
          middleOfNumber := false;
          value := 0;
        }
        if !IsSpace(c) {
          inputsSize := inputsSize + 1;
          buffer := buffer + [CharToken(c)];
        }
        assert buffer == stored + (if IsSpace(c) then [] else [CharToken(c)]);
      }
      i := i + 1;
    }
    assert str[..i] == str;
    if middleOfNumber {
      buffer := buffer[..|buffer| - 1] + [Input(NumberType, value)];
    }
    if inputsSize == 0 {
      return 0, None;
    }
    return inputsSize, Some(buffer);
  }

  /** A digit after a digit: the pending NUMBER token gains a decimal place. */
  lemma {:induction false} ExtendRun(str: string, i: nat, buffer: seq<Input>, value: int)
    requires i < |str| && IsDigit(str[i]) && i > 0 && IsDigit(str[i - 1]) && buffer != []
    requires Calculator.Pending(buffer, true, value) == SpacedTokens(str[..i])
    ensures Calculator.Pending(buffer, true, value * 10 + DigitValue(str[i])) == SpacedTokens(str[..i + 1])
  {
    var p := str[..i];
    assert str[..i + 1] == p + [str[i]];
    assert p[|p| - 1] == str[i - 1];
    TokensSnocExtend(p, str[i]);
    var t := Tokens(p);
    var last := t[|t| - 1];
    SplitLast(t);
    KeepNumber(t[..|t| - 1], last);
    KeepNumber(t[..|t| - 1], Input(NumberType, last.value * 10 + DigitValue(str[i])));
    SameFront(buffer[..|buffer| - 1], Input(NumberType, value), DropSpaces(t[..|t| - 1]), last);
  }

  /** A NUMBER token survives the removal of spaces. */
  lemma {:induction false} KeepNumber(front: seq<Input>, number: Input)
    requires number.kind == NumberType
    ensures DropSpaces(front + [number]) == DropSpaces(front) + [number]
  {
    DropSpacesAppend(front, [number]);
    DropSpacesSingle(number);
  }

  /** Two sequences that agree with their last elements agree without them. */
  lemma {:induction false} SameFront<T>(a: seq<T>, x: T, b: seq<T>, y: T)
    requires a + [x] == b + [y]
    ensures a == b && x == y
  {
    assert |a| == |b|;
    assert (a + [x])[..|a|] == a && (b + [y])[..|b|] == b;
    assert (a + [x])[|a|] == x && (b + [y])[|b|] == y;
  }

  /** A digit after anything else, or first: a new NUMBER token starts. */
  lemma {:induction false} StartRun(str: string, i: nat, buffer: seq<Input>)
    requires i < |str| && IsDigit(str[i]) && (i == 0 || !IsDigit(str[i - 1]))
    requires buffer == SpacedTokens(str[..i])
    ensures Calculator.Pending(buffer + [Input(NumberType, 0)], true, DigitValue(str[i])) == SpacedTokens(str[..i + 1])
  {
    var p := str[..i];
    assert str[..i + 1] == p + [str[i]];
    assert p != [] ==> p[|p| - 1] == str[i - 1];
    TokensSnocStart(p, str[i]);
    var number := Input(NumberType, DigitValue(str[i]));
    DropSpacesAppend(Tokens(p), [number]);
    DropSpacesSingle(number);
    assert (buffer + [Input(NumberType, 0)])[..|buffer|] == buffer;
  }

  /** Any other character: the pending number is stored, and a token follows unless it is a space. */
  lemma {:induction false} OtherChar(str: string, i: nat, buffer: seq<Input>, middleOfNumber: bool, value: int)
    requires i < |str| && !IsDigit(str[i]) && str[i] as int < 256
    requires Calculator.Pending(buffer, middleOfNumber, value) == SpacedTokens(str[..i])
    ensures Calculator.Pending(buffer, middleOfNumber, value) +
      (if IsSpace(str[i]) then [] else [CharToken(str[i])]) == SpacedTokens(str[..i + 1])
  {
    var c := str[i];
    assert str[..i + 1] == str[..i] + [c];
    TokensSnocOther(str[..i], c);
    DropSpacesAppend(Tokens(str[..i]), [CharToken(c)]);
    DropSpacesSingle(CharToken(c));
    SpaceToken(c);
  }

  /** Among bytes, only the space has the space's token. */
  lemma SpaceToken(c: char)
    requires c as int < 256
    ensures CharToken(c) == CharToken(' ') <==> IsSpace(c)
  {
  }

  /** Spaces end a run of digits: "12 3" is two numbers. */
  lemma {:induction false} SpaceSeparatesNumbers()
    ensures SpacedTokens("12 3") == [Input(NumberType, 12), Input(NumberType, 3)]
  {
    TokensWithSpace();
    var twelve, three := Input(NumberType, 12), Input(NumberType, 3);
    assert [twelve, CharToken(' '), three] == [twelve] + [CharToken(' ')] + [three];
    DropSpacesAppend([twelve] + [CharToken(' ')], [three]);
    DropSpacesAppend([twelve], [CharToken(' ')]);
    DropSpacesSingle(twelve);
    DropSpacesSingle(CharToken(' '));
    DropSpacesSingle(three);
  }

  /** In the final revision the space of "12 3" is a token of its own. */
  lemma {:induction false} TokensWithSpace()
    ensures Tokens("12 3") == [Input(NumberType, 12), CharToken(' '), Input(NumberType, 3)]
  {
    assert "12 3" == "12 " + "3" && "12 " == "12" + " ";
    TokensSnocStart("12 ", '3');
    TokensSnocOther("12", ' ');
    TwelveIsOneNumber();
  }

  lemma {:induction false} TwelveIsOneNumber()
    ensures Tokens("12") == [Input(NumberType, 12)]
  {
    assert "12" == "1" + "2";
    TokensSnocExtend("1", '2');
    SingleDigit('1');
  }

  /** A string that ends in a non-digit tokenizes apart from what follows it, spaces or not. */
  lemma {:induction false} SpacedAppend(p: string, q: string)
    requires p == [] || !IsDigit(p[|p| - 1])
    ensures SpacedTokens(p + q) == SpacedTokens(p) + SpacedTokens(q)
  {
    TokensAppend(p, q);
    DropSpacesAppend(Tokens(p), Tokens(q));
  }

  /** A non-digit in front gives its token, or nothing for a space. */
  lemma {:induction false} SpacedOther(c: char, q: string)
    requires !IsDigit(c) && c as int < 256
    ensures SpacedTokens([c] + q) == (if IsSpace(c) then [] else [CharToken(c)]) + SpacedTokens(q)
  {
    TokensOfOther(c, q);
    DropSpacesAppend([CharToken(c)], Tokens(q));
    DropSpacesSingle(CharToken(c));
    SpaceToken(c);
  }

  /** A lone digit in front gives one NUMBER token. */
  lemma {:induction false} SpacedDigit(c: char, q: string)
    requires IsDigit(c) && (q == [] || !IsDigit(q[0]))
    ensures SpacedTokens([c] + q) == [Input(NumberType, DigitValue(c))] + SpacedTokens(q)
  {
    var number := Input(NumberType, DigitValue(c));
    TokensOfDigit(c, q);
    DropSpacesAppend([number], Tokens(q));
    DropSpacesSingle(number);
  }

  // Reading a string backwards, one token at a time: `SpacedTokens(s[k..])`
  // is the suffix `t[j..]` of the expected tokens.

  lemma {:induction false} StepSpace(s: string, k: nat, t: seq<Input>, j: nat)
    requires k < |s| && s[k] == ' ' && j <= |t|
    requires SpacedTokens(s[k + 1..]) == t[j..]
    ensures SpacedTokens(s[k..]) == t[j..]
  {
    assert s[k..] == [s[k]] + s[k + 1..];
    SpacedOther(s[k], s[k + 1..]);
  }

  lemma {:induction false} StepOther(s: string, k: nat, t: seq<Input>, j: nat)
    requires k < |s| && !IsDigit(s[k]) && !IsSpace(s[k]) && s[k] as int < 256
    requires j < |t| && t[j] == CharToken(s[k])
    requires SpacedTokens(s[k + 1..]) == t[j + 1..]
    ensures SpacedTokens(s[k..]) == t[j..]
  {
    assert s[k..] == [s[k]] + s[k + 1..];
    assert t[j..] == [t[j]] + t[j + 1..];
    SpacedOther(s[k], s[k + 1..]);
  }

  lemma {:induction false} StepDigit(s: string, k: nat, t: seq<Input>, j: nat)
    requires k < |s| && IsDigit(s[k]) && (k + 1 == |s| || !IsDigit(s[k + 1]))
    requires j < |t| && t[j] == Input(NumberType, DigitValue(s[k]))
    requires SpacedTokens(s[k + 1..]) == t[j + 1..]
    ensures SpacedTokens(s[k..]) == t[j..]
  {
    assert s[k..] == [s[k]] + s[k + 1..];
    assert t[j..] == [t[j]] + t[j + 1..];
    SpacedDigit(s[k], s[k + 1..]);
  }

  lemma {:induction false} StepTwoDigits(s: string, k: nat, t: seq<Input>, j: nat)
    requires k + 1 < |s| && IsDigit(s[k]) && IsDigit(s[k + 1]) && (k + 2 == |s| || !IsDigit(s[k + 2]))
    requires j < |t| && t[j] == Input(NumberType, DigitValue(s[k]) * 10 + DigitValue(s[k + 1]))
    requires SpacedTokens(s[k + 2..]) == t[j + 1..]
    ensures SpacedTokens(s[k..]) == t[j..]
  {
    assert s[k..] == [s[k], s[k + 1]] + s[k + 2..];
    assert t[j..] == [t[j]] + t[j + 1..];
    TokensOfTwoDigits(s[k], s[k + 1], s[k + 2..]);
    DropSpacesAppend([t[j]], Tokens(s[k + 2..]));
    DropSpacesSingle(t[j]);
  }

  /**
   * `s` is the string of `main` in `Calculator2.c`, "7 * ( 2 + 6 ) - 15 / 3",
   * with its digits left as parameters.
   */
  predicate BuiltInShape(s: string, x: char, y: char, z: char, u: char, v: char, w: char)
  {
    |s| == 22 &&
    s[0] == x && s[1] == ' ' && s[2] == '*' && s[3] == ' ' && s[4] == '(' && s[5] == ' ' &&
    s[6] == y && s[7] == ' ' && s[8] == '+' && s[9] == ' ' && s[10] == z && s[11] == ' ' &&
    s[12] == ')' && s[13] == ' ' && s[14] == '-' && s[15] == ' ' && s[16] == u && s[17] == v &&
    s[18] == ' ' && s[19] == '/' && s[20] == ' ' && s[21] == w
  }

  /**
   * `main` of `Calculator2.c` converts "7 * ( 2 + 6 ) - 15 / 3" to
   * `7 2 6 + * 15 3 / -` and prints its tokens from index 0 through the
   * returned last index 8.
   */
  lemma {:induction false} BuiltInExpression()
    ensures SpacedTokens("7 * ( 2 + 6 ) - 15 / 3") == SampleInfix(7, 2, 6, 15, 3)
    ensures ToPostfix(SpacedTokens("7 * ( 2 + 6 ) - 15 / 3"), false) == SamplePostfix(7, 2, 6, 15, 3)
    ensures |SamplePostfix(7, 2, 6, 15, 3)| - 1 == 8
  {
    assert BuiltInShape("7 * ( 2 + 6 ) - 15 / 3", '7', '2', '6', '1', '5', '3');
    BuiltInTokens("7 * ( 2 + 6 ) - 15 / 3", '7', '2', '6', '1', '5', '3');
    SampleToPostfix(7, 2, 6, 15, 3, false);
  }

  /** With spaces dropped, the string of `main` has the tokens of `7*(2+6)-15/3`. */
  lemma {:induction false} BuiltInTokens(s: string, x: char, y: char, z: char, u: char, v: char, w: char)
    requires IsDigit(x) && IsDigit(y) && IsDigit(z) && IsDigit(u) && IsDigit(v) && IsDigit(w)
    requires BuiltInShape(s, x, y, z, u, v, w)
    ensures SpacedTokens(s) ==
      SampleInfix(DigitValue(x), DigitValue(y), DigitValue(z), DigitValue(u) * 10 + DigitValue(v), DigitValue(w))
  {
    var t := SampleInfix(DigitValue(x), DigitValue(y), DigitValue(z), DigitValue(u) * 10 + DigitValue(v), DigitValue(w));
    assert SpacedTokens(s[22..]) == t[11..] by {
      assert s[22..] == [] && t[11..] == [];
    }
    BuiltInLast(s, t, u, v, w);
    BuiltInParen(s, t, z);
    BuiltInSum(s, t, y);
    BuiltInFirst(s, t, x);
    assert s[0..] == s && t[0..] == t;
  }

  /** The tokens of the division, read backwards from index 22. */
  lemma {:induction false} BuiltInLast(s: string, t: seq<Input>, u: char, v: char, w: char)
    requires IsDigit(u) && IsDigit(v) && IsDigit(w)
    requires |s| == 22 && s[16] == u && s[17] == v && s[18] == ' ' && s[19] == '/' && s[20] == ' ' && s[21] == w
    requires |t| == 11 && t[8] == Num(DigitValue(u) * 10 + DigitValue(v)) && t[9] == CharToken('/') && t[10] == Num(DigitValue(w))
    requires SpacedTokens(s[22..]) == t[11..]
    ensures SpacedTokens(s[16..]) == t[8..]
  {
    StepDigit(s, 21, t, 10);
    StepSpace(s, 20, t, 10);
    StepOther(s, 19, t, 9);
    StepSpace(s, 18, t, 9);
    StepTwoDigits(s, 16, t, 8);
  }

  /** The tokens of the closing parenthesis and the subtraction, read backwards from index 16. */
  lemma {:induction false} BuiltInParen(s: string, t: seq<Input>, z: char)
    requires IsDigit(z)
    requires |s| == 22 && s[10] == z && s[11] == ' ' && s[12] == ')' && s[13] == ' ' && s[14] == '-' && s[15] == ' '
    requires |t| == 11 && t[5] == Num(DigitValue(z)) && t[6] == CharToken(')') && t[7] == CharToken('-')
    requires SpacedTokens(s[16..]) == t[8..]
    ensures SpacedTokens(s[10..]) == t[5..]
  {
    StepSpace(s, 15, t, 8);
    StepOther(s, 14, t, 7);
    StepSpace(s, 13, t, 7);
    StepOther(s, 12, t, 6);
    StepSpace(s, 11, t, 6);
    StepDigit(s, 10, t, 5);
  }

  /** The tokens of the addition, read backwards from index 10. */
  lemma {:induction false} BuiltInSum(s: string, t: seq<Input>, y: char)
    requires IsDigit(y)
    requires |s| == 22 && s[5] == ' ' && s[6] == y && s[7] == ' ' && s[8] == '+' && s[9] == ' '
    requires |t| == 11 && t[3] == Num(DigitValue(y)) && t[4] == CharToken('+')
    requires SpacedTokens(s[10..]) == t[5..]
    ensures SpacedTokens(s[5..]) == t[3..]
  {
    StepSpace(s, 9, t, 5);
    StepOther(s, 8, t, 4);
    StepSpace(s, 7, t, 4);
    StepDigit(s, 6, t, 3);
    StepSpace(s, 5, t, 3);
  }

  /** The tokens of the multiplication and the opening parenthesis, read backwards from index 5. */
  lemma {:induction false} BuiltInFirst(s: string, t: seq<Input>, x: char)
    requires IsDigit(x)
    requires |s| == 22 && s[0] == x && s[1] == ' ' && s[2] == '*' && s[3] == ' ' && s[4] == '('
    requires |t| == 11 && t[0] == Num(DigitValue(x)) && t[1] == CharToken('*') && t[2] == CharToken('(')
    requires SpacedTokens(s[5..]) == t[3..]
    ensures SpacedTokens(s[0..]) == t[0..]
  {
    StepOther(s, 4, t, 2);
    StepSpace(s, 3, t, 2);
    StepOther(s, 2, t, 1);
    StepSpace(s, 1, t, 1);
    StepDigit(s, 0, t, 0);
  }

  // ---------------------------------------------------------------------
  // infixToPostfix

  /**
   * `infixToPostfix` of this revision: the shunting-yard conversion that
   * pops only stacked operators of greater precedence.  It returns the index
   * of the last token written, and 0 when nothing is written (the buffer is
   * then freed).
   */
  method InfixToPostfix(infix: seq<Input>) returns (last: int, postfix: seq<Input>)
    ensures postfix == ToPostfix(infix, false)
    ensures last == if postfix == [] then 0 else |postfix| - 1
  {
    var stack := new Stack<Input>();
    // The `realloc`s of this revision are unchecked, so every request is
    // taken as granted: the shared step `Calculator.ConsumeToken` is handed
    // an allocation budget of one buffer slot per token plus the initial
    // one, which no run can exhaust, and its failure branch is unreachable.
    var grants := |infix| + 1;
    var used := 1;
    var output: seq<Input> := [];
    var i := 0;
    while i < |infix|
      invariant 0 <= i <= |infix|
      invariant used == 1 + |output| <= grants
      invariant Conversion(output, stack.items) == Convert(infix[..i], false)
    {
      Calculator.ConvertSnoc(infix, i, false);
      var ok;
      output, used, ok := Calculator.ConsumeToken(stack, output, used, grants, infix[i], false);
      if !ok {
        assert false;
      }
      i := i + 1;
    }
    assert infix[..i] == infix;
    while !stack.IsEmpty()
      invariant output + Reversed(stack.items) == ToPostfix(infix, false)
      decreases |stack.items|
    {
      var data := PopInput(stack);
      ReversedSnoc(stack.items, data);
      AppendShift(output, data, Reversed(stack.items));
      output := output + [data];
    }
    AppendEmpty(output);
    var postfixLocation := |output|;
    if postfixLocation == 0 {
      postfixLocation := postfixLocation + 1;
    }
    return postfixLocation - 1, output;
  }

  /**
   * The index this revision returns cannot tell an empty result from a
   * one-token one: `")"` and `"5"` both give 0.
   */
  lemma {:induction false} LastIndexAmbiguous()
    ensures ToPostfix([CharToken(')')], false) == []
    ensures ToPostfix([Input(NumberType, 5)], false) == [Input(NumberType, 5)]
  {
    assert [CharToken(')')][..0] == [];
    assert [Input(NumberType, 5)][..0] == [];
  }
}
