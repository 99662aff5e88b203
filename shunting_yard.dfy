/**
 * The reference definition of `infixToPostfix`: the shunting-yard
 * conversion as a fold of one step per infix token over a pair of the
 * output written so far and the operator stack.  Every revision of the
 * integer calculator runs the same steps; they differ only in whether an
 * incoming operator pops stacked operators of equal precedence
 * (`popOnEqual`, the final revision) or only of greater precedence.
 */
module ShuntingYard {
  import opened CalculatorUtils

  /** `precedence`: -1 for anything but an operator, then `+ -` < `* /` < `^`. */
  function Precedence(input: Input): (rank: int)
    ensures rank == -1 <==> !IsOperator(input)
    ensures IsOperator(input) ==> 1 <= rank <= 3
  {
    if !IsOperator(input) then -1
    else
      var op := CharCast(input.value);
      if op == '+' as int || op == '-' as int then 1
      else if op == '*' as int || op == '/' as int then 2
      else if op == '^' as int then 3
      else 0
  }

  /** The precedence of a character's token, by the character. */
  lemma {:induction false} PrecedenceTable(c: char)
    requires c as int < 256
    ensures Precedence(CharToken(c)) ==
      if c == '+' || c == '-' then 1
      else if c == '*' || c == '/' then 2
      else if c == '^' then 3
      else -1
  {
    CharTokenClass(c);
  }

  /** Whether a stacked operator of rank `top` is popped by an incoming one of rank `incoming`. */
  predicate Outranks(top: int, incoming: int, popOnEqual: bool)
  {
    if popOnEqual then top >= incoming else top > incoming
  }

  function Reversed<T>(s: seq<T>): (r: seq<T>)
    ensures |r| == |s|
  {
    if s == [] then [] else [s[|s| - 1]] + Reversed(s[..|s| - 1])
  }

  lemma {:induction false} ReversedSnoc<T>(s: seq<T>, x: T)
    ensures Reversed(s + [x]) == [x] + Reversed(s)
  {
    assert (s + [x])[..|s|] == s;
  }

  /** A non-empty sequence is its front followed by its last element. */
  lemma {:induction false} SplitLast<T>(s: seq<T>)
    requires s != []
    ensures s == s[..|s| - 1] + [s[|s| - 1]]
  {
  }

  lemma {:induction false} AppendEmpty<T>(s: seq<T>)
    ensures s + Reversed<T>([]) == s
  {
  }

  lemma {:induction false} AppendShift<T>(s: seq<T>, x: T, t: seq<T>)
    ensures (s + [x]) + t == s + ([x] + t)
  {
  }

  lemma {:induction false} ReversedMultiset<T>(s: seq<T>)
    ensures multiset(Reversed(s)) == multiset(s)
  {
    if s != [] {
      assert s == s[..|s| - 1] + [s[|s| - 1]];
      ReversedMultiset(s[..|s| - 1]);
    }
  }

  /** The state of a conversion: the postfix written so far and the operator stack, top last. */
  datatype Conversion = Conversion(output: seq<Input>, stack: seq<Input>)

  /** The index of the topmost `'('` on the stack, or -1 when there is none. */
  function LastOpen(stack: seq<Input>): (k: int)
    ensures -1 <= k < |stack|
    ensures k >= 0 ==> IsOpenParen(stack[k])
    ensures forall j :: k < j < |stack| ==> !IsOpenParen(stack[j])
  {
    if stack == [] then -1
    else if IsOpenParen(stack[|stack| - 1]) then |stack| - 1
    else LastOpen(stack[..|stack| - 1])
  }

  /**
   * A `')'`: everything above the topmost `'('` goes to the output, top
   * first, and that `'('` is dropped; with no `'('` the whole stack goes.
   * The output written is given by `CloseParenOutput`.
   */
  function CloseParen(c: Conversion): (d: Conversion)
    ensures c.output <= d.output
    ensures |d.output| + |d.stack| <= |c.output| + |c.stack|
    ensures d.stack == c.stack[..if LastOpen(c.stack) < 0 then 0 else LastOpen(c.stack)]
    decreases |c.stack|
  {
    if c.stack == [] then c
    else
      var top := c.stack[|c.stack| - 1];
      var rest := c.stack[..|c.stack| - 1];
      if IsOpenParen(top) then Conversion(c.output, rest)
      else
        var d := CloseParen(Conversion(c.output + [top], rest));
        assert LastOpen(c.stack) == LastOpen(rest);
        assert LastOpen(rest) >= 0 ==> c.stack[..LastOpen(rest)] == rest[..LastOpen(rest)];
        d
  }

  /** What `')'` writes: the tokens above the topmost `'('`, top first. */
  lemma {:induction false} CloseParenOutput(c: Conversion)
    ensures CloseParen(c).output == c.output + Reversed(c.stack[LastOpen(c.stack) + 1..])
    decreases |c.stack|
  {
    if c.stack == [] || IsOpenParen(c.stack[|c.stack| - 1]) {
      assert c.stack[LastOpen(c.stack) + 1..] == [];
      AppendEmpty(c.output);
    } else {
      var moved := Conversion(c.output + [c.stack[|c.stack| - 1]], c.stack[..|c.stack| - 1]);
      CloseParenOutput(moved);
      CloseParenMoves(c, moved);
    }
  }

  /** The inductive step of `CloseParenOutput`: an operator on top moves to the output. */
  lemma {:induction false} CloseParenMoves(c: Conversion, moved: Conversion)
    requires c.stack != [] && !IsOpenParen(c.stack[|c.stack| - 1])
    requires moved == Conversion(c.output + [c.stack[|c.stack| - 1]], c.stack[..|c.stack| - 1])
    requires CloseParen(moved).output == moved.output + Reversed(moved.stack[LastOpen(moved.stack) + 1..])
    ensures CloseParen(c).output == c.output + Reversed(c.stack[LastOpen(c.stack) + 1..])
  {
    var top := c.stack[|c.stack| - 1];
    var rest := moved.stack;
    assert CloseParen(c) == CloseParen(moved);
    assert LastOpen(c.stack) == LastOpen(rest);
    SplitLast(c.stack);
    MovedTop(c.output, c.stack, rest, top, LastOpen(rest) + 1);
  }

  /**
   * Moving the top of `stack` to the output and then the part of the rest
   * from `j` on, reversed, writes the same as moving `stack[j..]` reversed.
   */
  lemma {:induction false} MovedTop<T>(output: seq<T>, stack: seq<T>, rest: seq<T>, top: T, j: int)
    requires stack == rest + [top] && 0 <= j <= |rest|
    ensures (output + [top]) + Reversed(rest[j..]) == output + Reversed(stack[j..])
  {
    assert stack[j..] == rest[j..] + [top];
    ReversedSnoc(rest[j..], top);
    AppendShift(output, top, Reversed(rest[j..]));
  }

  /** Every element of `s` is an operator that an incoming operator of rank `rank` pops. */
  predicate AllOutrank(s: seq<Input>, rank: int, popOnEqual: bool)
  {
    forall j :: 0 <= j < |s| ==> !IsOpenParen(s[j]) && Outranks(Precedence(s[j]), rank, popOnEqual)
  }

  /** The stack is empty, or its top is a `'('` or an operator the incoming one does not pop. */
  predicate Halts(stack: seq<Input>, rank: int, popOnEqual: bool)
  {
    stack != [] ==>
      var top := stack[|stack| - 1];
      IsOpenParen(top) || !Outranks(Precedence(top), rank, popOnEqual)
  }

  lemma {:induction false} AllOutrankSnoc(s: seq<Input>, x: Input, rank: int, popOnEqual: bool)
    requires AllOutrank(s, rank, popOnEqual)
    requires !IsOpenParen(x) && Outranks(Precedence(x), rank, popOnEqual)
    ensures AllOutrank(s + [x], rank, popOnEqual)
  {
  }

  /**
   * An incoming operator of rank `rank`: operators are popped to the output,
   * top first, for as long as the top is an operator that outranks it.  The
   * output written is given by `PopOutrankingOutput`.
   */
  function PopOutranking(c: Conversion, rank: int, popOnEqual: bool): (d: Conversion)
    ensures d.stack <= c.stack
    ensures c.output <= d.output
    ensures |d.output| + |d.stack| == |c.output| + |c.stack|
    decreases |c.stack|
  {
    if c.stack == [] then c
    else
      var top := c.stack[|c.stack| - 1];
      var rest := c.stack[..|c.stack| - 1];
      if IsOpenParen(top) || !Outranks(Precedence(top), rank, popOnEqual) then c
      else PopOutranking(Conversion(c.output + [top], rest), rank, popOnEqual)
  }

  /**
   * An incoming operator pops exactly the operators that outrank it: every
   * popped one does, and the new top, if any, is a `'('` or does not.
   */
  lemma {:induction false} PopOutrankingStops(c: Conversion, rank: int, popOnEqual: bool)
    ensures var d := PopOutranking(c, rank, popOnEqual);
      AllOutrank(c.stack[|d.stack|..], rank, popOnEqual) && Halts(d.stack, rank, popOnEqual)
    decreases |c.stack|
  {
    if c.stack == [] || IsOpenParen(c.stack[|c.stack| - 1])
      || !Outranks(Precedence(c.stack[|c.stack| - 1]), rank, popOnEqual) {
      assert c.stack[|c.stack|..] == [];
    } else {
      var moved := Conversion(c.output + [c.stack[|c.stack| - 1]], c.stack[..|c.stack| - 1]);
      PopOutrankingStops(moved, rank, popOnEqual);
      PopOutrankingStopsMoves(c, moved, rank, popOnEqual);
    }
  }

  /** The inductive step of `PopOutrankingStops`: the popped top outranks the incoming operator. */
  lemma {:induction false} PopOutrankingStopsMoves(c: Conversion, moved: Conversion, rank: int, popOnEqual: bool)
    requires c.stack != [] && !IsOpenParen(c.stack[|c.stack| - 1])
    requires Outranks(Precedence(c.stack[|c.stack| - 1]), rank, popOnEqual)
    requires moved == Conversion(c.output + [c.stack[|c.stack| - 1]], c.stack[..|c.stack| - 1])
    requires var d := PopOutranking(moved, rank, popOnEqual);
      AllOutrank(moved.stack[|d.stack|..], rank, popOnEqual) && Halts(d.stack, rank, popOnEqual)
    ensures var d := PopOutranking(c, rank, popOnEqual);
      AllOutrank(c.stack[|d.stack|..], rank, popOnEqual) && Halts(d.stack, rank, popOnEqual)
  {
    var top := c.stack[|c.stack| - 1];
    var d := PopOutranking(c, rank, popOnEqual);
    assert d == PopOutranking(moved, rank, popOnEqual);
    assert |d.stack| <= |moved.stack|;
    SplitLast(c.stack);
    assert c.stack[|d.stack|..] == moved.stack[|d.stack|..] + [top];
    AllOutrankSnoc(moved.stack[|d.stack|..], top, rank, popOnEqual);
  }

  /** What an incoming operator writes: the operators it pops, top first. */
  lemma {:induction false} PopOutrankingOutput(c: Conversion, rank: int, popOnEqual: bool)
    ensures var d := PopOutranking(c, rank, popOnEqual);
      d.output == c.output + Reversed(c.stack[|d.stack|..])
    decreases |c.stack|
  {
    var d := PopOutranking(c, rank, popOnEqual);
    if c.stack == [] || IsOpenParen(c.stack[|c.stack| - 1])
      || !Outranks(Precedence(c.stack[|c.stack| - 1]), rank, popOnEqual) {
      assert d == c;
      assert c.stack[|d.stack|..] == [];
      AppendEmpty(c.output);
    } else {
      var moved := Conversion(c.output + [c.stack[|c.stack| - 1]], c.stack[..|c.stack| - 1]);
      PopOutrankingOutput(moved, rank, popOnEqual);
      PopOutrankingMoves(c, moved, rank, popOnEqual);
    }
  }

  /** The inductive step of `PopOutrankingOutput`: an outranking operator moves to the output. */
  lemma {:induction false} PopOutrankingMoves(c: Conversion, moved: Conversion, rank: int, popOnEqual: bool)
    requires c.stack != [] && !IsOpenParen(c.stack[|c.stack| - 1])
    requires Outranks(Precedence(c.stack[|c.stack| - 1]), rank, popOnEqual)
    requires moved == Conversion(c.output + [c.stack[|c.stack| - 1]], c.stack[..|c.stack| - 1])
    requires var d := PopOutranking(moved, rank, popOnEqual);
      d.output == moved.output + Reversed(moved.stack[|d.stack|..])
    ensures var d := PopOutranking(c, rank, popOnEqual);
      d.output == c.output + Reversed(c.stack[|d.stack|..])
  {
    var top := c.stack[|c.stack| - 1];
    var rest := moved.stack;
    var d := PopOutranking(c, rank, popOnEqual);
    assert d == PopOutranking(moved, rank, popOnEqual);
    assert |d.stack| <= |rest|;
    SplitLast(c.stack);
    MovedTop(c.output, c.stack, rest, top, |d.stack|);
  }

  /** One infix token. Tokens of no class (a space, a letter) change nothing. */
  function Step(c: Conversion, input: Input, popOnEqual: bool): (d: Conversion)
    ensures c.output <= d.output
    ensures |d.output| + |d.stack| <= |c.output| + |c.stack| + 1
  {
    if IsOperand(input) then Conversion(c.output + [input], c.stack)
    else if IsOpenParen(input) then Conversion(c.output, c.stack + [input])
    else if IsCloseParen(input) then CloseParen(c)
    else if IsOperator(input) then
      var d := PopOutranking(c, Precedence(input), popOnEqual);
      Conversion(d.output, d.stack + [input])
    else c
  }

  /** The state after the main loop has consumed `infix`, starting from `c`. */
  function Fold(c: Conversion, infix: seq<Input>, popOnEqual: bool): (d: Conversion)
    ensures c.output <= d.output
    ensures |d.output| + |d.stack| <= |c.output| + |c.stack| + |infix|
  {
    if infix == [] then c
    else Step(Fold(c, infix[..|infix| - 1], popOnEqual), infix[|infix| - 1], popOnEqual)
  }

  /** The state after the main loop of `infixToPostfix` has consumed `infix`. */
  function Convert(infix: seq<Input>, popOnEqual: bool): Conversion
  {
    Fold(Conversion([], []), infix, popOnEqual)
  }

  /** The postfix form: the converted output followed by the stack, popped top first. */
  function ToPostfix(infix: seq<Input>, popOnEqual: bool): (postfix: seq<Input>)
    ensures |postfix| <= |infix|
    ensures Convert(infix, popOnEqual).output <= postfix
  {
    var c := Convert(infix, popOnEqual);
    c.output + Reversed(c.stack)
  }

  /** Consuming more input only ever appends to the output. */
  lemma {:induction false} ConvertExtends(infix: seq<Input>, i: nat, popOnEqual: bool)
    requires i <= |infix|
    ensures Convert(infix[..i], popOnEqual).output <= Convert(infix, popOnEqual).output
  {
    assert infix == infix[..i] + infix[i..];
    FoldAppend(Conversion([], []), infix[..i], infix[i..], popOnEqual);
  }

  /** Folding over two pieces one after the other is folding over their concatenation. */
  lemma {:induction false} FoldAppend(c: Conversion, a: seq<Input>, b: seq<Input>, popOnEqual: bool)
    ensures Fold(c, a + b, popOnEqual) == Fold(Fold(c, a, popOnEqual), b, popOnEqual)
    decreases |b|
  {
    if b == [] {
      assert a + b == a;
    } else {
      assert (a + b)[..|a + b| - 1] == a + b[..|b| - 1];
      FoldAppend(c, a, b[..|b| - 1], popOnEqual);
    }
  }

  lemma {:induction false} FoldSnoc(c: Conversion, infix: seq<Input>, input: Input, popOnEqual: bool)
    ensures Fold(c, infix + [input], popOnEqual) == Step(Fold(c, infix, popOnEqual), input, popOnEqual)
  {
    assert (infix + [input])[..|infix|] == infix;
  }
}
