/**
 * The token of the integer calculator and the small helpers every revision
 * shares: the token classes and the token-stack wrappers of
 * `calculatorUtils.c`.
 */
module CalculatorUtils {
  import opened Stacks

  /** `NUMBER_TYPE` and `CHAR_TYPE` of `input.h`. */
  const NumberType := 0
  const CharType := 1

  /** A buffer handed back through a pointer argument: `None` for NULL. */
  datatype Option<T> = None | Some(value: T)

  /** `struct Input`: a number, or a character stored by its code. */
  datatype Input = Input(kind: int, value: int)

  /**
   * `(char) v`: the low byte of `v`, read as a signed `char` (the C `char`
   * of the usual ABIs).
   */
  function CharCast(v: int): (c: int)
    ensures -128 <= c < 128
    ensures (v - c) % 256 == 0
  {
    var b := v % 256;
    if b < 128 then b else b - 256
  }

  /** The value a C `char` variable holds for a character of the input. */
  function CharCode(c: char): int
  {
    CharCast(c as int)
  }

  /** The CHAR token that carries character `c`. */
  function CharToken(c: char): Input
  {
    Input(CharType, CharCode(c))
  }

  predicate IsChar(input: Input)
  {
    input.kind == CharType
  }

  predicate IsOperatorCode(c: int)
  {
    c == '^' as int || c == '+' as int || c == '-' as int || c == '*' as int || c == '/' as int
  }

  /** `isOperator`: a CHAR token whose character is one of `^ + - * /`. */
  predicate IsOperator(input: Input)
  {
    IsChar(input) && IsOperatorCode(CharCast(input.value))
  }

  /** `isRightParenthesis`, which despite its name recognises `'('`. */
  predicate IsOpenParen(input: Input)
  {
    IsChar(input) && CharCast(input.value) == '(' as int
  }

  /** `isLeftParenthesis`, which despite its name recognises `')'`. */
  predicate IsCloseParen(input: Input)
  {
    IsChar(input) && CharCast(input.value) == ')' as int
  }

  /** `isOperand`: a NUMBER token, whatever its value. */
  predicate IsOperand(input: Input)
  {
    input.kind == NumberType
  }

  /** `isSpace`. */
  predicate IsSpace(c: char)
  {
    c == ' '
  }

  /**
   * A token is in at most one of the four classes the converter tells apart,
   * and a number is never mistaken for an operator or a parenthesis, even
   * when its value is the code of one.
   */
  lemma TokenClasses(input: Input)
    ensures IsOperand(input) ==> !IsOperator(input) && !IsOpenParen(input) && !IsCloseParen(input)
    ensures IsOperator(input) ==> !IsOpenParen(input) && !IsCloseParen(input)
    ensures !(IsOpenParen(input) && IsCloseParen(input))
    ensures !IsOperator(Input(NumberType, '+' as int)) && IsOperand(Input(NumberType, '+' as int))
  {
  }

  /** The cast gives back the code of a character stored by the tokenizer. */
  lemma CharCastOfCode(c: char)
    ensures CharCast(CharCode(c)) == CharCode(c)
  {
  }

  /**
   * For a character of the C character set, the class of its CHAR token is
   * decided by the character itself.
   */
  lemma CharTokenClass(c: char)
    requires c as int < 256
    ensures IsOperator(CharToken(c)) <==> c in "^+-*/"
    ensures IsOpenParen(CharToken(c)) <==> c == '('
    ensures IsCloseParen(CharToken(c)) <==> c == ')'
    ensures !IsOperand(CharToken(c))
  {
  }

  // ---------------------------------------------------------------------
  // The token stack

  /** `popInput`: the top token, removed from the stack. */
  method PopInput(stack: Stack<Input>) returns (input: Input)
    requires stack.items != []
    modifies stack
    ensures stack.items + [input] == old(stack.items)
  {
    input := stack.Pop();
  }

  /** `pushInput`: the token becomes the new top. */
  method PushInput(stack: Stack<Input>, input: Input)
    modifies stack
    ensures stack.items == old(stack.items) + [input]
  {
    stack.Push(input);
  }

  /** `peekInput`: pops the top and pushes it back, so the stack ends as it began. */
  method PeekInput(stack: Stack<Input>) returns (input: Input)
    requires stack.items != []
    modifies stack
    ensures stack.items == old(stack.items)
    ensures input == stack.items[|stack.items| - 1]
  {
    input := PopInput(stack);
    PushInput(stack, input);
  }
}
