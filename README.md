# Sequence alignment and infix calculators, modelled in Dafny

The repository is a set of C exercises. This project models two of them.

- **Global sequence alignment** (`ex2/CompareSequences.c`): a table of
  (|s1| + 1) x (|s2| + 1) cells is allocated row by row. Its border is
  initialised with multiples of the gap score. The bottom-right cell is then
  resolved by a memoised recursive descent. Each cell takes the best of a
  diagonal step (match or mismatch score) and two gap steps. The model keeps
  the table as an `array2` and the recursion as a recursive method. It proves
  that every initialised cell holds `Score`, the optimal global alignment
  score. It also proves that `Score` is the largest value any alignment of
  the two prefixes reaches, and that it is symmetric and monotone in the gap
  score. In the model the row slots of a fresh table start null, and there
  each allocated block is freed exactly once, on success and on every
  allocation failure. The C code differs on a failed row allocation (see
  "## Left out").
- **Infix calculators** (`ex3`). Three revisions are modelled:
  - `calculator.c`, the final revision, with helpers in `calculatorUtils.c`.
    It tokenizes a string into NUMBER and CHAR tokens, converts the infix
    tokens to postfix with the shunting-yard algorithm, and evaluates the
    postfix tokens on a value stack.
  - `calculator2.c` and its copy `Calculator2.c`, an earlier revision. It
    drops spaces, pops only operators of strictly greater precedence, and
    returns the index of the last token written.
  - `Calculator.c`, the first revision. It works on single characters, and
    every non-operator character is an operand `c - '0'`.

  Each loop is a method proved to compute a reference definition:
  - `Tokens`/`SpacedTokens` for tokenizing;
  - `ToPostfix`, a fold of one shunting-yard `Step` per token, for
    conversion;
  - `Result`, a stack machine, for evaluation.

  The character revision is tied to the same definitions by lifting each
  character to the token it stands for. Properties proved about the
  reference definitions:
  - operands keep their order;
  - no `')'` reaches the output;
  - the operator stack stays ordered by precedence;
  - a fully parenthesised expression converts to its postfix form, and that
    form evaluates to the expression's value;
  - the two popping rules differ exactly on operators of equal precedence.

The stack library `stack.h` is not part of this model. `Stacks.Stack`
stands in for it: a sequence whose last element is the top. Allocation
failure is modelled by a `grants` parameter, the number of allocation
requests that succeed before the first one fails.

## Model

| member | source | states |
|---|---|---|
| Stacks.Stack.constructor | ex3/calculator.c:121 | `stackAlloc` gives an empty stack |
| Stacks.Stack.IsEmpty | ex3/calculator.c:186 | `isEmptyStack` is true exactly when the stack holds no element |
| Stacks.Stack.Push | ex3/calculator.c:248 | `push` makes its argument the new top and keeps everything below |
| Stacks.Stack.Pop | ex3/calculator.c:252-253 | `pop` hands back the top and leaves the rest of the stack |
| CalculatorUtils.PopInput | ex3/calculatorUtils.c:3-8 | the token returned was the top, and the stack loses exactly it |
| CalculatorUtils.PushInput | ex3/calculatorUtils.c:10-13 | the token becomes the new top |
| CalculatorUtils.PeekInput | ex3/calculatorUtils.c:15-21 | the token returned is the top, and the stack ends as it began |
| CalculatorUtils.CharCast | ex3/calculatorUtils.c:35 | `(char) v` is in the signed byte range and congruent to `v` modulo 256 |
| CalculatorUtils.TokenClasses | ex3/calculatorUtils.c:23-64 | operand, operator, `'('` and `')'` are disjoint classes, and a NUMBER holding the code of `+` is still an operand |
| CalculatorUtils.CharTokenClass | ex3/calculatorUtils.c:28-59 | for a byte, its CHAR token is an operator exactly for `^ + - * /`, `'('` exactly for `(`, `')'` exactly for `)`, and never an operand |
| CalculatorUtils.CharCastOfCode | ex3/calculatorUtils.c:35 | casting the stored code of a character gives that code back |
| ShuntingYard.Precedence | ex3/calculator.c:7-27 | the rank is -1 exactly for non-operators, and 1 to 3 for operators |
| ShuntingYard.PrecedenceTable | ex3/calculator.c:15-26 | `+ -` rank 1, `* /` rank 2, `^` rank 3, any other byte -1 |
| ShuntingYard.LastOpen | ex3/calculator.c:150 | the index found holds a `'('` and no `'('` lies above it |
| ShuntingYard.CloseParen | ex3/calculator.c:148-161 | a `')'` leaves the stack cut just below its topmost `'('` (or empty) and only appends to the output |
| ShuntingYard.CloseParenOutput | ex3/calculator.c:150-159 | a `')'` writes the tokens above the topmost `'('`, top first |
| ShuntingYard.PopOutranking | ex3/calculator.c:170-180 | an incoming operator only moves tokens from the top of the stack to the output |
| ShuntingYard.PopOutrankingStops | ex3/calculator.c:170 | every popped token outranks the incoming operator, and the new top is `'('`, missing or not outranking |
| ShuntingYard.PopOutrankingOutput | ex3/calculator.c:170-180 | the popped tokens are written top first |
| ShuntingYard.Step | ex3/calculator.c:130-184 | one token only appends to the output and grows output plus stack by at most one |
| ShuntingYard.ToPostfix | ex3/calculator.c:111-206 | the postfix form is no longer than the infix and extends the output of the main loop |
| ShuntingYard.ConvertExtends | ex3/calculator.c:130-184 | consuming more input only ever appends to the output |
| ShuntingYard.FoldAppend | ex3/calculator.c:130 | converting two pieces one after the other is converting their concatenation |
| Lexing.RunLength | ex3/calculator.c:55-76 | the run of digits that starts a string is all digits and is followed by a non-digit or the end |
| Lexing.Tokens | ex3/calculator.c:29-109 | there are never more tokens than characters, and none exactly for the empty string |
| Lexing.TokensSnocOther | ex3/calculator.c:77-92 | a non-digit appended adds exactly its CHAR token |
| Lexing.TokensSnocStart | ex3/calculator.c:61-73 | a digit after a non-digit starts a NUMBER token of that digit's value |
| Lexing.TokensSnocExtend | ex3/calculator.c:57-60 | a digit after a digit multiplies the last NUMBER by ten and adds the digit |
| Lexing.TokensOfRun | ex3/calculator.c:55-76 | a run of digits is one NUMBER token of its decimal value |
| Lexing.TokensAppend | ex3/calculator.c:77-92 | a string ending in a non-digit tokenizes apart from what follows it |
| Lexing.TokensGrow | ex3/calculator.c:51-94 | a longer string never has fewer tokens |
| Calculator.Pending | ex3/calculator.c:79 | while a number is pending, the buffer stands for as many tokens as it holds, its last one carrying the pending value |
| Calculator.StringToInputs | ex3/calculator.c:29-109 | `-ENOMEM` exactly when the buffer cannot grow to one more than the token count; otherwise the count of `Tokens(str)` and the tokens, or NULL when there are none |
| Calculator.ExtendRun | ex3/calculator.c:57-60 | a digit inside a run keeps the buffer equal to the tokens read so far |
| Calculator.StartRun | ex3/calculator.c:61-73 | a digit starting a run adds one token and keeps the buffer equal to the tokens read so far |
| Calculator.OtherChar | ex3/calculator.c:77-92 | storing the pending number and the CHAR token keeps the buffer equal to the tokens read so far |
| Calculator.MoreTokensAhead | ex3/calculator.c:65-69 | a failed request for a token means the whole string needs more than was granted |
| Calculator.InfixToPostfix | ex3/calculator.c:111-206 | `-ENOMEM` exactly when the buffer cannot hold one more than the postfix form; otherwise the count and the postfix form `ToPostfix(infix, true)`, with `None` for an empty one, where C stores the pointer it has just freed |
| Calculator.ConsumeToken | ex3/calculator.c:130-184 | one token of the main loop performs one `Step`, or fails only when the step's output does not fit |
| Calculator.PopToOpenParen | ex3/calculator.c:148-161 | the `')'` loop performs `CloseParen`, or fails only when its output does not fit |
| Calculator.PopOutranked | ex3/calculator.c:170-180 | the operator loop performs `PopOutranking`, or fails only when its output does not fit |
| Calculator.CloseParenPop | ex3/calculator.c:150 | popping `'('` ends the `')'` loop; popping anything else writes it and continues |
| Calculator.PopOutrankingPop | ex3/calculator.c:170-179 | an outranking top is popped to the output and the popping continues |
| Calculator.PopOutrankingHalts | ex3/calculator.c:164-170 | an empty stack, a `'('` on top or a weaker top stops the popping |
| Calculator.WriteAhead | ex3/calculator.c:135-139 | a buffer too small for a prefix's output is too small for the whole postfix form |
| Calculator.Calculate | ex3/calculator.c:231-267 | the outcome is `Result(postfix)`, the stack machine's verdict |
| Calculator.Stops | ex3/calculator.c:255-259 | a fault on a prefix, such as a division by zero, is the result of the whole run |
| Calculator.SplitTwo | ex3/calculator.c:252-253 | the first pop is the right operand, the second the left |
| Calculator.SampleTokens | ex3/calculator.c:29-109 | `x*(y+z)-uv/w` has the eleven tokens of the sample expression, `uv` being one number |
| Calculator.SampleRun | ex3/calculator.c:279-313 | "7*(2+6)-15/3" tokenizes to the sample, converts to `7 2 6 + * 15 3 / -` and evaluates to 51 |
| PostfixMachine.CDiv | ex3/calculator.c:223 | C's quotient: the remainder is smaller than the divisor and has the sign of the dividend |
| PostfixMachine.CDivExamples | ex3/calculator.c:223 | truncation toward zero differs from Euclidean division on negative operands |
| PostfixMachine.PowResult | ex3/calculator.c:225 | the exact power for a non-negative exponent; undefined exactly for a zero base and a negative exponent |
| PostfixMachine.PowNegativeExponent | ex3/calculator.c:225 | a negative exponent gives `1 / b^-a` truncated toward zero |
| PostfixMachine.Evaluate | ex3/calculator.c:208-229 | a division by zero is reported exactly when the divisor is 0, a non-operator gives 0, and a quotient leaves a remainder smaller than the divisor |
| PostfixMachine.Exec | ex3/calculator.c:244-261 | a fault sticks, only an operator can fault, and a running step leaves a running machine |
| PostfixMachine.Result | ex3/calculator.c:263-266 | a stack underflow exactly when the run ends running on an empty stack |
| PostfixMachine.RunAppend | ex3/calculator.c:242-262 | running two pieces one after the other is running their concatenation |
| PostfixMachine.FaultSticks | ex3/calculator.c:255-259 | after a fault nothing runs |
| PostfixMachine.ApplyOperator | ex3/calculator.c:250-261 | an operator pops the right and then the left operand and pushes `evaluate`'s value |
| PostfixMachine.EmitRuns | ex3/calculator.c:242-262 | running an expression's postfix form pushes its value or stops with its fault |
| PostfixMachine.ResultOfEmit | ex3/calculator.c:231-267 | `calculate` computes the value of every well-formed expression from its postfix form |
| ConversionProperties.Operands | ex3/calculator.c:133-143 | the operands of a sequence are among its tokens and are operands |
| ConversionProperties.OperandsAppend | ex3/calculator.c:133-143 | the operands of a concatenation are the operands of each part, in order |
| ConversionProperties.StepOperand | ex3/calculator.c:133-143 | an operand keeps the conversion invariant |
| ConversionProperties.StepOpen | ex3/calculator.c:144-147 | a `'('` keeps the conversion invariant |
| ConversionProperties.StepClose | ex3/calculator.c:148-161 | a `')'` keeps the conversion invariant |
| ConversionProperties.StepOperator | ex3/calculator.c:162-183 | an operator keeps the conversion invariant under either popping rule |
| ConversionProperties.PushOperator | ex3/calculator.c:181 | pushing an operator the top does not outrank keeps the stack ordered by precedence |
| ConversionProperties.ConvertInvariant | ex3/calculator.c:130-184 | the main loop keeps the invariant over every prefix of the input |
| ConversionProperties.PostfixShape | ex3/calculator.c:111-206 | the postfix form holds the input's operands in order and no `')'`, and the stack is ordered by precedence |
| ConversionProperties.FoldParenthesized | ex3/calculator.c:130-184 | a fully parenthesised expression appends its postfix form and leaves the stack as it was |
| ConversionProperties.ParenthesizedToPostfix | ex3/calculator.c:111-206 | a fully parenthesised expression converts to exactly its postfix form, under either rule |
| ConversionProperties.ParenthesizedValue | ex3/calculator.c:111-267 | converting and then calculating a fully parenthesised expression gives its value |
| ConversionProperties.EqualRuleLeftAssociates | ex3/calculator.c:170 | with `>=`, `x o1 y o2 z` for equal precedences becomes `x y o1 z o2` |
| ConversionProperties.StrictRuleRightAssociates | ex3/calculator2.c:143 | with `>`, `x o1 y o2 z` for equal precedences becomes `x y z o2 o1` |
| ConversionProperties.SubtractionChain | ex3/calculator2.c:143 | "8-3-2" evaluates to 3 with `>=` and to 7 with `>` |
| ConversionProperties.SubtractLeft | ex3/calculator.c:250-261 | `8 3 - 2 -` is (8 - 3) - 2 = 3 |
| ConversionProperties.SubtractRight | ex3/calculator.c:250-261 | `8 3 2 - -` is 8 - (3 - 2) = 7 |
| ConversionProperties.SampleToPostfix | ex3/calculator.c:111-206 | both rules convert `a * ( b + c ) - d / e` to `a b c + * d e / -` |
| ConversionProperties.SampleValue | ex3/calculator.c:231-267 | `7 2 6 + * 15 3 / -` evaluates to 51 |
| CalculatorTwo.SpacedTokens | ex3/calculator2.c:31-98 | there are never more tokens than characters |
| CalculatorTwo.SpacedTokensMembers | ex3/calculator2.c:68-81 | a token is kept exactly when it is a token of the final revision other than a space |
| CalculatorTwo.StringToInputs | ex3/calculator2.c:31-98 | the count and the tokens of `str` without spaces, NULL when there are none |
| CalculatorTwo.ExtendRun | ex3/calculator2.c:54-58 | a digit inside a run keeps the buffer equal to the tokens read so far |
| CalculatorTwo.StartRun | ex3/calculator2.c:59-66 | a digit starting a run adds one token and keeps the buffer equal to the tokens read so far |
| CalculatorTwo.OtherChar | ex3/calculator2.c:68-81 | a non-digit stores the pending number and adds its token unless it is a space |
| CalculatorTwo.SpaceSeparatesNumbers | ex3/calculator2.c:68-73 | a space still ends a run of digits: "12 3" is two numbers |
| CalculatorTwo.TokensWithSpace | ex3/calculator.c:77-92 | in the final revision the space of "12 3" is a token of its own |
| CalculatorTwo.SpacedAppend | ex3/calculator2.c:68-81 | a string ending in a non-digit tokenizes apart from what follows it |
| CalculatorTwo.InfixToPostfix | ex3/calculator2.c:100-170 | the postfix form `ToPostfix(infix, false)`, and the index of its last token (0 for an empty one) |
| CalculatorTwo.LastIndexAmbiguous | ex3/calculator2.c:161-169 | the returned index cannot tell ")" (nothing written) from "5" (one token) |
| CalculatorTwo.BuiltInTokens | ex3/Calculator2.c:77-144 | the spaced sample string has the tokens of the unspaced one |
| CalculatorTwo.BuiltInExpression | ex3/Calculator2.c:218-244 | the built-in string converts to `7 2 6 + * 15 3 / -` and the loop prints indices 0 through 8 |
| CharCalculator.Lift | ex3/Calculator.c:69-82 | a character's token is an operator, `'('`, `')'` or operand exactly when the character is |
| CharCalculator.LiftInjective | ex3/Calculator.c:69-82 | distinct bytes stand for distinct tokens |
| CharCalculator.Precedence | ex3/Calculator.c:53-67 | rank 0 exactly for non-operators, otherwise 1 to 3 |
| CharCalculator.PrecedenceAgrees | ex3/Calculator.c:53-67 | on operators the rank is the token calculator's |
| CharCalculator.OutranksAgree | ex3/Calculator.c:124 | `precedence(top) > precedence(c)` is the token calculator's strict popping test on the lifted tokens |
| CharCalculator.Evaluate | ex3/Calculator.c:16-32 | the value is the token calculator's `evaluate` of the same operands and operator, 0 for a non-operator |
| CharCalculator.PeekChar | ex3/Calculator.c:33-39 | the character returned is the top, and the stack ends as it began |
| CharCalculator.PopChar | ex3/Calculator.c:41-46 | the character returned was the top, and the stack loses exactly it |
| CharCalculator.PushChar | ex3/Calculator.c:48-51 | the character becomes the new top |
| CharCalculator.InfixToPostfix | ex3/Calculator.c:84-142 | the buffer up to the returned last index stands for `ToPostfix` of the lifted infix with the strict rule, holds only characters of the infix, and nothing past it is written |
| CharCalculator.ConsumeChar | ex3/Calculator.c:96-132 | one character of the main loop performs one `Step` on the lifted state |
| CharCalculator.PopToOpenParen | ex3/Calculator.c:108-115 | the `')'` loop performs `CloseParen` on the lifted state |
| CharCalculator.PopOutranked | ex3/Calculator.c:124-128 | the operator loop performs the strict `PopOutranking` on the lifted state |
| CharCalculator.PopIfOutranks | ex3/Calculator.c:124-127 | one test of the loop condition pops exactly when the top is not `'('` and outranks |
| CharCalculator.PopAll | ex3/Calculator.c:134-138 | the last loop writes the whole stack, top first |
| CharCalculator.MoveTop | ex3/Calculator.c:126 | the popped top is written at the next position |
| CharCalculator.Put | ex3/Calculator.c:101 | one write extends the written prefix and changes nothing past it |
| CharCalculator.Calculate | ex3/Calculator.c:144-176 | the outcome is `Result` of the first `postfixSize` lifted characters, none for a negative size |
| CharCalculator.ExecChar | ex3/Calculator.c:157-169 | one character performs the machine's step on its token, or reports the fault that stops it |
| CharCalculator.LiftSampleInfix | ex3/Calculator.c:181 | "7*(2+6)-5/3" stands for the tokens of `7 * ( 2 + 6 ) - 5 / 3` |
| CharCalculator.LiftSamplePostfix | ex3/Calculator.c:186-188 | "726+*53/-" stands for `7 2 6 + * 5 3 / -` |
| CharCalculator.CharSample | ex3/Calculator.c:181-188 | the built-in infix converts to "726+*53/-" |
| CharCalculator.CharSampleValue | ex3/Calculator.c:189 | the full postfix form evaluates to 55 |
| CharCalculator.CharSampleShort | ex3/Calculator.c:189 | without its last character the postfix form evaluates to 1 |
| CharCalculator.LiftSeqInjective | ex3/Calculator.c:69-82 | on bytes, two strings with the same tokens are the same string |
| CharCalculator.BuiltInAsWritten | ex3/Calculator.c:178-193 | `main` as written writes "726+*53/-", gets last index 8 and prints the value 1 |
| CharCalculator.BuiltInCorrected | ex3/Calculator.c:178-193 | `main` passing the size, last index + 1, writes "726+*53/-" and gets the value 55 |
| CompareSequences.Select | ex2/CompareSequences.c:95-127 | the nested comparisons pick a candidate that is at least every candidate, the maximum |
| CompareSequences.LiveRows | ex2/CompareSequences.c:22-28 | exactly the non-null row slots below the bound, in ascending order |
| CompareSequences.Cleanup | ex2/CompareSequences.c:14-30 | nothing for a null index; otherwise the non-null rows below `rows`, then the index |
| CompareSequences.ReleaseTable | ex2/CompareSequences.c:14-30 | on a table whose first rows are allocated, exactly the blocks in use are freed |
| CompareSequences.LiveRowsPrefix | ex2/CompareSequences.c:22-29 | when exactly the first rows are allocated, cleanup frees exactly the blocks in use |
| CompareSequences.AllocateTable | ex2/CompareSequences.c:153-171 | success exactly when the row index and every row are granted, with all flags cleared; on failure, with the slots of a fresh index taken as null, every block obtained is freed once |
| CompareSequences.InitializeTable | ex2/CompareSequences.c:45-58 | column 0 and row 0 hold the gap score times their index and are flagged; no other cell changes |
| CompareSequences.BorderedTableValid | ex2/CompareSequences.c:45-58 | a fresh table with its border initialised satisfies the table invariant |
| CompareSequences.CalculateValue | ex2/CompareSequences.c:60-129 | every cell up to the target is initialised with its optimal score, earlier cells keep their values, and no cell beyond the target changes |
| CompareSequences.Resolve | ex2/CompareSequences.c:82-128 | the target receives its optimal score and no other cell changes |
| CompareSequences.Store | ex2/CompareSequences.c:95-128 | writing the optimal score keeps the table invariant and changes no other cell |
| CompareSequences.AlignmentScore | ex2/CompareSequences.c:131-180 | a score exactly when all |s1| + 2 allocations succeed, equal to the optimal alignment score; every allocated block is freed once |
| CompareSequences.ReleaseAsWritten | ex2/CompareSequences.c:179 | with `str2Len + 1` rows, the last row of a table for a longer s1 is never freed |
| AlignmentProperties.NoAlignmentBeatsScore | ex2/CompareSequences.c:82-127 | no alignment of two prefixes is worth more than their table score |
| AlignmentProperties.OptimalAlignment | ex2/CompareSequences.c:82-127 | retracing the recurrence gives an alignment worth exactly the table score |
| AlignmentProperties.ScoreIsOptimal | ex2/CompareSequences.c:82-127 | the table score is the largest value an alignment reaches, and some alignment reaches it |
| AlignmentProperties.ScoreSymmetric | ex2/CompareSequences.c:60-129 | swapping the sequences transposes the table |
| AlignmentProperties.ScoreMonotoneInGap | ex2/CompareSequences.c:92-93 | a harsher gap penalty never raises a score |
| AlignmentProperties.ScoreUpperBound | ex2/CompareSequences.c:82-127 | no score beats pairing min(r, c) symbols as matches and the rest against gaps |
| AlignmentProperties.SelfAlignment | ex2/CompareSequences.c:82-93 | a sequence against itself scores one match per symbol |
| AlignmentProperties.SmallExamples | ex2/CompareSequences.c:60-129 | "AAAA" against itself scores 8 with scores (2, -1, -2); "" against "ACGT" scores -4 |
| AlignmentProperties.TextbookExample | ex2/CompareSequences.c:133-177 | "GCATGCU" against "GATTACA" with scores (1, -1, -1) scores 0 |

## Left out

- `ex1`, `stackUtils.c` and the headers: `stackUtils.c` repeats the token-stack wrappers of `calculatorUtils.c`, which are modelled once.
- `stack.h` is not part of this model. `Stacks.Stack` assumes a last-in first-out stack of values.
- Console input and printing are not modelled. This covers the `scanf` loops of both `main`s, `printTable`, `printInputs` and every `printf`. `Calculator.SampleRun` covers one line of input.
- The off-by-one at `ex3/calculator2.c:188` (`printInputs(inputs, inputsSize + 1)`) is not modelled, because it only prints.
- The back-pointer fields `prevCellRow`/`prevCellColumn` are written but never read, so they are not modelled.
- Integer width is not modelled. Every `int` is unbounded, so the 32-bit overflow of `value *= 10` on a long run of digits, and of `+ - *` and of the scores, is not captured. This applies to Calculator.StringToInputs, CalculatorTwo.StringToInputs, PostfixMachine.Evaluate and CompareSequences.CalculateValue.
- PostfixMachine.PowResult: `(int) pow(b, a)` is the exact integer power, or `1 / b^-a` truncated for a negative exponent. Double rounding and out-of-range conversion are not modelled.
- `strtol` and `atoi` on a one-character buffer are modelled as the digit's value `c - '0'`. The C calls read past the character, since `&c` is not a terminated string.
- Calculator.Calculate: the sticky `errno` is not modelled. A division by zero ends the run with `DivisionByZero`, where C returns 0 and leaves `errno` set. A later line of input would then also report division by zero; that is not modelled.
- Calculator.Calculate and CharCalculator.Calculate: a pop from an empty stack is reported as `StackUnderflow`. What `pop` does then is up to `stack.h`, which is not part of this model.
- CharCalculator.Calculate: the final `pop` after `freeStack` (`ex3/Calculator.c:172-174`) is a use after free. It is modelled as reading the top of the final stack.
- CharCalculator.Evaluate: requires a non-zero divisor, and no zero base with a negative exponent. C leaves both undefined at `ex3/Calculator.c:26` and `:28`. `CharCalculator.Calculate` checks both before calling and reports `DivisionByZero` or `Undefined`.
- The allocator bugs are not modelled: the leaks on the error paths, and the undersized `realloc(…, sizeof * loc + 1)` at `ex3/calculator2.c:118` and `ex3/Calculator2.c:164`. CalculatorTwo.StringToInputs and CalculatorTwo.InfixToPostfix treat every unchecked allocation as successful.
- The free of `inputs` and `postfixInputs` on the error paths of `ex3/calculator.c` `main` can free an uninitialised or NULL pointer. It is not modelled.
- CalculatorTwo.StringToInputs: requires every character of the string below 256, because a C string holds bytes.
- The buffers are sequences, so Calculator.StringToInputs and Calculator.InfixToPostfix return values rather than writing through a pointer argument. The NULL that `stringToInputs` stores for no tokens (`ex3/calculator.c:105`) is `None`.
- Calculator.InfixToPostfix: for an empty postfix form, `ex3/calculator.c:198-204` frees the buffer but still stores the freed pointer through `postfixPtr`, and `main` frees it again at `:316`. That is a dangling pointer and a double free, for example on the input ")". The model returns `None` and does not capture either.
- CompareSequences.AllocateTable: the row slots of the fresh index start null. In C the `malloc` of the row index (`ex2/CompareSequences.c:153`) leaves them uninitialised. So when a row `malloc` fails, `cleanup` (`:159-165`) reads and frees garbage pointers in the slots not yet written. That is not modelled.
- Out-of-memory is modelled only as the number of granted requests. The C functions return `-ENOMEM` without freeing what they hold; that leak is not modelled.
- The `malloc` of the postfix buffer in `ex3/Calculator.c` `main` is not checked in C. Here the buffer is a fresh array of `strlen + 1` characters.
- Several loop bodies and `while` loops are separate methods, such as `ConsumeToken`, `PopOutranked`, `ExecChar` and `PopIfOutranks`. They perform the same steps in the same order as the C code.

## Findings

| source | as written | input that shows it | evidently intended | confidence | as-written member | corrected member |
|---|---|---|---|---|---|---|
| ex3/Calculator.c:189 | `calculate(postfix, postfixLength)` is given the index of the last character, so the last token is never read | the built-in "7*(2+6)-5/3": postfix "726+*53/-", last index 8, value 1 | pass `postfixLength + 1`, the size, giving 7 * (2 + 6) - 5 / 3 = 55 | not executed | CharCalculator.BuiltInAsWritten | CharCalculator.BuiltInCorrected |
| ex3/calculator2.c:143 | an incoming operator pops only operators of strictly greater precedence, so equal precedences associate to the right | "8-3-2" converts to `8 3 2 - -` and evaluates to 7 | pop on greater or equal precedence, as `ex3/calculator.c:170` does, giving `8 3 - 2 -` = 3 | not executed | ConversionProperties.SubtractionChain | ConversionProperties.EqualRuleLeftAssociates |
| ex2/CompareSequences.c:179 | `cleanup(scoreTable, str2Len + 1)` releases as many rows as s2 has prefixes, not as the table has rows | s1 = "GCATGCU" and s2 = "GA": rows 3 to 7 are never freed (with a longer s2, row pointers past the index would be read) | `cleanup(scoreTable, str1Len + 1)` | not executed | CompareSequences.ReleaseAsWritten | CompareSequences.AlignmentScore |
