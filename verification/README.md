# scalc core in Dafny

scalc is a one-line-at-a-time calculator. Each input line is tokenized by
`parse` into a reused dynamic array of tokens, then evaluated by a Pratt
(precedence-climbing) parser, `expr_bp`, which computes the value while it
parses. Errors carry a column that points into the line. This project
models that core:

- `Tokens`: the token datatype and `parse`. `Lex` is the pure tokenizer.
  `Parse` is the C loop that appends into the buffer; it is proved to append
  exactly what `Lex` produces.
- `DynArray`: the `da.h` buffer (`da_reserve`, `da_append`, `da_last`) as
  items plus a capacity.
- `BindingPower`: `prefix_binding_power` and `infix_binding_power`.
- `Lexer`: the cursor `lexpeek`/`lexnext` over the buffer (`Peek`, `Next`).
- `Evaluator`: `do_op` (`DoOp`), `expr_bp` as two mutually recursive
  functions (`ExprBp` for the operand, `Loop` for the `while (1)` loop) and
  the top-level call (`Evaluate`).
- `EvaluatorFacts`: properties of the evaluator. These cover when the loop
  stops, which error each leading token causes, that `pow` is unreachable,
  that tokens before the cursor and after the stop point are never read, and
  that juxtaposition is multiplication.
- `Driver`: `expr` (parse, evaluate, reset the buffer) and the value of one
  line from an empty buffer (`EvalLine`).
- `Examples` and `LineExamples`: worked expressions. The token-level ones
  hold over any arithmetic. The line-level ones derive each line's tokens for
  any scanner that reads its literals, then use an integer arithmetic and a
  digit scanner for its value.
- `StrtodExamples`: a scanner that, like `strtod`, does not advance at a `.`
  that starts no number, and where that matters to the tokenizer.

The number type is a type parameter `V`. The arithmetic (`+ - * /`, `pow`,
negation) is a record of functions `Arith<V>`. `strtod` is a scanner
parameter `scan(s, j)` that returns a value and the end index of the
literal. `ScannerOk(scan, s, i)` states what the loop relies on, and only at
the indices where the loop actually calls `strtod`: the first non-space
after the previous token, when it is a digit or `.`. There the scanner must
consume at least one character, stay inside the line and consume no space.
Indices inside a literal carry no requirement. `strtod` itself does not
advance at the `.` of `3.`, and that does not matter because the loop never
scans there. `ScansEverywhere` is the simpler, stronger condition that the
scanner advances at every digit or `.` of the line; `EverywhereSuffices`
proves that it implies `ScannerOk`. Every error is a `Failure(kind, column)` returned through
a `Result`. The C program reports it with `longjmp` instead.

Behaviour the code has and the model keeps:

- `^` is tokenized as `(`, because the `case '^'` of the switch falls through
  into `case '('`. So `2^3)` is 6 and `2^3` is an unclosed parenthesis.
- A number token's column is the index just past its literal. An operator
  token's column is its own index.
- The end-of-input token is appended only when the scan reaches the end of
  the line. A line that ends in spaces returns early with no such token, and
  the cursor then reads past the end of the buffer.
- The appended end-of-input token has column 0. For `(2+3` the code
  therefore reports the missing `)` at column 0, not one past the end of the
  line as a plain reading of the error message suggests. `(2+3 ` reports
  column 4.
- Nothing checks that the whole line was consumed, so `2)3` is 2.

## Model

| member | source | states |
|---|---|---|
| DynArray.Reserve | src/da.h:21-36 | the items are unchanged; a buffer already large enough is returned as it is; otherwise the capacity becomes the first doubling of `DA_INIT_CAP` (or of the old capacity) that reaches the requested size, and never shrinks |
| DynArray.Append | src/da.h:38-42 | the items become the old items followed by `x`, the buffer stays valid (`len <= cap`), the capacity never shrinks, and `da_last` (src/da.h:53, modelled by `DynArray.Last`, which has no contract of its own) then designates `x` |
| Tokens.SkipSpaces | src/main.c:90-91 | the skip stops at the first non-space at or after `i` (or at the end of the line), and everything skipped is a space |
| Tokens.OpOf | src/main.c:102-125 | exactly the characters `+ - * / ^ ( )` have an operator code; each yields the code it spells, except `^`, which yields the left-parenthesis code, so no character yields the power code; none of them is a space or a literal start |
| Tokens.SpellingRoundTrip | src/main.c:102-122 | reading back an operator's character gives that operator, except the power operator's caret, which reads as a left parenthesis |
| Tokens.EverywhereSuffices | src/main.c:92-97 | a scanner that advances, within the line and over no space, at every digit or `.` meets the tokenizer's requirement from every index |
| Tokens.Lex | src/main.c:82-131 | tokenizing fails only with `BadChar`, at the index of a character that is not a space, a literal start or an operator |
| Tokens.LexSound | src/main.c:82-131 | every token comes from the line: the end-of-input token is only last and has column 0; an operator's column indexes its operator character; a number's column is the end of a literal scanned at or after the start |
| Tokens.LexSentinel | src/main.c:89-130 | the tokens end with the end-of-input token exactly when the line is empty or its last character is not a space |
| Tokens.LexComplete | src/main.c:123-124 | a line with no bad character always tokenizes |
| Tokens.SpaceIsSkipped | src/main.c:90-91 | a space followed by more of the line produces no token |
| Tokens.SpacesSkipped | src/main.c:89-91 | tokenizing from a run of spaces equals tokenizing from the first non-space after it |
| Tokens.TrailingSpaces | src/main.c:98-99 | spaces that run to the end of the line produce no token at all, not even the end-of-input token |
| Tokens.NumberToken | src/main.c:92-97 | a literal start yields one number token whose column is the end of the scanned literal, and scanning resumes there |
| Tokens.BadCharToken | src/main.c:123-124 | a character that is not a space, a literal start or an operator stops tokenizing with `BadChar` at its own index |
| Tokens.OperatorToken | src/main.c:101-128 | an operator character yields one operator token at its own index, and scanning resumes at the next character |
| Tokens.CaretIsLParen | src/main.c:115-119 | `^` yields a left-parenthesis token, through the fall-through into `case '('` |
| Tokens.NoPowToken | src/main.c:115-119 | no token of any line carries the power code |
| Tokens.SkipSpaceRun | src/main.c:90-91 | the `while` over spaces stops where `SkipSpaces` does |
| Tokens.ParseToken | src/main.c:89-129 | one round of the loop: at the end of the line the line has no more tokens; otherwise it yields the next token of `Lex` and a later index inside the line where the rest of `Lex` resumes, or fails with the error `Lex` reports |
| Tokens.Parse | src/main.c:82-131 | the loop appends exactly the tokens of `Lex` after what the buffer held, keeping the buffer valid and never shrinking its capacity; it fails exactly when `Lex` does, with the same error |
| BindingPower.InfixBp | src/main.c:145-161 | only `+ - * /` are infix; `+` and `-` share the powers (1, 2) and `*` and `/` share (3, 4), so operators of one level group from the left and `* /` bind tighter than `+ -` |
| BindingPower.PrefixBp | src/main.c:133-143 | only `+ -` are prefix, binding tighter than every infix operator on either side; any other operator is `BadOp` at the given column |
| Lexer.Peek | src/main.c:182-187 | the token at the cursor when it is inside the buffer, otherwise an end-of-input token with column 0 |
| Lexer.Next | src/main.c:189-197 | consuming returns the token `lexpeek` shows (end of input past the buffer) and always advances the position; the column changes only when a token of the buffer is read |
| Evaluator.DoOp | src/main.c:163-180 | the four arithmetic operators and `^` succeed; parentheses are `BadOp` at the given column; the arithmetic operators compute their reference meaning |
| Evaluator.ExprBp | src/main.c:199-274 | a parsed operand consumes at least one token and stops inside the buffer; its errors are never `BadChar` |
| Evaluator.Loop | src/main.c:234-270 | the loop either consumes nothing or moves forward within the buffer; its errors are never `BadChar` |
| Evaluator.Evaluate | src/main.c:288-290 | evaluating a token buffer fails only with the parser's errors `BadToken`, `BadOp` or `NoParen` |
| EvaluatorFacts.LoopStopsExactly | src/main.c:234-270 | the loop returns its left value with nothing consumed exactly when the next token is the end of input, has no infix role, or binds less tightly than the minimum power; otherwise it consumes |
| EvaluatorFacts.FirstTokenEof | src/main.c:227-228 | the end of input in operand position is `BadToken` at the sentinel's column, or at the last column read when past the buffer |
| EvaluatorFacts.LeadingNonPrefixOp | src/main.c:218-219 | an operator other than `+ - (` in operand position is `BadOp` at its own column |
| EvaluatorFacts.UnclosedParen | src/main.c:209-216 | after `(` and an inner expression, anything but `)` is `NoParen` at the column of that token, which is 0 for the appended sentinel |
| EvaluatorFacts.ExprBpIgnoresPow | src/main.c:174-175 | replacing the power function never changes the result of an operand, so `pow` is unreachable |
| EvaluatorFacts.LoopIgnoresPow | src/main.c:250-265 | replacing the power function never changes the result of the loop |
| EvaluatorFacts.ExprBpShift | src/main.c:199-233 | an operand parse reads only the tokens at and after the cursor: dropping earlier tokens gives the same result shifted by as many positions |
| EvaluatorFacts.ParenShift | src/main.c:209-216 | the same position independence for a parenthesised operand |
| EvaluatorFacts.PrefixShift | src/main.c:218-226 | the same position independence for a signed operand |
| EvaluatorFacts.LoopShift | src/main.c:234-270 | the same position independence for the loop |
| EvaluatorFacts.ExplicitOperator | src/main.c:257-266 | an admitted explicit operator is consumed, its right operand is parsed with the operator's right power, and the values are combined with the operator's arithmetic |
| EvaluatorFacts.ImplicitMultiplication | src/main.c:243-255 | a number or `(` in operator position is a multiplication with the powers of `*` whose right operand starts at that token, with no token consumed for the operator |
| EvaluatorFacts.JuxtapositionIsMultiplication | src/main.c:243-265 | inserting an explicit `*` before a number or `(` that follows a value changes only where the loop stops, by one token; when the minimum power excludes `*`, neither form absorbs anything |
| EvaluatorFacts.ContinueShift | src/main.c:263-266 | continuing after a right operand commutes with shifting cursor positions |
| EvaluatorFacts.ExprBpIgnoresLeftover | src/main.c:199-274 | tokens after the point where an operand parse stopped are never read: appending tokens leaves the result unchanged |
| EvaluatorFacts.LoopIgnoresLeftover | src/main.c:234-270 | the same for the loop |
| Driver.EvalLine | src/main.c:276-293 | a line's value is `BadChar` exactly when tokenizing fails, at the index of a bad character; for a line without bad characters every error is a parser error |
| Driver.Expr | src/main.c:276-293 | a line is rejected exactly when tokenizing fails, at the same column; otherwise it is evaluated from the start of the buffer, and the buffer is left empty with its capacity kept, so from an empty buffer the outcome is the line's own value |
| Driver.BlankLine | src/main.c:89-99 | an empty line yields only the end-of-input token, a line of spaces no token at all, and both are `BadToken` at column 0 |
| Examples.MulBeforeAdd | src/main.c:145-161 | `a+b*c` is `a + (b * c)` |
| Examples.ParensFirst | src/main.c:209-216 | `(a+b)*c` is `(a + b) * c` |
| Examples.SubtractionLeftAssociative | src/main.c:148-152 | `a-b-c` is `(a - b) - c` |
| Examples.MulDivLeftAssociative | src/main.c:153-157 | `a*b/c` is `(a * b) / c`, because `*` and `/` share a level |
| Examples.DoubleNegation | src/main.c:218-225 | `--a` is the negation of the negation of `a` |
| Examples.SignBeforeAdd | src/main.c:133-138 | `-a+b` is `(-a) + b` |
| Examples.SignBeforeMul | src/main.c:133-138 | `-a*b` is `(-a) * b`, because the sign binds tighter than `*` |
| Examples.NegatedParens | src/main.c:209-225 | `-(a+b)` is the negation of `a + b` |
| Examples.ImplicitMulParen | src/main.c:250-255 | `a(b+c)` is `a * (b + c)` |
| Examples.ImplicitMulNumbers | src/main.c:243-246 | `a b` is `a * b` |
| Examples.StrayParenEndsLine | src/main.c:269-273 | `a)b` is `a`: the loop stops at `)` and the rest is ignored |
| Examples.UnclosedParenAtSentinel | src/main.c:212-215 | `(a+b` with the appended sentinel is `NoParen` at column 0 |
| Examples.UnclosedParenPastEnd | src/main.c:212-215 | `(a+b` without a sentinel is `NoParen` at the column of the last number |
| Examples.LeadingStar | src/main.c:139-140 | `*a` is `BadOp` at column 0 |
| Examples.CaretMultiplies | src/main.c:115-119 | the tokens of `a^b)` evaluate to `a * b` |
| LineExamples.DigitScanOk | src/main.c:92-94 | the digit scanner advances, within the line and over no space, at every digit or `.` of every line (`ScansEverywhere`) |
| LineExamples.DigitScanFrom | src/main.c:92-97 | the digit scanner meets the tokenizer's requirement from every index of every line |
| LineExamples.NumAt | src/main.c:92-97 | a literal scanned from `i` to `e` in front of a line the tokenizer accepts from `e` is one number token with column `e` in front of the rest, and the tokenizer accepts the line from `i` |
| LineExamples.OpAt | src/main.c:101-128 | an operator character in front of a line the tokenizer accepts is one operator token at its own index in front of the rest |
| LineExamples.SpaceAt | src/main.c:90-91 | a space in front of a line the tokenizer accepts contributes no token |
| LineExamples.MulBeforeAddTokens | src/main.c:82-131 | with any scanner that reads the three literals of `2+3*4`, the line is those numbers and its two operators with their columns, then the end-of-input token |
| LineExamples.LexMulBeforeAdd | src/main.c:82-131 | `2+3*4` tokenizes to its three numbers and two operators with their columns, then the end-of-input token |
| LineExamples.LineMulBeforeAdd | src/main.c:276-293 | the line `2+3*4` is 14 |
| LineExamples.BadCharTokens | src/main.c:123-124 | with any scanner that reads the first literal of `2+@3`, tokenizing fails with `BadChar` at index 2 |
| LineExamples.LexBadChar | src/main.c:123-124 | tokenizing `2+@3` fails with `BadChar` at index 2, the `@` |
| LineExamples.LineBadChar | src/main.c:276-293 | the line `2+@3` is rejected with `BadChar` at index 2 |
| LineExamples.UnclosedParenTokens | src/main.c:82-131 | with any scanner that reads the two literals of `(2+3`, the line is its four tokens and the end-of-input token with column 0 |
| LineExamples.LexUnclosedParen | src/main.c:82-131 | `(2+3` tokenizes to its four tokens followed by the end-of-input token with column 0 |
| LineExamples.LineUnclosedParen | src/main.c:212-215 | the line `(2+3` is `NoParen` at column 0 |
| LineExamples.TrailingSpaceTokens | src/main.c:98-99 | with any scanner that reads the two literals of `(2+3 `, the line is its four tokens with no end-of-input token |
| LineExamples.LexTrailingSpace | src/main.c:98-99 | the line `(2+3 ` tokenizes without the end-of-input token |
| LineExamples.LineUnclosedParenTrailingSpace | src/main.c:212-215 | the line `(2+3 ` is `NoParen` at column 4 |
| LineExamples.JuxtapositionTokens | src/main.c:89-97 | with any scanner that reads the two literals of `2 3`, the line is two numbers and the end-of-input token |
| LineExamples.LexJuxtaposition | src/main.c:89-97 | `2 3` tokenizes to two numbers and the end-of-input token; the space yields nothing |
| LineExamples.LineJuxtaposition | src/main.c:243-246 | the line `2 3` is 6 |
| LineExamples.CaretTokens | src/main.c:115-119 | with any scanner that reads the two literals of `2^3)`, the caret is a left-parenthesis token at index 1 |
| LineExamples.LexCaret | src/main.c:115-119 | `2^3)` tokenizes with the caret as a left-parenthesis token at index 1 |
| LineExamples.LineCaret | src/main.c:115-119 | the line `2^3)` is 6 |
| StrtodExamples.TrailingDot | src/main.c:92-97 | with a scanner that, like `strtod`, does not advance at the `.` inside `3.`, the line `3.` still meets the requirement and is one number then the end-of-input token, although the stronger `ScansEverywhere` fails |
| StrtodExamples.LoneDot | src/main.c:92-97 | on a lone `.` that scanner does not advance, and the requirement is false |

## Left out

- The `exit`/`quit`/`q` check at the start of `parse`, `main`'s read loop, printing the value with `%g`, and the caret diagnostic `error` writes to stderr: these are I/O.
- `setjmp`/`longjmp`: errors are returned as values instead. After a `BadChar`, the jump target is stale and the C program's state is undefined, so `Driver.Expr` states only the error and its column for that case.
- Floating point: the value type and its arithmetic are parameters, so IEEE rounding, infinities, NaN and division by zero are not modelled. `pow` is a parameter too, and it is provably never called.
- `strtod`: it is the `scan` parameter, constrained by `ScannerOk` only where the loop calls it, so any scanner that agrees with `strtod` where literals start covers a line. `ScansEverywhere` is stronger than `strtod` at a `.` inside a literal such as `3.` or `1.+2`; it is only a sufficient condition.
- A `.` that starts no number, as in `.` or `1..`: `strtod` consumes nothing, and the C loop at src/main.c:92-97 appends a number token and scans the same index again forever. `ScannerOk` is false for such lines, so the model excludes them rather than modelling the endless loop.
- A `'\0'` inside a line: the line is a Dafny string, whose end is its length.
- `isdigit` on characters outside ASCII: `IsNumStart` accepts exactly `0`-`9` and `.`.
- Memory: `realloc` failure and `exit(2)`, `da_free` and `da_append_many` are not modelled; `da_append_many` is never called in the program.
- Integer widths: `usize` positions and `u8` binding powers are unbounded naturals. The line buffer of 1024 bytes keeps them far from overflow.
- Recursion depth: deeply nested input that overflows the C stack is not modelled.
