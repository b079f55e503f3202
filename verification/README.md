# Regular expression front end: concatenation insertion and postfix conversion

This project models the front half of a regex-to-NFA converter for regular
expressions over literal characters with alternation `|`, Kleene star `*` and
grouping `(` `)`. Two string transformations are modelled, in the form the
source writes them (loops over explicit buffers), each proved against a pure
specification whose properties are proved as lemmas:

1. **Concatenation insertion** (`Concatenation`). Adjacent characters are
   scanned pairwise. An explicit `.` is written after `regex[i]` exactly when
   `regex[i]` is not `(` or `|` and `regex[i+1]` is not `)`, `|` or `*`. The
   last character is copied through. `WithDots` is the specification,
   `AddConcatenationOperator` the loop. `Stripped` is an independent inverse,
   and `WithDotsAt` characterises the output character by character.
2. **Postfix conversion** (`PostfixConverter`). This is a shunting-yard parse
   with precedence `*` = 3 (right-associative), `.` = 2 and `|` = 1 (both
   left-associative), an operator stack and an output list.
   `ConvertPostfixExpr` is the method with its nested loops. `Step`, `Run`
   and `Drain` specify one token, the whole scan and the final drain.
   `Inv` is the scan invariant: the stack holds only `(` and operators, in
   precedence order, with one `(` per open group. The output holds no
   parenthesis. Output and stack together hold exactly the consumed
   non-parenthesis tokens, with the operands in input order.
3. **The converter object** (`Converter.RegexToNFAConverter`). Its two
   constant fields hold the annotated expression and its postfix form, and
   `Valid` states that the second is the conversion of the first. `Create`
   composes the two transformations, as the object's initialiser does.

`Tokens` holds the alphabet, the precedence table, the failure outcomes and
the measures the contracts use: parenthesis depth, the operand subsequence and
the non-parenthesis part. `Examples` derives the inserter's output for each of
the five self-test inputs, the postfix form of each of their five annotated
forms, and the annotation of the expression the entry point converts, plus a
few further inputs that exercise precedence and both failures.

Behaviour of the source worth noting:

- On an empty string the inserter fails: copying the last character
  (cf-RE2NFA.py:25) indexes an empty string. `AddConcatenationOperator`
  therefore requires a non-empty input, and `Create` returns `Err(EmptyRegex)`
  for `""`.
- The inserter is not idempotent on input that already holds `.`, because
  `.` is in neither skip set of cf-RE2NFA.py:20: `"a.b"` becomes `"a...b"`
  (`Examples.InserterExamples`).
- The drain loop (cf-RE2NFA.py:55-59) tests for both `(` and `)`, but a `)` is
  never pushed, so only a leftover `(` can trigger it (`ScanStateShape`).

Errors are results, not exceptions: `Result<T>` is `Ok(value)` or
`Err(EmptyRegex | MissingOpenParen | UnmatchedParen)`.

## Model

| member | source | states |
|---|---|---|
| Concatenation.AddConcatenationOperator | cf-RE2NFA.py:16-25 | For a non-empty input, the result is the input with one `.` after each position whose pair passes the test. Its length is the input length plus the number of such positions. Removing the inserted dots gives back the input. |
| Concatenation.WithDotsLength | cf-RE2NFA.py:18-25 | Output length = input length + number of positions i < n-1 with `regex[i]` not in `( \|` and `regex[i+1]` not in `) \| *`. |
| Concatenation.WithDotsEnds | cf-RE2NFA.py:25 | The first and the last input characters are the first and last output characters. The last one is copied unchanged. |
| Concatenation.WithDotsAt | cf-RE2NFA.py:18-23 | Input character i lands at output index i + (dots inserted before it). The next output character is `.` exactly when the pair test holds for (i, i+1). Otherwise it is input character i+1. |
| Concatenation.StrippedWithDots | cf-RE2NFA.py:18-25 | Round trip: the independent inverse `Stripped` recovers the input from the output, for every non-empty input, including inputs that already contain `.`. |
| Concatenation.WithDotsAppend | cf-RE2NFA.py:18-25 | Annotation is compositional: annotating `a + b` annotates `a` and `b` apart, with a `.` at the seam exactly when the pair across it passes the test. |
| Concatenation.WithDotsCounts | cf-RE2NFA.py:20-23 | Only `.` is inserted: every other character occurs equally often in input and output. |
| Concatenation.WithDotsKeepsDepth | cf-RE2NFA.py:20-23 | The output's count of `(` minus `)` equals the input's. |
| Concatenation.WithDotsKeepsDepthsOk | cf-RE2NFA.py:20-23 | A prefix of the output closes more groups than are open iff the same holds for a prefix of the input. |
| Concatenation.WithDotsKeepsOperands | cf-RE2NFA.py:20-23 | The operands of the output are those of the input, in the same order. |
| PostfixConverter.ConvertPostfixExpr | cf-RE2NFA.py:27-62 | The loop computes `Postfix(infix)`. It succeeds iff the parentheses are balanced. It fails with MissingOpenParen iff some `)` has no open group, and with UnmatchedParen iff every `)` closes a group but some `(` stays open. On success the output has no parenthesis, is a permutation of the input's non-parenthesis tokens, and keeps the operands in input order. |
| PostfixConverter.PostfixCorrect | cf-RE2NFA.py:27-62 | The same success, error and output properties, stated for the specification `Postfix` for all inputs. |
| PostfixConverter.RunFails | cf-RE2NFA.py:33-53 | Scanning from a state that satisfies the invariant fails, only with MissingOpenParen, exactly when some prefix closes more groups than are open. |
| PostfixConverter.RunKeepsInv | cf-RE2NFA.py:33-53 | A scan that succeeds from a state satisfying the invariant ends in a state that satisfies the invariant for all tokens consumed. |
| PostfixConverter.RunSplits | cf-RE2NFA.py:33-53 | Scanning `a + b` is scanning `a` and then, unless that failed, scanning `b` from the state `a` left behind. |
| PostfixConverter.StepKeepsInv | cf-RE2NFA.py:34-53 | One token keeps the invariant. It fails exactly when it is a `)` with no open group. |
| PostfixConverter.OpenKeepsInv | cf-RE2NFA.py:34-35 | Pushing `(` keeps the invariant and opens one group. |
| PostfixConverter.CloseKeepsInv | cf-RE2NFA.py:36-42 | `)` succeeds iff a group is open, and then keeps the invariant. |
| PostfixConverter.OperatorKeepsInv | cf-RE2NFA.py:43-50 | Popping what yields and then pushing an operator keeps the invariant. |
| PostfixConverter.OperandKeepsInv | cf-RE2NFA.py:51-53 | An operand appended to the output keeps the invariant. |
| PostfixConverter.PushKeepsOrdered | cf-RE2NFA.py:45-50 | The operator pushed after the pop loop keeps the stack in precedence order. Each entry binds strictly tighter than the one below it, except `*` on `*`. |
| PostfixConverter.PopYieldingPops | cf-RE2NFA.py:45-49 | The operator loop pops a top segment of the stack onto the output, top first. What stays on the stack is a prefix of what was there. |
| PostfixConverter.PopYieldingStops | cf-RE2NFA.py:45-49 | Every popped entry is an operator that yields to the incoming one (at least its precedence if left-associative, strictly above it if right-associative). The entry left on top is `(` or does not yield. |
| PostfixConverter.PopToOpenPops | cf-RE2NFA.py:38-39 | The `)` loop pops a top segment of the stack onto the output, top first. What stays on the stack is a prefix of what was there. |
| PostfixConverter.PopToOpenStops | cf-RE2NFA.py:38-39 | No popped entry is `(`, and the loop stops at `(` or at an empty stack: it pops exactly the entries above the topmost `(`. |
| PostfixConverter.StarPopsNothing | cf-RE2NFA.py:45-49 | An incoming `*` never pops anything. |
| PostfixConverter.DrainSpec | cf-RE2NFA.py:55-59 | The drain fails, only with UnmatchedParen, exactly when a group is still open. Otherwise its output has no parenthesis and holds all consumed non-parenthesis tokens, with the operands in order. |
| PostfixConverter.ScanStateShape | cf-RE2NFA.py:33-53 | Every state the scan reaches has a stack of only `(` and operators, never `)`, in precedence order, and an output with no parenthesis. |
| Converter.RegexToNFAConverter.Create | cf-RE2NFA.py:9-14 | Building the object fails with EmptyRegex on `""`, with MissingOpenParen or UnmatchedParen under the same conditions as the raw input's parentheses, and otherwise succeeds. On success the object is `Valid`: its fields hold the annotated expression and its postfix form, and the postfix form keeps the raw operands in order. |
| Examples.InserterExamples | cf-RE2NFA.py:68-70 | `ab` → `a.b`, `a*b` → `a*.b`, and `a.b` → `a...b`. |
| Examples.InserterGroupExample | cf-RE2NFA.py:68-70 | `a(b\|c)` → `a.(b\|c)`. |
| Examples.InserterStarGroupExample | cf-RE2NFA.py:68-70 | `(a\|b)*abb` → `(a\|b)*.a.b.b`. |
| Examples.InserterNestedExample | cf-RE2NFA.py:68-70 | `a(b)c` → `a.(b).c`. |
| Examples.InserterAlternationExample | cf-RE2NFA.py:83 | `aa*\|bb*` → `a.a*\|b.b*`. |
| Examples.ConcatenationExample | cf-RE2NFA.py:43-53 | `a.b` → `ab.`. |
| Examples.GroupingExample | cf-RE2NFA.py:33-59 | `a.(b\|c)` → `abc\|.`. |
| Examples.PrecedenceExample | cf-RE2NFA.py:43-50 | `a.b\|c` → `ab.c\|`. |
| Examples.GroupedPrecedenceExample | cf-RE2NFA.py:33-59 | `(a.b)\|c` → `ab.c\|`, the same as without the parentheses. |
| Examples.StarExample | cf-RE2NFA.py:43-59 | `a.a*\|b.b*` → `aa*.bb*.\|`. |
| Examples.StarGroupExample | cf-RE2NFA.py:73-77 | `(a\|b)*.a.b.b` → `ab\|*a.b.b.`. |
| Examples.StarConcatenationExample | cf-RE2NFA.py:73-77 | `a*.b` → `a*b.`. |
| Examples.NestedExample | cf-RE2NFA.py:73-77 | `a.(b).c` → `ab.c.`. |
| Examples.MissingOpenExample | cf-RE2NFA.py:38-41 | `a)` fails with MissingOpenParen. |
| Examples.UnmatchedExample | cf-RE2NFA.py:55-58 | `(a` fails with UnmatchedParen. |

## Left out

- The self-test method (cf-RE2NFA.py:65-77) and the command-line entry block (cf-RE2NFA.py:82-84) are left out. They only print and assert nothing. The outputs they print for their inputs are derived in `Examples`.
- The Thompson NFA construction and the NFA store are not part of this model. The file holding the two transformations contains no such code.
- The exception messages and exception types are left out. Each failure is a `ConvertError` value instead.
- Python's `IndexError` on an empty inserter input is a precondition of `AddConcatenationOperator`. It is a failure value only in `Create`.
- A token is modelled as a Dafny `char`, a Unicode scalar value. A Python string may also hold a lone surrogate code point, which has no `char` counterpart; such a character would only ever be an operand. No normalisation or encoding is involved.
