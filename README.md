# fsnail, modelled in Dafny

fsnail is a small stack-machine language. Its interpreter, `fsnail.c`, works in three phases:

- It reads a source file as a stream of white-space separated tokens. Quoted strings are kept whole.
- It drops comment regions between the markers `-->` and `<--` and appends a `halt`.
- It checks that the conditionals (`ifeq`, `ifdif`, `ifgr`, `iflw`, `iftrue`, `iffalse`) are balanced against `endif`s. Then it runs the tokens one by one against a value stack and a variable list.

This project models those three phases and proves properties of them. Each part of the C code is modelled twice:

- **specification functions** on values (`seq`, `Option`);
- **imperative Dafny** that follows the C code: the stack and the variable list as objects updated in place, and the C loops as `while` loops over arrays.

Every method is proved equal to its specification function. The properties themselves are lemmas about the functions.

Modules, one per file:

- `CNum`: C number semantics on `real` values.
  - The truncating float-to-int cast `Trunc`.
  - C's `%` (`CRem`).
  - 32-bit two's-complement bitwise operators.
  - The `ctype` classes.
- `Stack`: the value stack (`push`, `pop`, `dup`, `clear`, `swap` and every operator on the top), as functions and as the class `ValueStack`.
- `Vars`: the variable list (`var`, `store`, `load`, `del`), as functions and as the class `VarStore`.
- `Tokens`: tokens, the conditional openers and `endif`, and the nesting balance `Net` of a run of tokens.
- `Control`: `next_valid_instruction`, `jump`, and the four stack comparisons.
- `Literals`: `real_number`, `atof` on the strings it accepts, and `prepare_string`.
- `Lexer`: `sfscanf` (the tokenizer) and the two passes of `main` over the file: counting, then copying with comment removal. The file is the class `Reader`.
- `Validator`: `initial_debug`.
- `Interpreter`: the dispatch loop of `main`.
  - `Step` gives one round.
  - `Exec` gives a run of at most `fuel` rounds.
  - `Interpretation` gives the whole of `main` after the file is opened.
  - `Run` and `Interpret` are the same loop over the two objects.

Inputs from outside the program are a parameter `Env`. It gives, for each step:

- the number typed at `in`;
- the key read by `inchar`;
- the value `rand()` returns;
- the results of the math library functions.

The model follows what the code does. Some of that is easy to miss:

- **Unterminated comment.** When a `-->` is never closed by `<--`, `sfscanf` ends up returning `EOF` (-1). That value is true in the copy loop's condition, and nothing clears the comment flag, so the loop never ends. The model's loader answers `Hangs` (`Lexer.UnclosedCommentNeverEnds`, `Lexer.LoadIsUncommented`).
- **Unbalanced conditional.** The backward pass of `initial_debug` never looks at index 0. So an unmatched opener in the first token is reported, but the program is accepted (`Validator.UnmatchedFirstOpenerAccepted`). The same blind spot makes the `endif` of a block opened by the first token look unmatched (`Validator.LeadingBlockEndifReported`). The backward pass also reads the slot one past the last token; see `Lexer.Materialize` under "Left out".
- **Line numbers.** A newline that ends an unquoted token stays in `carriage`. Every later call of `sfscanf` counts it again, until an unquoted token gains a second character. So a one-character or quoted token at the start of a line gives the token after it a line number one too high (`Lexer.NewlineCountedTwice`, and `Lexer.NewlineClearedBySecondCharacter` for the contrast).
- **`toint`.** The list of operations at the head of fsnail.c (line 22) says it rounds down. The cast truncates toward zero, so a negative value is rounded up (`CNum.Trunc`).
- **`ifgr` and `iflw`.** The same list (lines 45-46) says they compare the top against the second element. The code (fsnail.c:485, 496) compares the second element against the top (`Control.Compare`, `Control.GreaterTestsSecondOverTop`).
- **`vclear`.** The same list (line 74) says it clears the variables. The code clears the value stack (fsnail.c:1393-1394), so it is modelled as `clear`.

## Model

| member | source | states |
|---|---|---|
| CNum.Trunc | fsnail.c:283-294 | the C cast truncates toward zero: the result is within 1 of the value, on the value's side of zero |
| CNum.CRem | fsnail.c:261-281 | C `%`: `a == b * q + r` with the quotient truncated toward zero, the remainder smaller than the divisor in size and with the dividend's sign |
| CNum.FromBits | fsnail.c:322-425 | reading 32 bits back as a C `int` gives a value in the 32-bit range |
| CNum.BitNotTwice | fsnail.c:382-395 | complementing twice gives back the value reduced to 32 bits |
| CNum.BitXorSelf | fsnail.c:362-380 | xor of a value with itself is 0 |
| CNum.Wrap | fsnail.c:397-425 | a 32-bit `int` holds the value in its range that is congruent to the stored one modulo 2^32 |
| CNum.ShiftLeftDoubles | fsnail.c:397-409 | `<< 1` doubles every value whose double fits in an `int` |
| CNum.ShiftLeftWraps | fsnail.c:397-409 | `<< 1` of 2^30 wraps to the most negative `int` |
| CNum.ShiftRightHalves | fsnail.c:411-423 | `>> 1` halves every `int`, rounding toward minus infinity |
| Stack.Binary | fsnail.c:195-281 | a binary operator refuses exactly on fewer than two elements or a refused divisor; otherwise it replaces the two top values by one and leaves the rest |
| Stack.Unary | fsnail.c:283-425 | an operator on the top refuses exactly when the stack is shallower than it needs; otherwise it replaces the top by the operator applied to it and leaves the rest |
| Stack.PushThenPop | fsnail.c:124-159 | `pop` after `push` gives back the stack |
| Stack.DupThenPop | fsnail.c:161-173 | `dup` refuses exactly on the empty stack, and `pop` undoes it |
| Stack.BinaryAfterPushes | fsnail.c:195-241 | pushing `a` then `b` then applying an accepted operator leaves the stack with `a op b` on top |
| Stack.DivideByZeroRefused | fsnail.c:243-281 | `div` and `rem` with a zero top refuse and change nothing |
| Stack.RemainderBounds | fsnail.c:261-281 | `rem` answers an integral value smaller in size than the truncated divisor |
| Stack.SwapTwice | fsnail.c:179-193 | `swap` twice gives the two top values truncated: it undoes itself only on integral values |
| Stack.TruncOfInt | fsnail.c:283-294 | `toint` leaves an integral value unchanged |
| Stack.ShiftsOnTop | fsnail.c:283-425 | on a stack of two or more, `toint` truncates the top toward zero, `lshift` doubles it and `rshift` halves it rounding down, when the values fit in an `int` |
| Stack.NotTwice | fsnail.c:382-395 | `not` twice gives the truncated top reduced to 32 bits |
| Stack.IncThenDec | fsnail.c:296-312 | `dec` after `inc` gives back the stack |
| Stack.AbsIsMagnitude | fsnail.c:686-695 | `abs` leaves a non-negative top of the same size |
| Stack.CeilIsLeastIntegerAbove | fsnail.c:749-759 | `ceil` gives the least integer not below the top |
| Stack.ValueStack.constructor | fsnail.c:958 | the stack starts empty |
| Stack.ValueStack.Push | fsnail.c:124-140 | the value is appended on top |
| Stack.ValueStack.Pop | fsnail.c:142-159 | fails on the empty stack, otherwise removes the top |
| Stack.ValueStack.Dup | fsnail.c:161-173 | fails on the empty stack, otherwise pushes a copy of the top |
| Stack.ValueStack.Clear | fsnail.c:175-177 | pops until the stack is empty |
| Stack.ValueStack.Swap | fsnail.c:179-193 | fails on fewer than two elements, otherwise exchanges the two top values as ints |
| Stack.ValueStack.Apply2 | fsnail.c:195-281 | a binary operator on the object agrees with `Binary`, and a refusal changes nothing |
| Stack.ValueStack.Apply1 | fsnail.c:283-425 | an operator on the top agrees with `Unary`, and a refusal changes nothing |
| Vars.FindFrom | fsnail.c:628-641 | the search answers the first entry with the name from a position on, or -1 exactly when there is none |
| Vars.Stored | fsnail.c:628-641 | `store` fails exactly when the name is missing; otherwise only the first entry with the name changes |
| Vars.Loaded | fsnail.c:643-655 | `load` fails exactly when the name is missing |
| Vars.Deleted | fsnail.c:657-678 | `del` fails exactly when the name is missing; otherwise one entry goes |
| Vars.LoadAfterDeclare | fsnail.c:1323-1328 | a newly declared name is found at the end of the list and loads 0 |
| Vars.RedeclareIsShadowed | fsnail.c:124-140 | declaring a name already in use changes nothing `load` or `store` can see, since the older entry is found first |
| Vars.LoadAfterStore | fsnail.c:628-655 | `load` after `store` of `v` gives `v` |
| Vars.StoreLeavesOthers | fsnail.c:628-641 | `store` into one name leaves what every other name loads |
| Vars.DeleteRemovesFirst | fsnail.c:657-678 | `del` removes exactly the first entry with the name and keeps the order of the rest; a later entry with the name becomes visible |
| Vars.VarStore.constructor | fsnail.c:959 | the variable list starts empty |
| Vars.VarStore.Declare | fsnail.c:1323-1328 | `var name` appends an entry with value 0 |
| Vars.VarStore.Locate | fsnail.c:628-641 | the loop finds the first entry with the name, or -1 |
| Vars.VarStore.Store | fsnail.c:628-641 | agrees with `Stored` applied to the top of the stack, and fails exactly when the name is missing |
| Vars.VarStore.Load | fsnail.c:643-655 | agrees with `Loaded`, pushing the value |
| Vars.VarStore.Delete | fsnail.c:657-678 | agrees with `Deleted` |
| Control.NextValidFrom | fsnail.c:435-453 | the scan answers 0 or an `endif` at or after its start |
| Control.NextValidScan | fsnail.c:435-453 | with the counter tracking the nesting balance, the scan answers the first `endif` that closes the block, or 0 when none does |
| Control.NextValidAtOpener | fsnail.c:435-453 | called at an opener, it answers the first `endif` closing that opener, skipping nested blocks whole, or 0 |
| Control.NextValidInstruction | fsnail.c:435-453 | the C loop computes `NextValidFrom` |
| Control.LabelFrom | fsnail.c:610-622 | answers the position after the first `label name` pair that lies within the program, or -1 exactly when there is none |
| Control.Jump | fsnail.c:610-622 | the C loop computes `LabelFrom` from 0 |
| Control.Compare | fsnail.c:455-498 | -1 exactly on fewer than two elements; otherwise 1 exactly when the relation holds between the second element and the top |
| Control.DifIsNotEq | fsnail.c:455-476 | `ifdif` holds exactly when `ifeq` does not |
| Control.Trichotomy | fsnail.c:455-498 | exactly one of `ifeq`, `ifgr`, `iflw` holds |
| Control.GreaterTestsSecondOverTop | fsnail.c:478-487 | `ifgr` compares the second element against the top, not the other way round |
| Literals.RealNumber | fsnail.c:892-898 | accepts exactly the strings with no letter and no punctuation other than '.' and '-' |
| Literals.RefusedLiterals | fsnail.c:892-898 | an exponent and a leading '+' are refused |
| Literals.AtofOfIntText | fsnail.c:1015-1028 | every integer written in decimal passes the check and `push` converts it back to itself |
| Literals.AtofSkipsSpace | fsnail.c:1015-1028 | `real_number` lets white space through, and `atof` reads past white space in front of a number, so padding changes nothing |
| Literals.AtofOfPaddedFive | fsnail.c:1015-1028 | ` 5`, as an uninitialised slot may hold, passes the check and converts to 5 |
| Literals.AtofOfFraction | fsnail.c:1015-1028 | `2.5` converts to 2.5 |
| Literals.AtofOfBareFraction | fsnail.c:1015-1028 | `-.5` converts to -0.5 |
| Literals.AtofOfPrefix | fsnail.c:1015-1028 | `1-2` passes the check and converts to 1: only the longest number prefix counts |
| Literals.AtofOfLoneSign | fsnail.c:1015-1028 | a lone `-` passes the check and converts to 0 |
| Literals.Inner | fsnail.c:529-536 | `temp` gets `l - 2` characters, the ones after the first, or none when `l < 2` |
| Literals.UnquoteQuoted | fsnail.c:1152-1167 | a quoted text counts as quoted and prints as the text between the quotes |
| Literals.LoneQuotePrintsNothing | fsnail.c:1152-1167 | a lone `"` counts as quoted and prints nothing |
| Literals.PrepareString | fsnail.c:529-536 | the array holds `Inner(s, l)` then a NUL, and nothing after it changes |
| Lexer.SkipSpace | fsnail.c:839-889 | skips exactly the run of white space and never lowers the line counter |
| Lexer.ReadRest | fsnail.c:839-889 | extends the token without exceeding `l - 1` characters; an unquoted token gains no white space |
| Lexer.ScanSpec | fsnail.c:839-889 | refuses exactly when `l <= 0`; EOF exactly when only white space is left; otherwise a token of 1 to `l - 1` characters, free of white space unless quoted |
| Lexer.SkipIgnoresLine | fsnail.c:839-889 | where the skip stops does not depend on the line counter |
| Lexer.RestIgnoresCarriage | fsnail.c:839-889 | the token read does not depend on the carriage passed in |
| Lexer.ScanIgnoresCounters | fsnail.c:839-889 | the token text and the position do not depend on the line or carriage counters |
| Lexer.QuotedToken | fsnail.c:839-889 | a quoted text that fits the buffer is one token, quotes included, whatever spaces it holds |
| Lexer.WordToken | fsnail.c:839-889 | an unquoted word that fits the buffer is one token |
| Lexer.NewlineCountedTwice | fsnail.c:839-889 | in `x\ny z` the token `z` gets line 3: the one-character `y` leaves the newline in `carriage`, and it is counted again |
| Lexer.NewlineClearedBySecondCharacter | fsnail.c:839-889 | in `x\nyy z` the token `z` stays on line 2: the second character of `yy` clears `carriage` |
| Lexer.LongTokenIsCut | fsnail.c:839-889 | a token longer than the buffer is cut at `l - 1` characters, and the next character is lost |
| Lexer.CountIsStreamLength | fsnail.c:980-981 | the counting pass counts exactly the tokens of the stream |
| Lexer.CopyFrom | fsnail.c:988-1004 | the copy pass only appends, and never more than `elements` tokens |
| Lexer.Uncommented | fsnail.c:988-1004 | the tokens kept contain no comment marker |
| Lexer.CopyIsUncommented | fsnail.c:988-1004 | the copy pass keeps exactly the tokens outside comment regions, and hangs exactly when a comment is never closed |
| Lexer.NoMarkersKeepsAll | fsnail.c:988-1004 | without markers every token is kept |
| Lexer.UnclosedCommentNeverEnds | fsnail.c:988-1004 | a `-->` with no `<--` after it makes the copy pass never end |
| Lexer.StaysInComment | fsnail.c:988-1004 | once inside a comment with no `<--` ahead, the copy never completes |
| Lexer.Materialize | fsnail.c:1007 | the array holds the kept tokens, then `halt`, in `elements + 1` slots |
| Lexer.LoadIsUncommented | fsnail.c:979-1007 | loading hangs exactly on an unclosed comment; otherwise the array has one slot per token counted, then the uncommented tokens, then `halt` |
| Lexer.NoCommentsLoadsAll | fsnail.c:979-1007 | a program without markers is loaded whole, with `halt` one past its last token |
| Lexer.Reader.constructor | fsnail.c:971 | the file opens at its start |
| Lexer.Reader.Rewind | fsnail.c:985 | the file goes back to its start |
| Lexer.Reader.SkipWhiteSpace | fsnail.c:850-854 | the C loop computes `SkipSpace` |
| Lexer.Reader.ReadToken | fsnail.c:862-886 | the C loop computes `ReadRest` |
| Lexer.Reader.Scan | fsnail.c:839-889 | `sfscanf` computes `ScanSpec`: its return value, buffer, line and carriage |
| Lexer.CountTokens | fsnail.c:980-981 | the counting loop counts `Count`'s tokens and leaves its carriage |
| Lexer.CopyTokens | fsnail.c:988-1004 | the copy loop writes exactly `CopyFrom`'s tokens, or never ends exactly when `CopyFrom` hangs |
| Lexer.LoadProgram | fsnail.c:979-1007 | the loader computes `LoadSpec` |
| Validator.Tick | fsnail.c:905-922 | a step of a pass fails only when it must write below the bottom of its array, and keeps the counter and the array consistent |
| Validator.Forward | fsnail.c:905-912 | the forward counter never exceeds the number of tokens read |
| Validator.Backward | fsnail.c:914-922 | the backward counter never exceeds the number of slots read |
| Validator.ForwardTracksDepth | fsnail.c:905-912 | the forward counter is the nesting depth as long as no prefix closes more blocks than it opens, and negative for ever after |
| Validator.BackwardTracksDepth | fsnail.c:914-922 | the backward counter is the number of unmatched `endif`s as long as no suffix opens more blocks than it closes, and negative after |
| Validator.Verdict | fsnail.c:900-934 | accepted exactly when no prefix closes more than it opens and no suffix of slots 1..elements opens more than it closes; then as many openers and `endif`s are reported as stay unmatched |
| Validator.NestedForwardDefined | fsnail.c:905-912 | on balanced prefixes the forward pass never writes below its array |
| Validator.NestedBackwardDefined | fsnail.c:914-922 | on balanced suffixes the backward pass never writes below its array |
| Validator.WellNestedAccepted | fsnail.c:900-934 | a well-nested program (no opener first, no marker after the end) is accepted with no message |
| Validator.EarlyEndifRejected | fsnail.c:900-934 | an `endif` before its opener rejects the program |
| Validator.UnmatchedFirstOpenerAccepted | fsnail.c:914-934 | an unmatched opener in the first token is reported but accepted |
| Validator.LeadingBlockEndifReported | fsnail.c:914-934 | the `endif` of a block opened by the first token is reported as unmatched |
| Validator.UnmatchedLaterOpenerRejected | fsnail.c:914-934 | an unmatched opener after the first token rejects the program |
| Validator.ForwardPass | fsnail.c:904-912 | the forward loop leaves the counter and the lines `Forward` gives |
| Validator.BackwardPass | fsnail.c:913-922 | the backward loop leaves the counter and the lines `Backward` gives |
| Validator.OpenerLines | fsnail.c:924-926 | the open conditionals are reported bottom to top, as the forward pass stacked them |
| Validator.EndifLines | fsnail.c:928-930 | the unmatched `endif`s are reported in the reverse of the order the backward pass stacked them |
| Validator.InitialDebug | fsnail.c:900-934 | `initial_debug` computes `Validate` |
| Interpreter.Arg | fsnail.c:1015-1028 | an instruction has an argument exactly when a token follows it within the program |
| Interpreter.OrFail | fsnail.c:1030-1151 | a refused stack operation fails with its code, otherwise carries on with the new stack |
| Interpreter.StackStep | fsnail.c:1030-1151 | the stack operations fail only with 4 or 5, move to the next token and leave the variables; `clear` and `vclear` empty the stack |
| Interpreter.RandomIn | fsnail.c:815-822 | `randint n` pushes a value between 1 and the size of `n` |
| Interpreter.LiteralStep | fsnail.c:1015-1028 | `push`/`randint` fail with 3 exactly on a non-numeric argument, `print`/`printnl` with 6 exactly on an unquoted one; otherwise skip the argument, `push` pushing its value |
| Interpreter.ConsoleStep | fsnail.c:1186-1218 | `out`, `outint`, `outchar` fail with 5 exactly on an empty stack; only `in` and `inchar` change the stack |
| Interpreter.VarStep | fsnail.c:1323-1379 | fails with 7 only when the name is missing, and `pstore` with 4 on an empty stack; `var` without an argument moves one token, the rest two |
| Interpreter.FlowStep | fsnail.c:1219-1321 | conditionals fail with 5, `goto` with 6, an unknown token with 8; `halt` stops; nothing changes the stack |
| Interpreter.Step | fsnail.c:1013-1483 | a round fails only with codes 3 to 8, stops exactly at `halt`, moves one or two tokens on unless it is a conditional or `goto`, and only variable instructions change the variables |
| Interpreter.Exec | fsnail.c:1013-1483 | a run fails only with codes 3 to 8 |
| Interpreter.ExitCode | fsnail.c:1013-1485 | there is an exit code exactly when the run finishes or fails |
| Interpreter.Interpretation | fsnail.c:979-1485 | exit code 9 exactly when the program loads and the validator rejects it; other failures are 3 to 8 |
| Interpreter.ExecNext | fsnail.c:1013 | a round that carries on continues the run from the index it reaches |
| Interpreter.ExecLast | fsnail.c:1477-1482 | a round that stops or fails ends the run with that result |
| Interpreter.ExecUndefined | fsnail.c:1013-1483 | an instruction without a defined meaning ends the model's run |
| Interpreter.MoreFuelSameEnd | fsnail.c:1013-1483 | a run that ends within some number of rounds ends the same way with more |
| Interpreter.ConditionalBranches | fsnail.c:1219-1262 | a comparison fails with 5 on fewer than two elements; when it holds the block is entered; when it does not, the run resumes after the `endif` closing it, or at 1 when none does |
| Interpreter.GotoResumesAfterLabel | fsnail.c:1307-1321 | `goto` fails with 6 exactly when it has no argument or no label with that name exists; otherwise it resumes after the first such label's name |
| Interpreter.StoreRound | fsnail.c:1330-1340 | a round at `store name` with the name declared and a non-empty stack gives the first entry with the name the top's value, leaves the stack and continues two tokens on |
| Interpreter.LoadRound | fsnail.c:1358-1368 | a round at `load name` with the name declared pushes its value and continues two tokens on |
| Interpreter.StoreThenLoad | fsnail.c:1330-1368 | `store name` then `load name` pushes a copy of the top and the run continues after them |
| Interpreter.HaltFinishes | fsnail.c:1477 | `halt` ends the run with the state it has |
| Interpreter.PushLiteral | fsnail.c:1015-1028 | `push` of a numeric literal pushes its value and skips it |
| Interpreter.BinaryOnTop | fsnail.c:1054-1088 | a binary operator on two pushed values replaces them by the result |
| Interpreter.PushRound | fsnail.c:1015-1028 | a round at `push` continues the run two tokens on with the value pushed |
| Interpreter.BinaryRound | fsnail.c:1054-1088 | a round at a binary operator continues the run with the result on top |
| Interpreter.SubtractionProgram | fsnail.c:1013-1483 | `push 10 push 3 sub halt` finishes with 7 on the stack |
| Interpreter.ExecStack | fsnail.c:1030-1151 | the stack branches on the object agree with `StackStep` |
| Interpreter.ExecLiteral | fsnail.c:1015-1028 | the literal branches on the object agree with `LiteralStep` |
| Interpreter.ExecConsole | fsnail.c:1186-1218 | the console branches on the object agree with `ConsoleStep` |
| Interpreter.ExecVar | fsnail.c:1323-1379 | the variable branches on the objects agree with `VarStep` |
| Interpreter.ExecFlow | fsnail.c:1219-1321 | the control branches agree with `FlowStep` |
| Interpreter.ExecuteAt | fsnail.c:1013-1483 | one round of the loop on the objects agrees with `Step` |
| Interpreter.AfterRound | fsnail.c:1013-1483 | a round that agrees with `Step` leaves the rest of the run that `Exec` gives |
| Interpreter.Advance | fsnail.c:1013-1483 | one round on the objects leaves what is left of `Exec`'s run, and is stuck exactly on an undefined instruction |
| Interpreter.Run | fsnail.c:1013-1483 | the dispatch loop computes `Exec` from index 0 |
| Interpreter.Interpret | fsnail.c:979-1485 | `main` after opening the file computes `Interpretation` |

## Left out

- Console output is not modelled: the texts `print`, `printnl`, `out`, `outint`, `outchar`, `stack` and the error messages write. The stack effect of each of these is modelled. `sclear` only clears the screen and is a no-op.
- Input (`in`, `inchar`), `rand()` and the math library functions (`pow`, `ln`, `log`, `logtwo`, `sqrt`, `sin`, `cos`, `tan`) are parameters of `Env`. The checks each of these makes on the stack are modelled.
- Stack values are `float` in C and exact `real`s here: rounding is not modelled. `Trunc` does not model overflow of the float-to-`int` cast. The bitwise operators wrap to 32 bits explicitly. `lshift` and `rshift` are stated as doubling and halving with that wrap-around (`CNum.Wrap`), not on the bit pattern.
- Names are compared in full. The C code compares at most `NAME_SIZE` characters for variables and `D` for tokens; a longer name would be cut when stored.
- A NUL or 0xFF byte in the file would be taken for the end of a string or for `EOF` in C. The model reads characters as they are.
- Some behaviour the C standard leaves undefined makes `Interpreter.Defined` false, and the model's run then ends as `Undefined`. This covers:
  - `iftrue`/`iffalse` with two or more elements;
  - `rem` with a divisor whose size lies strictly between 0 and 1;
  - `store` with an empty stack;
  - `print` and `printnl` with an empty argument;
  - `randint` with a limit that truncates to 0.

  The validator's writes below its arrays make `Validator.Defined` false, and the whole interpretation is then `Undefined`. The accesses to the slot one past the token array are not treated as undefined; see `Lexer.Materialize` below. An empty program is given a meaning too. In C it declares zero-length arrays: `token code[0]` (fsnail.c:984) and the validator's `if_stack[0]` and `endif_stack[0]` (fsnail.c:901-902). The model treats that run as defined, and it finishes with exit code 0.
- Lexer.Materialize: the C array `token code[elements]` (fsnail.c:984) has `elements` slots. When no token was dropped, the `halt` write at fsnail.c:1007 lands one past its end, and the validator's backward pass (fsnail.c:913-915) reads that slot on every run. Both are undefined behaviour in C. The model instead gives the array `elements + 1` slots and a defined last slot: `halt` when nothing was dropped, `memory(elements)` otherwise. `Validator.UnmatchedFirstOpenerAccepted` and `Lexer.NoCommentsLoadsAll` rely on that value.
- C reads the file byte by byte; the model reads characters. A character outside ASCII counts once toward the `D - 1` cap on a token's length, where C counts each of its bytes.
- `sfscanf` with `l == 1` is excluded by a precondition. `main` always passes `D`. The checks for a null file and a null buffer are left out.
- Interpreter.Exec: runs for at most `fuel` rounds, and a program that would loop for ever answers `OutOfFuel` rather than never ending.
- The command-line checks, `valid_extension` and `fopen` (exit codes 1, 2 and 10) are left out; the model starts from the file's text.
- `printlist` only prints and is left out.
- Slots of the token array that the copy pass never writes are uninitialised memory in C. The model takes their contents as a parameter `memory`.
