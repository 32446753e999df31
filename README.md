# Brainfuck interpreter core, modelled in Dafny

This project models the two-stage engine of `brainfuck-interpreter.py`.

- **The parser** (`parse_brainfuck`, `parse_string`) makes one left-to-right pass over the
  source. Runs of symbols fold into single `BrainfuckInstruction`s that carry a
  `difference`, and it recurses on `[` to build the loop tree.
- **The executor** (`execute_instruction`, `brainfuck_execute`) walks that tree against a
  mutable `BrainfuckExecutionContext`: a tape of integer cells, a pointer (`tape_index`), the
  tape size, a stop flag, and an input and an output handler.

Modules:

- `Instructions`: the nine token constants, the instruction datatype
  `Instr(token, difference, loop)` (a non-loop instruction has an empty `loop`, where the
  source has `None`), and what a well-formed instruction tree is.
- `Parser`: `Parse`, the parser as a recursive function of the source text, start index and
  end index. `FoldRun`, `ParseSymbol` and `ParseBrainfuck` are the parser's loops as methods.
  `FoldRun` is proved to compute the run end (`RunEnd`) and the difference (`RunDifference`)
  that `Parse` uses; `ParseSymbol` and `ParseBrainfuck` are proved to compute exactly what
  `Parse` says.
- `Execution`: the meaning of executing instructions, as functions from an execution state
  to an outcome (a status plus the state at that moment). `Slot` models the host list's
  indexing: a negative index counts from the end, and any other index off the tape is an
  `IndexError`.
- `Context`: the class `ExecutionContext`. It holds the tape as an `array<int>` and updates
  the tape and the pointer in place. Every method is proved to leave the context in the
  state the `Execution` function for it describes. Those contracts relate the new state to
  the old one through `old`, so the properties are proved once, about the `Execution` functions.
- `ParserProperties` and `ExecutionProperties`: the properties of the two stages.

The handlers are abstract:

- The input handler is a sequence of answers. `None` stands for the empty string that means
  end of input, and it is also what an exhausted sequence delivers.
- The output handler is a log of the values it received.

A loop may run forever, so execution carries fuel. Each loop iteration uses one unit, and an
exhausted budget ends the run with the status `OutOfFuel`. `RunMoreFuel` shows that fuel never
changes the result of a run that finishes.

Where this program differs from a textbook interpreter, the model
follows the code:

- There are no bracket errors. An unmatched `[` takes the rest of the text as its body. A
  top-level `]` ends the parse, and `parse_string` drops the text after it.
- A signed run is kept even when its difference comes out 0 or negative. It keeps the token
  of its first symbol and is never renormalised into the opposite direction.
- `>` checks only the upper bound and `<` only the lower bound. A negative difference
  can therefore move the pointer off the tape without an error. The next cell access then
  either wraps (for an index in [-size, 0)) or raises `IndexError`.
- Input stores the character's code without reducing it modulo 256.

## Model

| member | source | states |
|---|---|---|
| Parser.RunEnd | brainfuck-interpreter.py:116-131 | the folding loop stops at the end of the maximal run of symbols of the run's class, never past `end` |
| Parser.Parse | brainfuck-interpreter.py:91-135 | the returned index lies in [index, end] and is past index whenever text remains; an empty range gives no instructions and the same index |
| Parser.ParseWellFormed | brainfuck-interpreter.py:104-134 | every emitted instruction is well formed: a known token other than `]`, loops and `#` with difference 1, output and input runs of at least 1, non-loops without a body |
| Parser.RunDifference | brainfuck-interpreter.py:116-132 | no contract of its own: the folded difference of a run; `FoldRun`, `MaximalRunIsOneInstruction`, `CountedRunDifference` and `FoldedRunKeepsNetEffect` state what it is |
| Parser.ParseString | brainfuck-interpreter.py:137-142 | no contract of its own: the program for a whole text; `ParseStringWellFormed`, `TopLevelCloseDropsRest` and the parse examples below state its properties |
| Parser.ParseStringWellFormed | brainfuck-interpreter.py:137-142 | the program `parse_string` returns for any text is well formed |
| Parser.ParseAtLoopStart | brainfuck-interpreter.py:110-112 | at `[`, the body is the parse after it and parsing continues from the index the body's parse returned |
| Parser.ParseAtRun | brainfuck-interpreter.py:115-134 | at a run token, one instruction with the run's folded difference is emitted and parsing continues right after the run |
| Parser.FoldRun | brainfuck-interpreter.py:116-131 | the inner loop returns the end of the maximal run and the difference 1 plus each same symbol minus each opposite one (each further symbol for `.`/`,`) |
| Parser.ParseSymbol | brainfuck-interpreter.py:105-134 | one pass of the loop body: skip a non-token, recurse on `[`, stop just past `]`, or emit a folded run, matching `Parse` |
| Parser.ParseBrainfuck | brainfuck-interpreter.py:91-135 | the loop-based parser returns exactly the instructions and index `Parse` specifies |
| ParserProperties.RunEndUnique | brainfuck-interpreter.py:117-131 | any maximal run from `i` ends where the folding loop stops |
| ParserProperties.MaximalRunIsOneInstruction | brainfuck-interpreter.py:115-132 | a maximal `+`/`-`, `>`/`<`, `.` or `,` run becomes exactly one instruction tagged with its first symbol, and parsing resumes after the run |
| ParserProperties.CountedRunDifference | brainfuck-interpreter.py:127-132 | an output or input run's difference is its length, the number of copies of the symbol |
| ParserProperties.SourceEffectCounts | brainfuck-interpreter.py:115-126 | the net effect of text on `+`/`-` (or `>`/`<`) is the count of `up` symbols minus the count of `down` symbols |
| ParserProperties.FoldedRunKeepsNetEffect | brainfuck-interpreter.py:115-126 | the instruction a run folds into has the same net effect as the run's symbols, zero and negative results included |
| ParserProperties.MergedRunsKeepNetEffect | brainfuck-interpreter.py:104-135 | in text without `[`, the parsed instructions change the cell and the pointer by exactly as much as the consumed symbols |
| ParserProperties.SourceEffectAppend | brainfuck-interpreter.py:115-126 | the net effect of two stretches of text is the sum of their effects |
| ParserProperties.ParseStopsAfterClose | brainfuck-interpreter.py:113-114 | parsing stops before `end` only just after a `]` |
| ParserProperties.ParseWithoutCloseTakesAll | brainfuck-interpreter.py:104-135 | without a `]` ahead, parsing consumes all the text and never fails |
| ParserProperties.UnmatchedOpenTakesRest | brainfuck-interpreter.py:110-112 | an unmatched `[` becomes a single loop whose body is everything after it |
| ParserProperties.ParseIgnoresTextAfterStop | brainfuck-interpreter.py:113-114 | once parsing stops at a `]`, any shorter `end` from that point gives the same result |
| ParserProperties.ParseReadsOnlyUpToEnd | brainfuck-interpreter.py:104-132 | parsing up to `end` does not depend on the text at or beyond `end` |
| ParserProperties.TopLevelCloseDropsRest | brainfuck-interpreter.py:113-114 | a top-level `]` ends the program, whose value is that of the text up to the `]` |
| ParserProperties.CommentSplitsRun | brainfuck-interpreter.py:107-109 | `+a+` parses to two `+` instructions of difference 1 |
| ParserProperties.CancellingRunKeepsZero | brainfuck-interpreter.py:121-126 | `><` parses to one `>` with difference 0 |
| ParserProperties.RunTakesFirstSymbolsTag | brainfuck-interpreter.py:115-120 | `-++` parses to one `-` with difference -1 |
| ParserProperties.OutputAndInputRunsStaySeparate | brainfuck-interpreter.py:127-132 | `..,` parses to an output of 2 followed by an input of 1 |
| ParserProperties.LoopsNest | brainfuck-interpreter.py:110-114 | `[[+]]` parses to a loop holding a loop holding `+` |
| ParserProperties.ParseAtSingleSymbol | brainfuck-interpreter.py:115-134 | a token not continued by the next symbol becomes an instruction of difference 1 |
| ParserProperties.ClearLoopParses | brainfuck-interpreter.py:104-142 | `+[-]` parses to a `+` followed by a loop whose body is one `-` |
| Execution.Slot | brainfuck-interpreter.py:157 | a host-list index names a slot exactly when it lies in [-length, length); a negative index counts from the end |
| Execution.AddStep | brainfuck-interpreter.py:156-160 | no contract of its own: `+`/`-` on a state; `AddChangesOnlyCurrentCell`, `CellsWrapAround` and `Context.ExecutionContext.Add` state its behaviour |
| Execution.MoveRightStep | brainfuck-interpreter.py:162-166 | no contract of its own: `>` on a state; `MoveRightChecksUpperBoundOnly`, `MovesOffTheEndsFail` and `NegativeMoveLeavesTape` state its behaviour |
| Execution.MoveLeftStep | brainfuck-interpreter.py:168-172 | no contract of its own: `<` on a state; `MoveLeftChecksLowerBoundOnly` and `MovesOffTheEndsFail` state its behaviour |
| Execution.OutputStep | brainfuck-interpreter.py:174-177 | no contract of its own: `.` on a state; `OutputCallsHandlerDifferenceTimes` and `OutputOffTapeFails` state its behaviour |
| Execution.InputStep | brainfuck-interpreter.py:179-182 | no contract of its own: `,` on a state; `InputCallsHandlerDifferenceTimes`, `InputOffTapeConsumesOne`, `InputIsNotMasked` and `InputKeepsBytes` state its behaviour |
| Execution.Step | brainfuck-interpreter.py:147-198 | no contract of its own: one instruction on a state; `StepStaysOnTape`, `StepKeepsBytes`, `StepMoreFuel` and `BreakChangesNothing` state its properties |
| Execution.LoopStep | brainfuck-interpreter.py:184-186 | no contract of its own: the `while` over the current cell; `LoopExitsOnZeroCell`, `LoopStaysOnTape`, `LoopKeepsBytes` and `LoopMoreFuel` state its properties |
| Execution.Run | brainfuck-interpreter.py:200-209 | no contract of its own: a list of instructions on a state; `RunConcat`, `StopFlagRunsNothing`, `RunStaysOnTape`, `RunKeepsBytes`, `RunMoreFuel` and `ErrorKeepsEarlierChanges` state its properties |
| Execution.DebugWindow | brainfuck-interpreter.py:189-190 | the `#` window starts at 0 or above, ends at the tape size or below, spans at most 21 cells, contains an on-tape pointer, and is centred on it when not clamped |
| Context.ExecutionContext.constructor | brainfuck-interpreter.py:64-68 | a fresh context has a zeroed tape of the given size, the pointer on cell 0 and no stop request |
| Context.ExecutionContext.ReadInput | brainfuck-interpreter.py:181 | one input-handler call yields the next answer, or end of input once the answers are used up |
| Context.ExecutionContext.Add | brainfuck-interpreter.py:156-160 | `+`/`-` on the array tape give the state `AddStep` describes |
| Context.ExecutionContext.MoveRight | brainfuck-interpreter.py:162-166 | `>` gives the outcome `MoveRightStep` describes: an overrun error, or the moved pointer |
| Context.ExecutionContext.MoveLeft | brainfuck-interpreter.py:168-172 | `<` gives the outcome `MoveLeftStep` describes: an underrun error, or the moved pointer |
| Context.ExecutionContext.Output | brainfuck-interpreter.py:174-176 | the output loop gives the outcome `OutputStep` describes |
| Context.ExecutionContext.Input | brainfuck-interpreter.py:179-182 | the input loop gives the outcome `InputStep` describes |
| Context.ExecutionContext.RunLoop | brainfuck-interpreter.py:184-186 | the `while` over the current cell gives the outcome `LoopStep` describes |
| Context.ExecutionContext.ExecuteInstruction | brainfuck-interpreter.py:147-198 | executing one instruction in place gives the outcome `Step` describes |
| Context.ExecutionContext.Execute | brainfuck-interpreter.py:200-209 | executing a list in place gives the outcome `Run` describes |
| ExecutionProperties.AddChangesOnlyCurrentCell | brainfuck-interpreter.py:156-160 | `+`/`-` set the current cell to (cell ± difference) mod 256, in [0, 255], and change nothing else |
| ExecutionProperties.MoveRightChecksUpperBoundOnly | brainfuck-interpreter.py:162-166 | `>` fails with TapeOverrun if and only if pointer + difference >= size, leaving the state as it was; otherwise only the pointer moves |
| ExecutionProperties.MoveLeftChecksLowerBoundOnly | brainfuck-interpreter.py:168-172 | `<` fails with TapeUnderrun if and only if pointer - difference < 0, leaving the state as it was; otherwise only the pointer moves |
| ExecutionProperties.OutputCallsHandlerDifferenceTimes | brainfuck-interpreter.py:174-176 | `.` hands the current cell to the output handler exactly `difference` times (never when it is not positive) and changes nothing else: tape, pointer, stop flag and input are unchanged |
| ExecutionProperties.OutputOffTapeFails | brainfuck-interpreter.py:175-176 | off the tape, `.` with a positive difference fails with IndexError before any handler call and changes nothing |
| ExecutionProperties.InputCallsHandlerDifferenceTimes | brainfuck-interpreter.py:179-182 | `,` consumes exactly `difference` answers, and the current cell ends with the last one's code (0 for end of input); the rest of the tape, the pointer, the stop flag and the output are unchanged |
| ExecutionProperties.InputOffTapeConsumesOne | brainfuck-interpreter.py:180-182 | off the tape, `,` consumes one answer and then fails with IndexError, changing nothing else |
| ExecutionProperties.BreakChangesNothing | brainfuck-interpreter.py:188-196 | `#` leaves the state unchanged |
| ExecutionProperties.LoopExitsOnZeroCell | brainfuck-interpreter.py:184-186 | a loop instruction completes only with the current cell 0 |
| ExecutionProperties.StopFlagRunsNothing | brainfuck-interpreter.py:206-208 | with the stop flag set, a run executes nothing |
| ExecutionProperties.RunConcat | brainfuck-interpreter.py:206-209 | running `a + b` is running `a`, then `b` only if `a` completed; an error in `a` ends everything with the state at that point |
| ExecutionProperties.RunStaysOnTape | brainfuck-interpreter.py:162-186 | when no move difference is negative, the pointer stays on the tape and no cell access fails |
| ExecutionProperties.StepStaysOnTape | brainfuck-interpreter.py:156-186 | the same for one instruction |
| ExecutionProperties.LoopStaysOnTape | brainfuck-interpreter.py:184-186 | the same for a loop |
| ExecutionProperties.RunKeepsBytes | brainfuck-interpreter.py:156-182 | cells stay in [0, 255] as long as every input code is below 256 |
| ExecutionProperties.StepKeepsBytes | brainfuck-interpreter.py:156-186 | the same for one instruction |
| ExecutionProperties.InputKeepsBytes | brainfuck-interpreter.py:179-182 | input keeps cells in [0, 255] when the answers' codes are below 256 |
| ExecutionProperties.LoopKeepsBytes | brainfuck-interpreter.py:184-186 | the same for a loop |
| ExecutionProperties.RunMoreFuel | brainfuck-interpreter.py:184-186 | a run that finishes with some fuel gives the same outcome with any more fuel |
| ExecutionProperties.StepMoreFuel | brainfuck-interpreter.py:147-198 | the same for one instruction |
| ExecutionProperties.LoopMoreFuel | brainfuck-interpreter.py:184-186 | the same for a loop |
| ExecutionProperties.CellsWrapAround | brainfuck-interpreter.py:156-160 | 255 + 1 gives 0 and 0 - 1 gives 255 |
| ExecutionProperties.MovesOffTheEndsFail | brainfuck-interpreter.py:162-172 | a `>` from the last cell overruns and a `<` from cell 0 underruns |
| ExecutionProperties.NegativeMoveParses | brainfuck-interpreter.py:121-126 | `><<+` folds its moves into one `>` with difference -1, followed by a `+` |
| ExecutionProperties.NegativeMoveLeavesTape | brainfuck-interpreter.py:162-166 | that `>` of -1 passes the upper-bound check and leaves the pointer at -1, and the `+` then lands on the last cell |
| ExecutionProperties.ErrorKeepsEarlierChanges | brainfuck-interpreter.py:206-209 | an overrun after a `+` aborts the run with the `+` kept and the later instructions never run |
| ExecutionProperties.InputIsNotMasked | brainfuck-interpreter.py:182 | a character with code 256 is stored as 256 |
| ExecutionProperties.MoveBodyMovesOne | brainfuck-interpreter.py:156-172 | one pass of `>+<-` over the cells [1, 0] leaves [0, 1] with the pointer back on cell 0 |
| ExecutionProperties.MoveLoopTerminates | brainfuck-interpreter.py:184-209 | the tree of `+[>+<-]` on two cells ends with [0, 1] and the pointer on cell 0 |
| ExecutionProperties.ClearLoopClears | brainfuck-interpreter.py:184-209 | `+[-]` on one cell ends with the cell back at 0 after one loop pass |

## Left out

- The command line and run modes (`main`, `print_usage`, `print_version`, `run_file`, `run_code`, `run_interactive_console`, brainfuck-interpreter.py:214-333) are not modelled. They are file, terminal and argument-parsing I/O.
- `brainfuck_getchar` and the default `sys.stdout` output handler (brainfuck-interpreter.py:70-86) are not modelled. The handlers are abstract: an input sequence and an output log.
- The `sys.stdout.flush()` after output (brainfuck-interpreter.py:177) is not modelled; it is an I/O side effect.
- The `#` dump's printing (brainfuck-interpreter.py:191-196) is not modelled. Only its window (`DebugWindow`) and the fact that `#` changes no state are modelled.
- `__repr__` (brainfuck-interpreter.py:54-57) is not modelled; it is display text only.
- The code has no termination proof, and loops may run forever. Execution is bounded by fuel, and an exhausted budget is the outcome `OutOfFuel`, which the source does not have.
- The execution context's `tape_size` is a natural number. The source would accept a negative size and build an empty tape.
- Python's recursion limit is not modelled: `Parse`, `Run` and `LoopStep` have no depth bound. The program raises RecursionError on deeply nested `[`, both when parsing (brainfuck-interpreter.py:110-111, reported by `run_code` as a parse failure at :246-250) and when executing (:186, :209, which `run_code` does not catch, :255).
- The command line's default tape size `TAPE_SIZE` (brainfuck-interpreter.py:21) is not modelled; the tape size is a parameter of the context.
- Handlers cannot change the context, so `shouldStop` is constant during a run. A stop requested mid-run, by a handler or another thread, is not modelled. In the source (brainfuck-interpreter.py:206-208) such a stop skips the remaining instructions of each level, but an enclosing loop over a nonzero cell keeps running (:185-186).
- The handlers are not stored in the context, so a program cannot swap them. The context's `input` and `output` fields hold what the handlers will deliver and have received.
- ExecutionProperties.RunStaysOnTape: proved only when no move difference is negative, because the one-sided checks let a negative difference move the pointer off the tape. `NegativeMoveLeavesTape` shows this happening.
- ExecutionProperties.RunKeepsBytes: proved only for input codes below 256, because input stores the code unreduced. `InputIsNotMasked` shows this.
- ParserProperties.MergedRunsKeepNetEffect: stated only for text without `[`. Inside a loop the body's effect repeats an unknown number of times.
