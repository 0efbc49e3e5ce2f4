# SwiftII, modelled and proved in Dafny

SwiftII compiles a subset of Swift in one pass, without a syntax tree, to bytecode for a 16-bit stack machine,
and does both inside 64 KB: jumps are back-patched, finished functions are rotated under live code, windows
slide under the lexer and under the machine, and reference counts drive a bump allocator. This project models
those layers and proves that each agrees with a simple specification. `dafny verify dfyconfig.toml` checks it.

## What is modelled

**Programs** (`Syntax`, `Semantics`, `Fuel`, `CodeGen`, `Patching`, `Runs`, `ExprSimulation`, `StmtSimulation`,
`Sessions`, `Programs`, `Failures`, `Constants`, `Ranges`). A big-step evaluator says what a program means; functions say what
bytecode each construct has; a forward simulation shows that the machine does what the evaluator says, for every
program, input and length of run, and, the machine being deterministic, the other way round as well. Loops are
unbounded: fuel only measures how long the evaluator may take.

**Every point of a run** (`Visits`, `Boundaries`, `Lapses`, `Counterexamples`). `Visits` lists the statement
boundaries that the evaluator passes, with the frame that belongs to each; the machine stands at each of them.
`Lapses` says what it does where a condition fails that the compiler leaves unchecked.

**Every placement** (`Flow`, `CodeFlow`, `PartsInMotion`, `Relocation`). Where control can go in compiled code; a
machine that keeps the functions apart and knows no addresses; and the lock step with it of the real machine on
any image that holds the same functions.

**The compiler** (`Grammar`, `Precedence`, `SourceText`, `Rotation`, `Compiler`, `PagedBuffer`). The class `Parser`
has the fields of the original: token position, byte buffer, symbol tables, parked placeholders, open loops with their break sites. Its
methods emit and patch as the C code does and are proved against the functions of `CodeGen`. Expressions are read
from tokens by precedence climbing, which agrees with a grammar in layers. The paged buffer refines the flat one.

**The machine** (`Values`, `Machine`, `VirtualMachine`, `RefCounts`, `HeapStore`). `Machine` is the step function;
the class `Vm` keeps stack, frames and globals in fixed arrays and reads its code through the sliding window;
`RefCounts` and `CountedCode` follow the counts through every instruction; the class `Store` keeps blocks, counts
and array slots as bytes.

**What the machine computes** (`MachineLaws`, `ControlLaws`, `ObjectLaws`, `Printing`). Laws of single instructions,
each named by its byte and stated of the integers, elements, bytes and characters themselves.

**The file between the two** (`SwbImage`, `FileFormat`, `Toolchain`). Writing, streaming, reading and paged loading of a `.swb`
image, and the whole chain from compiling to running.

**The front end** (`Lexer`, `Spellings`, `SourceWindow`). The scanner over a buffer, a grammar of its tokens, and the window that slides over a file
under it, with short reads and with any choice of the separators at which it slides.

**Typing, numbers, editing** (`InputMethod`, `TypingModel`, `Decimal`, `Numerals`, `Editor`, `EditorKeys`). The in-place
line translator, its inverse and how lines are typed for it, decimal text, and the gap buffer with line navigation and key dispatch.

Reads from a file, the growth of an output file and the choice of the separators at which a window slides are
unconstrained choices in the model. Integers are mathematical; every 16-bit wrap, cast and saturation of the
original is written out.

## Where the code differs from what one would expect

- A `break` behind a local of the loop body leaves the local on the stack. `Counterexamples.BreakBehindLocal` is
  a program that prints 1 instead of 2. The simulation therefore asks that no local is live at a `break` beyond
  those at the start of the loop (`Careful`); `Lapses.BreakLands` says what any other `break` does.
- The test for a missing return looks at one raw byte. `Programs.EndOfBody` says exactly what happens: the body
  returns if the byte is not a return opcode and runs on into the next code otherwise. The same test decides
  whether a `switch` clause pops its locals and jumps to the end (`Lapses.EndOfClause`). Bodies and clauses that end
  in `if c { return }` are misread: `Counterexamples.MisreadBody` and `Counterexamples.MisreadClause` are programs
  that print 7 and should print nothing.
- `a...32767` never ends but by a `break` (`Ranges.ClosedRangeToTheTop`, `Ranges.RangeEnds`).
- `==` and `!=` drop their operands without releasing them (`RefCounts.EqualExactly`).
- `(x!)` is rejected, and `-x!` unwraps the negated value (`Grammar.UnwrapPlaces`).
- The variable of a `for` loop is a global, inside functions too.
- A line break `CR LF` counts as two lines in the line numbers of the lexer, so they are those of the text exactly
  before the first one (`SourceWindow.LineOfToken`, `SourceWindow.LineAhead`).
- A file that fills the source window exactly is rejected as too long unless the window still slides, because the
  eof flag is set only by a read that comes back empty (`SourceWindow.ScanFile`).
- An `if let` at top level may take over the name of a constant and change it (`Constants.LetTakenOver`); apart from
  that a constant keeps its value (`Constants.LetStays`).
- A backslash typed as the trigraph `??/` starts no escape, so a quote behind it ends the string for the translator
  (`TypingModel.EscapedQuote`).
- Loading a line and saving it is the identity only for lines that the typing model can express;
  `InputMethod.LoadThenSave` gives the exact condition.

## Model
| member | source | states |
|---|---|---|
| Programs.CompilationPreservesMeaning | src/compiler/statements.c:1695-1716 | For every accepted program and every amount of fuel, the machine started on the linked image ends with the globals, output and error of the direct evaluator, or still runs while the evaluator does, unless stack or call frames fill up. |
| Programs.MachineStopsAsMeant | src/vm/vm.c:385-417 | When stack and frames suffice, the machine stops with given error, globals and output if and only if the program means to; so it runs forever exactly when the program does. |
| Programs.HowProgramsStop | src/vm/vm.c:385-417 | A run of a compiled program stops normally, with a language error or on a full stack; never on an empty stack and never out of memory. |
| Programs.EndOfBody | src/compiler/statements.c:707-718 | When control reaches the end of a function body, the function returns nil if and only if the raw test of the last byte failed; otherwise the machine runs on into the next code. |
| Programs.SimBody | src/compiler/statements.c:683-718 | A call of any compiled function, started at its entry with its arguments as slots, does what the evaluator does with its body. |
| Programs.SimCalls | src/vm/vm.c:1169-1236 | Calls to every depth are simulated: frames are pushed, arguments become locals, and the return leaves one value for the caller. |
| Programs.SimTops | src/compiler/statements.c:1695-1711 | Top-level code after any mixture of declarations and statements runs in source order, with nothing on the stack between statements. |
| Toolchain.CompileAndRun | src/main/compiler_main.c:228-260 | Compile; bring the code through a paged buffer with a window of any size; write the file; read its header, then its tail; interpret the bytecode through a window of any size from three bytes up: a run that ends has ended as the program means to. |
| Toolchain.WriteFile | src/swb/swb.c:42-83 | The bytes that come out of the paged buffer, the function table and the writer are the file of the program; with a window that holds the code, writing succeeds if and only if the room suffices. |
| Toolchain.LoadPaged | src/swb/swb_read.c:133-175 | Header first and tail later yields the program of every file that opens, and rejects the others. |
| Toolchain.CompiledLoads | src/swb/swb_read.c:31-75 | The file of every compiled program passes all checks of the loader. |
| Relocation.RunsAnywhere | src/compiler/bcbuf.c:71-96 | A program does what it means wherever its function bodies and its top-level code are placed. |
| Relocation.LayoutsAgree | src/compiler/statements.c:720-734 | Any two layouts of any accepted program agree after every number of steps in stack, depth of calls, globals, heap and output and stop alike, with no discipline asked of `break` and also when they run forever or fill up the stack, provided each body whose last byte is taken for a return has only paths that leave it. |
| Relocation.LayoutsInStep | src/compiler/bcbuf.c:71-96 | The same for every accepted program without a condition on it, for as long as no run has come to the end of a function's code. |
| Relocation.EndTogether | src/compiler/statements.c:707-718 | If a run does come to the end of a function's code, it does in both layouts, after the same number of steps, in the same state and at the end of the same function. |
| PartsInMotion.InStep | src/vm/vm.c:385-417 | The machine, whatever image it runs, moves in step with a machine that keeps each function apart and counts positions from its start. |
| PartsInMotion.NeverAdrift | src/vm/vm.c:660-719 | If every part is sealed, no run ever comes to the end of one. |
| CodeFlow.StmtFlows | src/compiler/emit.c:63-93 | The code of every statement, entered at its start, is left only at its end or for the target of its free breaks, and not at its end when all its paths leave by return or break; every jump in it goes to an instruction. |
| CodeFlow.ExprPasses | src/compiler/pratt.c:441-524 | The code of every expression, entered at its start, is left only at its end. |
| Flow.Compose | src/compiler/emit.c:72-83 | Pieces of code compose: what leads out of one leads out of both or to a place where the other lets it in. |
| Relocation.CompilerLays | src/compiler/statements.c:683-734 | The image that the compiler produces for any accepted program is such a layout. |
| Boundaries.EveryBoundary | src/compiler/locals.c:54-89 | From the start of every compiled program, for every fuel: each statement boundary that the evaluator passes, in turns of loops, arms, clauses, case values and called bodies, whether or not anything around it ever ends, is a state of the machine, with exactly the live locals of the symbol table and the bounds of the running `for` loops in the frame, each in its slot, with the evaluator's globals and output and at the same depth of calls; unless stack or frames fill up before. |
| Boundaries.NothingIsLost | src/vm/vm.c:385-417 | The globals and the output that the evaluator has at a boundary, with any fuel, the machine has at some point of its run: so programs that never end show everything they should. |
| Boundaries.VisitStmt | src/compiler/statements.c:1465-1665 | The same for every statement run from a boundary: the machine passes all boundaries in it. |
| Boundaries.VisitTurns | src/compiler/statements.c:1175-1279 | The same for the turns of a `for` loop, with the bound in the hidden slot on top of the frame. |
| Boundaries.VisitCases | src/compiler/statements.c:1352-1444 | The same for the clauses of a `switch`, whose bodies start once the subject is gone. |
| Boundaries.VisitBody | src/vm/vm.c:1169-1195 | The same for a called function, whose first frame is its arguments. |
| Boundaries.EndBoundary | src/compiler/locals.c:84-89 | A statement that ends normally leaves the machine behind its code with the locals of the tables after it, in their slots. |
| Counterexamples.BreakBehindLocal | src/compiler/statements.c:478-491 | A concrete accepted program with a break behind a local prints 1 where it should print 2: the discipline for break is needed. |
| Counterexamples.MisreadBody | src/compiler/statements.c:707-718 | A concrete accepted program: a function body that ends in `if c { return }` is taken to return, so a call with a false `c`, which should do nothing, runs on into the next function and prints 7. |
| Counterexamples.MisreadClause | src/compiler/statements.c:1413-1444 | A concrete accepted program: a clause that ends in `if c { return }` runs on into the default clause, which prints 7. |
| Lapses.BreakLands | src/compiler/statements.c:478-491 | A `break`, whatever locals are live, lands at the end of its loop with the stack unchanged; the boundary behind the loop holds if and only if no local has been declared since the loop started. |
| Lapses.BreakBehind | src/compiler/loops.c:49-61 | The same for a `break` behind any statements of the loop body, run from the boundary before them. |
| Lapses.EndOfClause | src/compiler/statements.c:1413-1444 | A clause that ends normally is back at its boundary if and only if its last byte is not taken for a return or it declared no local; otherwise the machine runs on into the code behind with the locals on the stack. |
| StmtSimulation.SimStmt | src/compiler/statements.c:1465-1665 | The code of any statement, run from a boundary that agrees with the evaluator, ends as the evaluator says: behind its code, at the target of its breaks, out of the function, with an error, or still running. |
| StmtSimulation.SimIf | src/compiler/statements.c:934-984 | `if` runs the arm its condition chooses and joins behind both. |
| StmtSimulation.SimIfLet | src/compiler/statements.c:854-932 | `if let` binds the unwrapped value in a fresh slot for its arm only, or runs the other arm. |
| StmtSimulation.SimWhile | src/compiler/statements.c:986-1020 | A loop runs its body as long as its condition holds, over any number of turns, and all its breaks land behind it. |
| StmtSimulation.SimForIn | src/compiler/statements.c:1138-1280 | `for` over a range steps its variable through the hidden slots and leaves the stack as it was. |
| StmtSimulation.SimSwitch | src/compiler/statements.c:1316-1462 | `switch` runs the first clause with a value equal to the subject, or the default, evaluates no case value after the match, and leaves the stack depth unchanged. |
| StmtSimulation.SimTests | src/compiler/statements.c:1352-1411 | Case values are compared in order, each with a copy of the subject, up to the first that is equal. |
| StmtSimulation.SimBlock | src/compiler/statements.c:809-834 | A scoped block pops its own locals when it ends normally. |
| StmtSimulation.SimDeclare | src/compiler/statements.c:99-164 | A declaration makes its value the next slot of the frame, or defines the global at its index. |
| StmtSimulation.SimAssign | src/compiler/statements.c:299-349 | An assignment stores into the slot or the global that the tables name. |
| StmtSimulation.SimCompound | src/compiler/statements.c:279-349 | A compound assignment reads, computes and stores the same variable. |
| StmtSimulation.SimPrint | src/compiler/statements.c:172-232 | `print` writes the texts of its arguments as one line; `Printing.LineMeant` says which characters these are. |
| StmtSimulation.SimReturn | src/compiler/statements.c:498-522 | `return` leaves the frame with its value, whatever locals are live. |
| StmtSimulation.SimBreak | src/compiler/statements.c:478-491 | `break` lands behind the innermost loop with the locals of its start. |
| StmtSimulation.NeverNormal | src/compiler/statements.c:707-709 | A body that ends in an unconditional return never reaches its end. |
| ExprSimulation.SimExpr | src/compiler/pratt.c:526-530 | The code of any expression pushes its value and nothing else, or stops with its error. |
| ExprSimulation.SimShortCircuit | src/compiler/pratt.c:441-524 | Logical and and or need a Bool on the left; they leave it when it decides, and otherwise the value of the right side, whatever its type, which is evaluated only then. |
| ExprSimulation.SimCoalesce | src/compiler/pratt.c:441-524 | `??` keeps a non-nil left side and evaluates the right one otherwise. |
| ExprSimulation.SimCall | src/compiler/statements.c:371-459 | A call evaluates its arguments in order and leaves the result of the function. |
| Ranges.ForTurns | src/compiler/statements.c:1175-1279 | A `for` loop runs its body once for each number of its range in order, and then ends, under the bound that 16-bit wrap-around needs. |
| Ranges.ClosedRangeToTheTop | src/vm/vm.c:601-609 | A closed range ending at 32767, whatever the body of its loop does, ends normally if and only if some turn breaks out of it: the variable wraps below the bound. |
| Ranges.RangeEnds | src/compiler/statements.c:1175-1279 | For every body whose turns end normally and leave the variable alone, the loop ends if and only if its range is not closed at 32767. |
| Ranges.EmptyTame | src/compiler/statements.c:1175-1279 | What RangeEnds asks of a body can be met: the empty body meets it for every number of turns. |
| Failures.ExecErrors | src/vm/vm.c:539-590 | A statement that fails does so with one of the errors of the language. |
| Constants.LetStays | src/compiler/statements.c:301-338 | What the rule that a `let` cannot be assigned is worth: in an accepted program a constant declared at top level has the same value after any of the rest of the program, calls and loops included, unless an `if let` at top level takes its name over. |
| Constants.LocalLetStays | src/compiler/statements.c:301-338 | A constant of a function has the same value after any statement in its scope, break or no break. |
| Constants.LetTakenOver | src/compiler/statements.c:884-897 | An accepted program in which a constant changes: an `if let` at top level stores into the global of that name, constant or not. |
| Patching.PatchStmt | src/compiler/loops.c:49-61 | Patching the recorded break sites of the code of any statement gives the code compiled with the target known from the start. |
| Patching.PatchSwitch | src/compiler/loops.c:37-61 | The same through the clauses of a switch. |
| Compiler.Parser.EmitByte | src/compiler/emit.c:15-33 | Appends one byte, or reports a full buffer and leaves the code as it is; it fails if and only if the buffer is full. |
| Compiler.Parser.EmitInt | src/compiler/emit.c:53-61 | Appends the short or the long form of an integer constant, as the specification of code says; fails if and only if the buffer is too small for it. |
| Compiler.Parser.EmitPlaceholder | src/compiler/emit.c:63-70 | Appends a jump whose offset is still open and returns where; fails if and only if the buffer is too small for it. |
| Compiler.Parser.PatchHere | src/compiler/emit.c:72-83 | Fills an open offset with the distance to the end of the code and changes nothing else. |
| Compiler.Parser.EmitLoop | src/compiler/emit.c:85-93 | Appends the backward jump to a loop start; fails if and only if the buffer is too small for it. |
| Compiler.Parser.Park | src/compiler/emit.c:115-117 | Parks an open placeholder on top of the others. |
| Compiler.Parser.Unpark | src/compiler/emit.c:118-120 | Takes back the placeholder parked last. |
| Compiler.Parser.ParsePrimary | src/compiler/pratt.c:108-288 | Consumes what the grammar reads as a primary and emits the code of that tree, or rejects if and only if the grammar does. A limit is reported only where one is reached. |
| Compiler.Parser.ParseCall | src/compiler/statements.c:371-459 | A call with the right number of arguments: their codes in order, then the call. |
| Compiler.Parser.ApplyPostfix | src/compiler/pratt.c:314-428 | Wraps what has been emitted in unwrap instructions, one for each postfix mark. |
| Compiler.Parser.ParseInfixLoop | src/compiler/pratt.c:441-524 | Extends the expression emitted so far by every operator of at least the given precedence, emitting directly. A limit is reported only where one is reached. |
| Compiler.Parser.ParseExpression | src/compiler/pratt.c:526-534 | Emits exactly the code of the tree that the grammar reads, which `Precedence.ReadsTheGrammar` ties to a grammar with layers, and leaves exactly the tokens behind it. A limit is reported only where one is reached. |
| Compiler.Parser.CompileExpr | src/compiler/pratt.c:526-534 | From the written tokens of any well-formed expression, the code of that expression. A limit is reported only where one is reached. |
| Compiler.Parser.DeclareLocal | src/compiler/locals.c:63-82 | Adds a local in the next slot, or fails on a clash or a full table. |
| Compiler.Parser.DefineGlobal | src/compiler/globals.c:89-108 | Adds a global in the next slot, or fails on a redefinition or a full table. |
| Compiler.Parser.TruncateLocals | src/compiler/locals.c:84-89 | Forgets the locals from a depth on. |
| Compiler.Parser.CompileStmt | src/compiler/statements.c:1465-1665 | One pass appends exactly the code of the statement, leaves the tables after it and records its break sites; it rejects only what is not well-formed. A limit is reported only with the buffer full, four loops open, four breaks in the innermost loop or 24 ends of clauses in a switch. |
| Compiler.Parser.CompileIf | src/compiler/statements.c:934-984 | The two open jumps are patched to the second arm and behind it, the outer one parked while an arm is compiled. A limit is reported only where one is reached. |
| Compiler.Parser.CompileIfLet | src/compiler/statements.c:854-932 | Likewise for `if let`, with the bound slot popped on one path only. A limit is reported only where one is reached. |
| Compiler.Parser.CompileWhile | src/compiler/statements.c:986-1020 | Exit and breaks are patched behind the backward jump. A limit is reported only where one is reached. |
| Compiler.Parser.CompileForIn | src/compiler/statements.c:1138-1280 | Three hidden or named slots, the test, the step and the clean-up of a range loop. A limit is reported only where one is reached. |
| Compiler.Parser.CompileSwitch | src/compiler/statements.c:1316-1462 | Tests, bodies and the jumps to the end, all patched, and the subject popped on every path. A limit is reported only where one is reached. |
| Compiler.Parser.CompileBreak | src/compiler/statements.c:478-491 | Records an open jump with the innermost loop; outside a loop it is rejected. A limit is reported only for a full buffer and for a fifth break. |
| Compiler.Parser.CompileReturn | src/compiler/statements.c:498-522 | The value if the function has one, then the return. A limit is reported only where one is reached. |
| Compiler.Parser.EnterLoop | src/compiler/loops.c:30-35 | Opens a loop without break sites, and fails if and only if four are open. |
| Compiler.Parser.ExitLoop | src/compiler/loops.c:49-61 | Patches every break site of the innermost loop and closes it. |
| Compiler.Parser.CloseLoop | src/compiler/loops.c:49-61 | After closing a loop its body is the code compiled with the break target known. |
| Compiler.Parser.EndsWithReturn | src/compiler/statements.c:1413-1444 | The raw test of the last byte of a clause. |
| Compiler.Parser.DeclareFunction | src/compiler/funcs.c:77-97 | Adds a function name, or fails on a redefinition or a full table. |
| Compiler.Parser.DeclareParams | src/compiler/statements.c:584-660 | The parameters become the first locals, in order, without repetition. |
| Compiler.Parser.EndBody | src/compiler/statements.c:707-718 | Appends the void return unless the last byte is one. A limit is reported only where one is reached. |
| Compiler.Parser.RotateIntoArena | src/compiler/bcbuf.c:71-96 | The finished body moves to the end of the arena and the code it overtakes moves up unchanged. |
| Compiler.Parser.CompileFunc | src/compiler/statements.c:539-750 | The body is behind the earlier ones, its start is the sum of their lengths, and the top-level code is untouched. A limit is reported only where one is reached. |
| Compiler.Parser.CompileTop | src/compiler/statements.c:1695-1711 | A statement of the program extends the top-level code. A limit is reported only where one is reached. |
| Compiler.Parser.CompileItems | src/compiler/statements.c:1695-1716 | All items in order, then the halt. A limit is reported only where one is reached. |
| Compiler.Parser.Compile | src/compiler/compiler.c:62-138 | A successful compile extends the session; a failed one leaves tables, arena and function starts as they were. A limit is reported only where one is reached. |
| Compiler.Parser.RollBack | src/compiler/compiler.c:119-131 | Cuts the tables and the arena back to the savepoint. |
| Compiler.Parser.CompileAll | src/compiler/compiler.c:62-138 | After any series of successful and failed compiles the session is the one the successful compiles alone would have left. |
| Compiler.CompileProgram | src/compiler/compiler.c:140-144 | The buffer, entry point and function table of a fresh compile are those of the linked image: bodies in declaration order, then top-level code, starts the prefix sums. |
| Grammar.ExpressionReads | src/compiler/pratt.c:441-534 | Reading an expression written with minimal parentheses gives the expression back and consumes exactly its tokens. |
| Grammar.ExactlyTheWritable | src/compiler/pratt.c:314-428 | Some text is read as an expression if and only if the expression keeps unwraps to the places the grammar has for them. |
| Grammar.ExactlyTheWellFormed | src/compiler/pratt.c:108-288 | The text of an expression is accepted to its end if and only if its names are declared and its calls have the right number of arguments. |
| Grammar.UnwrapPlaces | src/compiler/pratt.c:142-169 | An unwrap in parentheses is rejected, and one behind a prefix operator applies to the negated value. |
| Precedence.ReadsTheGrammar | src/compiler/pratt.c:434-534 | A grammar with one layer for each level (or, and, equality, nil default, comparison, sum, product, operand), each left-associative, says what an expression is. The precedence climber reads a tree from tokens, and stops behind them, exactly if the grammar has that tree for these tokens, its names and calls are right, and nothing that follows can go on with it. |
| Precedence.OneTree | src/compiler/pratt.c:69-87 | The grammar has one tree for a sequence of tokens. |
| SourceText.ScanReads | src/lexer/lexer.c:253-379 | The text of the tokens of an expression, numbers and names and signs as they are written, is scanned as these tokens. |
| SourceText.ReadsText | src/compiler/pratt.c:526-534 | From text to tree: scanner and climber together read a tree from a text exactly if the grammar has it for the tokens written there, and its names and calls are right. |
| SourceText.SignOpcodes | src/compiler/pratt.c:89-104 | Which byte of code stands for which operator sign. |
| Rotation.ReverseRange | src/compiler/bcbuf.c:60-69 | Reverses a range in place and leaves the rest. |
| Rotation.ThreeReversals | src/compiler/bcbuf.c:85-92 | Three reversals move the tail of a range in front of the rest, both in order. |
| Rotation.RotateDown | src/compiler/bcbuf.c:71-96 | The in-place rotation of a body under the code before it. |
| PagedBuffer.Paged.Flush | src/compiler/bcbuf.c:129-146 | Moving finished code to the store changes nothing of the flat buffer. |
| PagedBuffer.Paged.Append | src/compiler/bcbuf.c:126-147 | Appends to the flat buffer; fails exactly when the unfinished code fills the window or the limit is reached. |
| PagedBuffer.Paged.Patch | src/compiler/emit.c:72-83 | A back-patch is resident: it changes one byte of the flat buffer and flushes nothing. |
| PagedBuffer.Paged.Get | src/compiler/bcbuf.c:149-151 | Reads a byte of the flat buffer. |
| PagedBuffer.Paged.Rotate | src/compiler/bcbuf.c:100-122 | Rotating inside the window rotates the flat buffer. |
| PagedBuffer.Paged.Perform | src/compiler/bcbuf.c:100-155 | Any series of appends, back-patches and rotations does to the paged buffer what it does to a flat one, up to the first append that does not fit. |
| PagedBuffer.RotatedBehind | src/compiler/bcbuf.c:112-117 | Rotation on window-relative indices is rotation of the whole. |
| SwbImage.OpensExactly | src/swb/swb_read.c:31-85 | Opening succeeds if and only if the bytes are the file of a loadable program, whatever the reserved byte and the bytes behind, and yields that program. |
| FileFormat.Layout | src/swb/swb.h:8-20 | The bytes of a file: the letters SWB, version 1, entry point and section sizes with the low byte first, then code, heap and one record of four bytes for each function. |
| SwbImage.PagedLoadAgrees | src/swb/swb_read.c:133-175 | On a complete file, header first and tail later accepts what opening at once accepts and yields the same state. |
| SwbImage.TruncatedRefused | src/swb/swb_read.c:47-49 | A file cut short anywhere is refused as truncated. |
| SwbImage.Write | src/swb/swb.c:42-83 | Writes the file of the program in the paged buffer, or reports a small output buffer and leaves it alone. |
| SwbImage.WriteStream | src/swb/swb.c:85-127 | Sends the same bytes in pieces; after an error a prefix of them. |
| SwbImage.WriteThenRead | src/swb/swb.c:42-83 | What is written is read back: code, entry point, heap and functions, if and only if the loader's conditions hold. |
| SwbImage.Runtime.OpenImage | src/swb/swb_read.c:107-123 | The state becomes that of the file; a rejected file leaves it untouched. |
| SwbImage.Runtime.Read | src/swb/swb_read.c:87-105 | Likewise, with the bytecode copied to the caller's buffer, whose size is checked before anything changes. |
| SwbImage.Runtime.LoadTail | src/swb/swb_read.c:152-174 | Restores heap and functions from the tail, after the same checks. |
| SwbImage.Runtime.Restore | src/swb/swb_read.c:58-85 | All checks come before the first change. |
| SwbImage.Runtime.AddRuntime | src/compiler/funcs.c:102-116 | Adds a function entry unless the table is full. |
| VirtualMachine.Vm.Ensure | src/vm/bcwin.c:28-47 | After it the instruction at the program counter is in the window as far as the code goes, and the machine state is as before. |
| VirtualMachine.Vm.Turn | src/vm/vm.c:411-417 | One turn of the loop through the window is one step of the machine that sees the whole code; what a step does is in `MachineLaws`, `ControlLaws` and `ObjectLaws`. |
| VirtualMachine.Vm.Continue | src/vm/vm.c:411-417 | Any number of turns, whatever the window size and the jumps, gives the result of the machine that sees the whole code. |
| VirtualMachine.Vm.Execute | src/vm/vm.c:385-417 | A run from an entry point with an empty stack, likewise. |
| MachineLaws.Sum | src/vm/vm.c:579 | The byte 0x30 on two integers, and `+` in the language, leave a result congruent to the sum modulo 65536; the stack below and all else stay. |
| MachineLaws.Difference | src/vm/vm.c:580 | 0x31 and `-`: the result plus the right operand is congruent to the left one. |
| MachineLaws.Product | src/vm/vm.c:581 | 0x32 and `*`: the result is congruent to the product. |
| MachineLaws.QuotientAndRemainder | src/vm/ops/arith.c:23-33 | 0x33 with 0x34, and `/` with `%`: the dividend is quotient times divisor plus remainder, the remainder smaller than the divisor and zero or of the sign of the dividend. For -32768 / -1 the quotient is -32768 and the remainder 0. |
| MachineLaws.DivisionUnique | src/vm/ops/arith.c:23-33 | One quotient and one remainder fulfil this law. |
| MachineLaws.DivisionByZero | src/vm/ops/arith.c:23-33 | Division stops, with the error for it, exactly if the divisor is zero. |
| MachineLaws.Ordered | src/vm/vm.c:639-658 | 0x42 to 0x45, and `<`, `<=`, `>`, `>=`, leave true exactly for their order of the integers. |
| MachineLaws.Complements | src/vm/vm.c:639-658 | Exchanging the operands of `<` gives `>`, `>=` is the complement of `<`, and `<=` is `<` or equality. |
| MachineLaws.Equality | src/vm/vm.c:616-637 | 0x40 and 0x41: the two nils are equal, other values when tag and payload are the same. |
| MachineLaws.Unary | src/vm/vm.c:591-615 | 0x35 leaves what cancels its operand modulo 65536, 0x36 the successor, 0x46 the other truth value. |
| MachineLaws.NeedsIntegers | src/vm/vm.c:574-575 | Arithmetic but for `+`, and the comparisons, stop with a type error exactly if an operand is not an integer. |
| ControlLaws.Constants | src/vm/vm.c:420-455 | 0x00 to 0x04 push nil, true, false, the byte behind them, and the two bytes behind them as a 16-bit integer, low byte first; they stop exactly if the stack is full. |
| ControlLaws.Shuffles | src/vm/vm.c:472-502 | What 0x10 to 0x13 leave of two values. |
| ControlLaws.Variables | src/vm/vm.c:503-537 | 0x20 to 0x24: reading pushes what the slot of the table or of the frame holds, writing moves the top of the stack there, and a global must be defined. |
| ControlLaws.JumpsTo | src/vm/vm.c:666-719 | When each jump is taken, where it leads in 16 bits, and what it takes off the stack; a jump out of the code stops. |
| ControlLaws.UnwrapAndHalt | src/vm/vm.c:1108-1114 | Unwrapping stops at a nil and only there. |
| ControlLaws.CallRuns | src/vm/vm.c:1169-1195 | A call runs exactly if its arguments are there, the function exists and takes that many, and fewer than four calls are open. |
| ControlLaws.CallThenReturn | src/vm/vm.c:1169-1218 | A call and a return, with anything between them that leaves the frames below alone: the caller goes on behind the call with its own stack, the arguments replaced by the result. |
| CountedCode.CleanCodeCounts | src/vm/vm.c:616-637 | A condition on the code alone: if no `==` or `!=` is among the places that control can reach in it and its string constants are those of the pool, the counts are exact in every state of every run, whatever it computes. |
| RefCounts.CountsStay | src/vm/vm.c:456-537 | In every state of every run the count of a block is the number of its references from stack, globals and constant pool; at least that, once strings are compared with `==`. |
| RefCounts.StartsCounted | src/runtime/heap.c:52-65 | A run starts with exact counts. |
| RefCounts.NothingDangles | src/runtime/heap.c:90-108 | Every string or array on the stack or in a global is a block of its kind that has not been reclaimed. |
| RefCounts.EqualExactly | src/vm/vm.c:616-637 | `==` keeps the counts exact if and only if neither operand lives on the heap; they never fall short. |
| RefCounts.StepCounted | src/vm/vm.c:417-537 | Every single instruction keeps the counts. |
| RefCounts.ReleaseGood | src/runtime/value.c:26-51 | Releasing one of the references keeps them, also when the topmost block is reclaimed. |
| RefCounts.RetainGood | src/runtime/value.c:13-24 | Retaining keeps them. |
| RefCounts.AllocGood | src/runtime/heap.c:52-65 | A new block comes with the one reference that its maker holds. |
| RefCounts.ReturnCounted | src/vm/vm.c:1197-1236 | Leaving a frame releases exactly the references it held. |
| RefCounts.GrowCounted | src/runtime/array.c:97-148 | A growing array hands its reference over to the new block. |
| HeapStore.Store.Reset | src/runtime/heap.c:29-33 | Zeroes the bytes and empties the heap. |
| HeapStore.Store.Alloc | src/runtime/heap.c:52-65 | A block with count 1 at the bump pointer exactly when it fits. |
| HeapStore.Store.Retain | src/runtime/heap.c:82-88 | One count up in its header, saturating, and no other block changes. |
| HeapStore.Store.Release | src/runtime/heap.c:90-108 | One count down; the bump pointer goes back if the block was the topmost and is dead. |
| HeapStore.Store.Rollback | src/runtime/heap.c:119-123 | Drops the blocks above a savepoint. |
| HeapStore.Store.Savepoint | src/runtime/heap.c:115-117 | The place that going back goes to. |
| HeapStore.RolledBack | src/runtime/heap.c:119-123 | Going back to a savepoint gives the heap of that moment back, whatever has been allocated since. |
| HeapStore.Store.ConstImage | src/runtime/heap.c:130-134 | The used bytes. |
| HeapStore.Store.LoadConst | src/runtime/heap.c:136-141 | The used bytes of another heap give its blocks back. |
| HeapStore.Store.MakeString | src/vm/vm.c:197-211 | A string block with the given bytes, or nothing. |
| HeapStore.Store.ArrayNew | src/runtime/array.c:38-55 | An empty array of the given capacity. |
| HeapStore.Store.ArrayOf | src/runtime/array.c:158-167 | An array of the given elements. |
| HeapStore.Store.ArrayGet | src/runtime/array.c:71-80 | The element, if the index is in range. |
| HeapStore.Store.ArraySet | src/runtime/array.c:82-95 | Replaces the element, if the index is in range. |
| HeapStore.Store.ArrayAppend | src/runtime/array.c:97-148 | Adds in place, or copies to a block of twice the capacity and releases the old one. |
| HeapStore.SlotRoundTrip | src/runtime/array.c:24-36 | An immediate survives its three bytes. |
| ObjectLaws.GetLeaves | src/vm/vm.c:1272-1295 | Reading an array leaves the element, or stops when there is none. |
| ObjectLaws.WriteThenRead | src/vm/vm.c:1296-1323 | After an element is set, the instruction that reads elements finds the new value there and every other element of every array as before; setting stops exactly where reading does. |
| ObjectLaws.AppendThenRead | src/vm/vm.c:1361-1396 | After an append, in place or to a larger block, reading the array that is left finds the old elements and then the new one, and no other array changes. |
| ObjectLaws.NewArrayReads | src/vm/vm.c:1238-1271 | A new array, as it is read, has the topmost values of the stack in the order in which they were pushed. |
| ObjectLaws.LengthLeaves | src/vm/vm.c:1324-1360 | The length of an array is the number of indices that can be read, that of a string the number of its bytes, modulo 65536. |
| ObjectLaws.LeftThenRight | src/vm/vm.c:544-572 | Concatenation, by either instruction, leaves a new string of the bytes of the left one and then those of the right one, and refuses more than 256 bytes. |
| ObjectLaws.LeastAndGreatest | src/vm/vm.c:856-872 | `min` and `max` leave one of the arguments, and no argument is below the one or above the other. |
| Printing.ReadBack | src/runtime/builtins.c:126-138 | The scanner reads the text written for a truth value as its literal and the text of both nils as `nil`; the text of an integer that is not negative is a number of that value. |
| Printing.EqualTexts | src/runtime/builtins.c:126-138 | Two values without heap payload have the same text exactly if they are equal or both nil. |
| Printing.ValueTextIs | src/runtime/builtins.c:104-171 | The text of each value by its characters: `true`, `false`, `nil`, the shortest numeral of an integer, the bytes of a string, and the texts of the elements in order, with comma and blank between them, in brackets. |
| Printing.PrintWrites | src/vm/vm.c:785-798 | `print` adds one line, the texts of its arguments in order with nothing between them, and leaves nil in their place. |
| Printing.LineMeant | src/compiler/statements.c:172-232 | The line that a `print` statement means is these texts of its values. |
| Printing.InterpolationWrites | src/vm/vm.c:1058-1107 | Interpolation leaves a string of this text in place of the value. |
| Lexer.Lexer.SkipTrivia | src/lexer/lexer.c:61-97 | Stops at the first byte that is neither blank nor comment, with the line count right. |
| Lexer.Lexer.LexInt | src/lexer/lexer.c:138-157 | Reads a number up to 65535 as its 16-bit pattern, or fails on a larger one. |
| Lexer.Lexer.LexName | src/lexer/lexer.c:159-174 | Reads a name to its end and tells keywords from names. |
| Lexer.Lexer.LexString | src/lexer/lexer.c:186-251 | Finds the closing quote over escapes and nested parentheses, or fails. |
| Lexer.Lexer.Next | src/lexer/lexer.c:253-379 | The next token of the buffer, which `Spellings.ScansExactly` ties to a grammar of the text, with its place, value and line; errors stay. |
| Spellings.ScansExactly | src/lexer/lexer.c:253-379 | A token grammar on the text, with the spelling of every keyword and operator as a string: blanks and comments, then the keyword or name as long as it goes, the operator that fits and than which none that fits is longer, the number with its value up to 65535, the string with its escapes and interpolations, or none of these. The scanner finds a token exactly if it is the one this grammar has there. |
| Spellings.OneToken | src/lexer/lexer.c:253-379 | The grammar has one token at a place. |
| Spellings.GapIs | src/lexer/lexer.c:60-99 | What is skipped is blanks, tabs and comments, and all there are. |
| SourceWindow.SrcWin.TopUp | src/compiler/srcwin.c:12-22 | Fills the window behind what it holds, whatever pieces the file delivers; the eof flag becomes set if and only if what is left of the file does not fill the window. |
| SourceWindow.SrcWin.Slide | src/compiler/srcwin.c:53-59 | The current token becomes the first and the lexer's offsets move along. |
| SourceWindow.SrcWin.Refill | src/compiler/srcwin.c:43-65 | The place in the file, the token and the line count stay what they were, and so does the eof flag unless the window slides. |
| SourceWindow.SrcWin.Tokens | src/compiler/statements.c:1667-1681 | If scanning ends at the end of file with the eof flag set, the tokens, line numbers included, are those of the whole file up to repeated newlines; a file shorter than the window is scanned exactly. |
| SourceWindow.ScanFile | src/main/compiler_main.c:228-235 | A scan that never slides the window ends with the eof flag set, and so is not refused, if and only if the file is shorter than the window; a file of exactly its size is refused. |
| SourceWindow.LineOfToken | src/lexer/lexer.c:264-284 | The line number of a token is that of the text, with CR LF as one line break, if and only if no CR LF stands before it. |
| SourceWindow.LineAhead | src/lexer/lexer.c:38-43 | After one CR LF the lexer is at line 3 in the second line. |
| SourceWindow.Arrived | src/lexer/lexer.c:253-379 | A token is that of the file, or a line break cut in two, or it was cut at the edge and only the end follows. |
| SourceWindow.LexemeIn | src/lexer/lexer.c:253-379 | A token whose look-ahead stays inside the window is that of the file. |
| SourceWindow.OnlyTheEnd | src/main/compiler_main.c:228-235 | Behind a cut token comes the end of the window, after one more dot at most, so the eof flag tells. |
| InputMethod.Translate | src/platform/apple2/input.c:77-242 | Computes the translation, which `TypingModel.TypesExactly` ties to how lines are typed, also in place, because no byte is overwritten before it is read; the result is never longer than the line. |
| InputMethod.Untranslate | src/platform/apple2/input.c:265-321 | Computes the marked form of a line, within the room it has. |
| InputMethod.LoadThenSave | src/platform/apple2/input.c:246-321 | Loading a line and saving it gives the line back if and only if the typing model can express it; the condition is a walk over the line. |
| InputMethod.CapitalBack | src/platform/apple2/input.c:131-160 | A marker and a letter make the capital again. |
| InputMethod.SpellingKept | src/platform/apple2/input.c:219-233 | Markers neither make nor break digraphs and trigraphs. |
| TypingModel.TypesExactly | src/platform/apple2/input.c:77-242 | A function writes how a line is typed: C99 spellings for braces, brackets, backslash and bar, Ctrl-W for an underscore outside strings, an apostrophe before a capital. The translation of what it writes is the line, for exactly the lines that a walk over them finds typable. |
| TypingModel.CaseRun | src/platform/apple2/input.c:129-168 | Two apostrophes turn every letter up to the next other character into a capital. |
| TypingModel.KeyCase | src/platform/apple2/input.c:77-242 | Whether letters are typed in capitals makes no difference to the translation. |
| TypingModel.EscapedQuote | src/platform/apple2/input.c:178-232 | A backslash typed as a trigraph starts no escape: a quote behind it ends the string. |
| TypingModel.RawEscape | src/platform/apple2/input.c:178-199 | Behind a backslash typed as such, the string goes on. |
| Numerals.ParseInt | src/vm/builtins_xlc.c:275-311 | A string of any length is an integer exactly when it is an optional sign and digits with a value in range, and no intermediate value leaves 16 bits. |
| Numerals.FormatInt | src/vm/vm.c:163-192 | Produces the decimal text. |
| Numerals.PrintThenParse | src/vm/vm.c:163-192 | Every 16-bit integer is read back from its text. |
| Numerals.FormatDenotes | src/vm/vm.c:163-192 | The text of an integer is a numeral with that value. |
| Numerals.GuardExact | src/vm/builtins_xlc.c:299-302 | The guard refuses exactly the numbers beyond the limit. |
| Editor.GapBuf.Insert | src/editor/gapbuf.c:27-32 | Puts a byte at the cursor of the plain text, unless the buffer is full. |
| Editor.GapBuf.DeleteLeft | src/editor/gapbuf.c:34-39 | Removes the byte before the cursor. |
| Editor.GapBuf.DeleteRight | src/editor/gapbuf.c:41-46 | Removes the byte behind the cursor. |
| Editor.GapBuf.MoveLeft | src/editor/gapbuf.c:48-60 | Moves the cursor only, over an overlapping copy. |
| Editor.GapBuf.MoveRight | src/editor/gapbuf.c:62-75 | Likewise to the right. |
| Editor.GapBuf.MoveTo | src/editor/gapbuf.c:77-86 | Moves the cursor to a place, clamped. |
| Editor.GapBuf.Serialize | src/editor/gapbuf.c:97-108 | Writes the text, or as much as fits. |
| Editor.GapBuf.Load | src/editor/gapbuf.c:110-119 | Replaces the text, cursor at its start. |
| Editor.LineFound | src/editor/textnav.c:77-94 | The start of the line with the number of the line of a position is the start of the line of that position. |
| Editor.DownGoes | src/editor/textnav.c:120-132 | Down goes to the next line and to the same column as far as the line reaches. |
| Editor.UpGoes | src/editor/textnav.c:108-118 | Up goes to the line before, likewise. |
| Editor.DownThenUp | src/editor/textnav.c:108-132 | Down and then up comes back if and only if the lower line reaches the column; without a lower line, if and only if there is no upper one. |
| Editor.FindPlace | src/editor/textnav.c:77-94 | The scan for a line by number. |
| Editor.CountLines | src/editor/textnav.c:63-75 | One more than the number of line feeds in the text. |
| Editor.EditorState.Dispatch | src/editor/keymap.c:26-85 | A key does to the gap buffer, the viewport and the dirty flag what it does to the plain text. |
| Editor.EditorState.TypeAll | src/editor/keymap.c:26-85 | So does any series of keys. |
| Editor.StaysInView | src/editor/screen.c:33-41 | Whatever is typed, the line of the cursor stays on the screen. |
| EditorKeys.KeyMoves | src/editor/keymap.c:43-75 | Where each key moves the cursor, by its code: one place, one line up or down to the same column or as far as the line goes, twenty lines likewise, or to an end of the line. |
| EditorKeys.KeyEdits | src/editor/keymap.c:33-82 | Which keys take the byte before the cursor and which put one there, and what the text is then. |
| EditorKeys.KeyActions | src/editor/keymap.c:25-85 | Which keys save, run and quit, which do nothing, and when the text counts as changed. |
| EditorKeys.ScrollsLeast | src/editor/screen.c:33-41 | The screen moves no further than the line of the cursor needs. |
| EditorKeys.IndexCounts | src/editor/textnav.c:49-61 | The number of a line is the number of line feeds before it. |

## Left out

- Strings, arrays and `for` over arrays in the source-language simulation: their meaning depends on heap
  exhaustion, so they are covered for the machine, with exact counts and the byte-level heap, and not for the
  evaluator. String literals and their constants on the heap are therefore absent from `CompileProgram`.
- Arrays whose elements live on the heap: the machine model stops with `OutOfModel` there, because growth of such
  arrays releases moved elements with the old block (`src/runtime/array.c:128-135`).
- Builtins other than `print`, `min`, `max` and decimal conversion: each is a small body of its own.
- Programs.CompilationPreservesMeaning: asks for the discipline on `break` and on the last-byte test named above,
  which is sufficient and not necessary: a bad `break` that is never reached does no harm. It says nothing once
  stack or call frames fill up. What a run that does not end shows is `Boundaries.NothingIsLost`.
- Programs.MachineStopsAsMeant: asks for the same discipline, and that stack and call frames suffice.
- Programs.HowProgramsStop: asks for the same discipline.
- Toolchain.CompileAndRun: asks for the same discipline; the code is compiled into a flat buffer and brought into the
  paged one when it is finished, and `PagedBuffer.Paged.Perform` says that any series of legal operations has the
  same effect on both.
- Boundaries.NothingIsLost: asks for the same discipline, and that stack and call frames suffice.
- Programs.SimBody: asks the function to meet the same two conditions.
- Boundaries.EveryBoundary: asks for the same discipline; the contents of the frames below the innermost one are
  not part of a boundary.
- Relocation.RunsAnywhere: relates a layout to the meaning of the program and asks for the same discipline;
  `Relocation.LayoutsInStep` and `Relocation.LayoutsAgree` do without it.
- Relocation.LayoutsAgree: asks that a body whose last byte is taken for a return leaves on every path; where it does
  not, what runs next is the code that the layout puts there, and `Relocation.EndTogether` says how far the layouts agree.
- StmtSimulation.SimSwitch: asks the last-byte condition of every clause; `Lapses.EndOfClause` says what happens
  without it.
- StmtSimulation.SimBreak: asks that no local was declared since the loop started; `Lapses.BreakLands` says what
  happens otherwise.
- StmtSimulation.SimPrint: the terminator argument of `print` is not modelled.
- ExprSimulation.SimExpr: strings, arrays, members and builtins are not among the expressions.
- Compiler.Parser.CompileStmt: takes a statement as a tree whose expressions are written out as tokens; the
  keywords, braces and separators around them, call-site labels, type annotations, the reserved statement names
  and the terminator argument of `print` are not parsed.
- Compiler.Parser.CompileForIn: the range form only.
- Compiler.CompileProgram: does not say how large a buffer suffices; `Compiler.Parser.Compile` says that a limit is
  reported only where one is reached.
- Compiler.Parser.ParsePrimary: reads no strings, arrays or builtins.
- Compiler.Parser.ParseCall: does not parse argument labels.
- Compiler.Parser.ApplyPostfix: of the postfix forms only the unwrap mark.
- Compiler.Parser.ParseExpression: strings, arrays, members and builtins are left out.
- Compiler.Parser.DeclareParams: labels and types of parameters are not parsed.
- Compiler.Parser.Park: the stack of parked placeholders is unbounded; the original has 24 places and does not
  check them.
- Compiler.Parser.Compile: the heap of string constants is not part of what a failure restores.
- Compiler.Parser.RollBack: the heap of string constants is not part of the compiler model, so its rollback is
  stated for the heap alone (`HeapStore.Store.Rollback`).
- Compiler.Parser.CompileAll: the bytes of the constant heap are not part of the session; `HeapStore.RolledBack` says
  that going back to a savepoint undoes every allocation since.
- SourceText.ReadsText: expressions only; statements and declarations are not read from bytes.
- TypingModel.TypesExactly: one way to type each line; that letters may be typed in either case is
  `TypingModel.KeyCase`, and a run mark for several capitals is `TypingModel.CaseRun`.
- EditorKeys.KeyMoves: after a page the column is given for lines that reach it and bounded by it otherwise.
- Machine.DoArith: on a type error the stopped machine still has the operands on its stack, as after comparisons and
  conditional jumps; the original has popped them, and nothing looks at the stack of a stopped machine.
- Functions declared inside blocks: rotation moves code while absolute positions of placeholders stay parked.
- The type tracker (`src/compiler/types.c`): it accepts unknown types by design and gives no guarantee.
- Redefinition of functions, echo of bare expressions and the session state of the interactive interpreter.
- VirtualMachine.Vm.Execute: the bound on turns stands in for the loop's own end, which a program need not have;
  polling for Ctrl-C at backward jumps is not modelled. A slot of the frame is found without the wrap at 256, which
  32 stack slots and 16 locals never reach.
- RefCounts.CountsStay: arrays hold immediates only, and what it asks of the instructions met is a condition on
  the run; `CountedCode.CleanCodeCounts` has one on the code.
- RefCounts.StepCounted: arrays hold immediates only.
- RefCounts.GrowCounted: arrays hold immediates only.
- CountedCode.CleanCodeCounts: arrays hold immediates only.
- HeapStore.Store.Retain: asks for an offset that is a block or outside the heap, which `RefCounts.NothingDangles`
  gives for every reference that the machine holds; the original does not look.
- HeapStore.Store.Release: asks for the same.
- HeapStore.Store.Rollback: asks for a savepoint between blocks, which is what a savepoint is.
- HeapStore.Store.ArrayOf: immediate elements only, as are the following three.
- HeapStore.Store.ArrayGet: immediate elements only.
- HeapStore.Store.ArraySet: immediate elements only.
- HeapStore.Store.ArrayAppend: immediate elements only.
- Lookup of names longer than 11 bytes against a stored name of 11 bytes, which the clamp can match; names of that
  length are clamped in the grammar and cannot be declared.
- InputMethod.LoadThenSave: assumes that the buffers have room for the marked line; with less room the line is cut
  as the code of the two methods says.
- Hardware, screen rendering, file and directory operations, graphics, the profiler and the disassembler.
