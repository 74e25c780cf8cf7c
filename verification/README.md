# Kuyil: a verified model of the compiler, the avatar machine, the concurrent runtime and the scanners

Kuyil is a scripting language whose C implementation compiles syntax trees to bytecode, runs functions in background "avatars" on a thread pool, and ships a hand-written lexer and HTTP server. This project models those parts in Dafny and proves what they are for.

**Compiler and machine.** `Source` gives the fragment (literals, locals, operators, interpolated strings, arrays, member reads, plain, compound and destructuring assignment, blocks, `let`, `if`, `while`, `for`, `switch`, `return`) a big-step meaning over chains of named scopes. `Compiling.Compiler` is the compiler as it stands: an object with a growing chunk, a table of locals and a scope depth, which emits bytes, patches jumps in place and gives up at its limits. It is proved against `CodeGen`, which says what the bytes are. `Machine` has two machines: a plain one, whose conditional jump peeks and whose POP always pops, and the avatar's, whose taken jump pops, whose POP stops at the locals, whose stack has 2048 cells and whose instructions are counted. `Avatars` is the avatar's run loop on an array, proved against the latter. The main results: source and plain machine agree (`Correctness.CompiledCallAgrees`), plain machine and avatar run in lockstep (`Lockstep.RunsInLockstep`), so an avatar ends as the source says or at the instruction limit (`Correctness.AvatarCorrect`, `EndToEnd.CompileAndRun`), and so does what is read from its handle (`AwaitedResults.AwaitReturnsSource`). `Visits` shows that slots and scopes agree at every statement of every run. Without loops the limit is out of reach and the outcome is exactly the source's (`LoopFrees.LoopFreeExact`). Numbers are bit patterns and every operation on doubles is a parameter, so this holds for any rounding and any formatting.

**What programs mean.** `Operators` and `Conditions` say what the source itself means, without naming the functions it is defined by: small functions (`SmallPrograms`), for all arguments, with the value or the error they end with written out, over any arithmetic and over the integers. Those of `Operators` are about the source and its run in an avatar at once; those of `Conditions` are about the source, except `ConditionsDecide`, which is about both.

**Runtime.** `Pools` is the thread pool as a transition system whose steps are the critical sections; its theorems quantify over all interleavings, with spurious wake-ups. `PoolObjects` and `LinkedQueues` are the linked queues and counters those sections change in place, proved against the same step functions. `Handles` puts avatar handles on top, with `HandleObjects` for the handles and the list they are kept in; `Requests` and `RequestObjects` do the same for the request queue.

**Scanners.** `Lexing` describes one token, `Lexers.Lexer` is the scanner with its loops, `Grammar` is the language's tokens as a table of spellings and a few shapes, which the scanner is proved to follow by longest match, `LexTheorems` and `Relexing` prove what holds over a whole text. `Multipart` is the form parser and `MultipartRoundTrip` its inverse, for headers and keys written in any mix of cases; `Chunked` is the response writer with a decoder of RFC 9112.

## Where the code differs from its intent

* A conditional jump of an avatar pops when it is taken, which the compiler does not expect. `Correctness.TakenJumpLands` and `Correctness.GuardBlocksEarlyPops` show that the guard on POP undoes exactly this in compiled code whose switches have at most one case; with two cases it does not (`TwoCases.TwoCasesFail`).
* Branches treat the number 0 as false while `not`, `and` and `or` do not; `and` and `or` evaluate both operands. The source semantics follows the code.
* A `let` that is the branch of an `if` or the body of a case, without a block, declares its name in the surrounding scope even when the branch is not taken; the name is then without a value. The source semantics says so (`Declare`), and reading such a name is unspecified.
* A cancelled handle may be awaited before its task has run (`Handles.CancelledTooEarly`); `Handles.AwaitExact` says exactly, from the schedule, when an await is right.
* An HTTP request dispatched without a client is never settled (`Requests.DispatchExact` says exactly when, `Requests.StrandedRun` is such a run).
* Section 5.1.1 of RFC 2046 only forbids a boundary at the start of a line of data. The parser looks for it anywhere; `MultipartRoundTrip.RoundTrip` gives the exact condition on the data, `MultipartRoundTrip.MidLineBoundary` a form that fails it.
* A boundary of 253 characters or more fills the buffers of both delimiters, so the parser cannot tell the next part from the end (`MultipartRoundTrip.LongBoundary`).
* The lexer's line counter passes over a newline that follows a backslash in a quoted or plain backtick literal: `LexTheorems.LinesRight` says exactly when it is right, `LexTheorems.LineMissed` is a text where it is not.

## Model

| member | source | states |
|---|---|---|
| `Chunks.Chunk.Write` | src/compiler.c:36-66 | appends one byte and changes no other byte and no constant, also when the buffer is full and grows |
| `Chunks.Chunk.AddConstant` | src/compiler.c:68-103 | appends the value to the pool and returns its index; bytes and earlier constants are untouched |
| `Chunks.Chunk.Patch` | src/compiler.c:189-199 | overwrites the two operand bytes at an offset and no other byte |
| `Compiling.Compiler.MakeConstant` | src/compiler.c:211-219 | gives up exactly when the pool has 65536 entries |
| `Compiling.Compiler.EmitConstant` | src/compiler.c:221-236 | emits the short or the long instruction with the index of the new constant |
| `Compiling.Compiler.EmitJump` | src/compiler.c:182-187 | emits opcode and two 0xFF bytes and returns where they are |
| `Compiling.Compiler.PatchJump` | src/compiler.c:189-199 | fails exactly when the distance needs more than 16 bits; otherwise the placeholder becomes the jump over what was emitted since, and nothing else changes |
| `Compiling.Compiler.EmitLoop` | src/compiler.c:201-209 | fails exactly when the distance needs more than 16 bits; otherwise the jump goes back to the given start |
| `Compiling.Compiler.BeginScope` | src/compiler.c:239-241 | one scope deeper, same locals |
| `Compiling.Compiler.EndScope` | src/compiler.c:243-256 | drops exactly the locals declared since the scope was entered; the recorded maximum stays |
| `Compiling.Compiler.AddLocal` | src/compiler.c:258-274 | appends the name to the table, or fails exactly when 256 locals are in it |
| `Compiling.Compiler.ResolveLocal` | src/compiler.c:276-284 | the innermost slot of that name, or -1 |
| `Compiling.Compiler.CompileExpression` | src/compiler.c:753-816 | emits the code of the expression (`CodeGen.GenExpr`), or fails exactly when the pool would overflow |
| `Compiling.Compiler.CompileIdentifier` | src/compiler.c:337-351 | a local is read from its slot, any other name by its constant |
| `Compiling.Compiler.CompileInterpolatedString` | src/compiler.c:353-385 | as `CompileExpression`, for interpolated strings of any number of pieces |
| `Compiling.Compiler.CompileBinary` | src/compiler.c:387-410 | as `CompileExpression`: both operands, left first, then the operator |
| `Compiling.Compiler.CompilePlainAssignment` | src/compiler.c:541-652 | as `CompileExpression`: the value, then the store, whose value stays on the stack |
| `Compiling.Compiler.CompileCompoundAssignment` | src/compiler.c:541-652 | as `CompileExpression`: the old value, the operand, the operator, the store |
| `Compiling.Compiler.CompileDestructuring` | src/compiler.c:541-652 | as `CompileExpression`: each target takes the element of its position |
| `Compiling.Compiler.CompileArrayLiteral` | src/compiler.c:654-662 | as `CompileExpression`: the elements in order, then their number modulo 256 |
| `Compiling.Compiler.CompileVarDecl` | src/compiler.c:864-905 | the new name takes the next slot before its initializer is compiled; fails exactly on the limits of `StmtFits` |
| `Compiling.Compiler.CompileIf` | src/compiler.c:1495-1513 | condition, two branches that both start with POP, both jumps patched; fails exactly on the limits of `StmtFits` |
| `Compiling.Compiler.CompileWhile` | src/compiler.c:1515-1546 | condition, exit jump, body, jump back, POP; fails exactly on the limits of `StmtFits` |
| `Compiling.Compiler.CompileFor` | src/compiler.c:1548-1602 | initializer in a scope of its own, then the loop with its update after the body; fails exactly on the limits of `StmtFits` |
| `Compiling.Compiler.CompileSwitch` | src/compiler.c:1435-1493 | cases in order, every end jump patched to the common end; fails exactly on the limits of `StmtFits` |
| `Compiling.Compiler.CompileReturn` | src/compiler.c:1604-1611 | the value or nil, then RETURN |
| `Compiling.Compiler.CompileBlock` | src/compiler.c:1745-1755 | the statements in order in a scope whose slots are free again afterwards |
| `Compiling.Compiler.CompileStatement` | src/compiler.c:1686-1743 | any statement of the fragment: succeeds if and only if it respects the limits, and then exactly its code has been appended, its names declared and its peak of locals recorded |
| `Compiling.CompileFunction` | src/compiler.c:907-988 | compilation succeeds if and only if the function respects the limits, and its bytes, constants and local count are then those of `Lockstep.Compile` |
| `Bytecode.DecodeEncode` | src/avatar_runtime.c:279-314 | reading an encoded instruction gives it back, wherever it stands |
| `Bytecode.EncodedAsNumbered` | src/bytecode.h:7-87 | an instruction begins with the position of its name in the enumeration of opcodes |
| `Bytecode.DistanceEncoded` | src/compiler.c:182-199 | the distance of a jump follows its opcode, high byte first |
| `Relation.RelLookup` | src/compiler.c:276-284 | the slot chosen for a name holds the value of its innermost live declaration; a name has a slot if and only if it is in scope |
| `Relation.RelUpdate` | src/compiler.c:617-629 | writing that slot assigns the innermost declaration and no other variable |
| `Relation.RelDeclare` | src/compiler.c:258-274 | a declared name takes the next slot, whatever stale value is in it, and no other variable changes |
| `Relation.RelLeave` | src/compiler.c:243-256 | leaving a scope frees its slots and keeps every outer variable |
| `Relation.RelBind` | src/compiler.c:941-955 | parameters are the first slots; missing arguments are nil |
| `Simulation.SimExpr` | src/compiler.c:753-816 | from any height, the code of an expression ends one higher with its value on top, everything below except assigned locals untouched, or with the same error |
| `Statements.SimStmt` | src/compiler.c:1686-1743 | the code of a statement ends at the height it started from, with the variables of the source run, or returns the same value, fails with the same error, or keeps running as long as the source does |
| `Statements.SimLoop` | src/compiler.c:1515-1602 | the same for loops of both kinds, for any number of turns |
| `Statements.SimCases` | src/compiler.c:1443-1492 | cases from any position on: values are evaluated in order up to the first match, that body runs, else the default |
| `Statements.SimSwitch` | src/compiler.c:1435-1493 | switch with any number of cases under peeking jumps: one evaluation of the scrutinee, the first equal case, and the stack height restored on every path |
| `Statements.SimFunction` | src/compiler.c:907-988 | a whole body, falling off the end returning nil |
| `Correctness.CompiledCallAgrees` | src/compiler.c:907-988 | compiler correctness on the plain machine, for every body, arguments and number of loop turns |
| `Correctness.AvatarReports` | src/avatar_runtime.c:234-311 | an avatar reports what the plain machine has reached after 100000 instructions |
| `Correctness.LimitReached` | src/avatar_runtime.c:237-311 | the limit ends a run if and only if the plain machine is still going after 100000 instructions |
| `Correctness.AvatarCorrect` | src/avatar_runtime.c:159-975 | compiler correctness on an avatar: the same value or error as the source, or the instruction limit |
| `Correctness.OnlyOperandFaults` | src/avatar_runtime.c:265-311 | compiled code never trips the instruction pointer check, underflows, overflows, misses a constant or meets an unknown opcode |
| `Correctness.StackBounded` | src/opcode_executor.h:30-62 | at every step the stack is between the locals and the locals plus the need computed from the body |
| `Correctness.StackCapacity` | src/opcode_executor.h:45-52 | in any program, compiled or not, the stack holds at most 2048 values at every step |
| `Correctness.RefusalIsFinal` | src/opcode_executor.h:45-52 | in any program, after a push that was refused for want of room no run ends with a value |
| `Correctness.TakenJumpLands` | src/avatar_runtime.c:844-876 | a taken conditional jump lands on a POP with nothing above the locals; for the case of a switch, on two POPs with the scrutinee above them |
| `Correctness.GuardBlocksEarlyPops` | src/avatar_runtime.c:515-534 | the guard on POP blocks a pop if and only if a taken jump has made it already: the machines differ and the plain one has one value above the locals; without cases, if and only if they differ |
| `Lockstep.RunsInLockstep` | src/avatar_runtime.c:234-311 | at every step of every run avatar and plain machine agree up to that one early pop, for code whose switches have at most one case |
| `Lockstep.FunctionTyped` | src/compiler.c:182-209 | every compiled function obeys the height discipline, and its jumps land on instructions of the right height |
| `Boundaries.JumpsLandOnStarts` | src/compiler.c:182-209 | decoding from the first byte, no instruction is cut off and every jump leads to the start of an instruction inside the code |
| `Boundaries.OperandsInBounds` | src/compiler.c:951-955 | every slot is below the recorded local count, every constant is in the pool, every opcode is one the avatar has |
| `LoopFrees.NeverCut` | src/avatar_runtime.c:237-311 | a function without loops, of at most 100000 bytes, never meets the instruction limit: every instruction leads forward |
| `LoopFrees.LoopFreeExact` | src/avatar_runtime.c:159-975 | such a function ends in an avatar with exactly the value or the error of its source |
| `TwoCases.TwoCasesFail` | src/compiler.c:1435-1493 | a concrete switch of two cases: the source returns nil, the avatar ends with a stack underflow |
| `Visits.SlotsAtEveryStatement` | src/compiler.c:239-284 | at every statement a run comes to, however nested and in whatever turn of a loop, also in runs that return, fail or never end: the machine comes to its code, and the slot of each name in scope holds its value |
| `EndToEnd.CompileAndRun` | src/avatar_runtime.c:159-987 | the compiler object followed by the run loop: compilation succeeds and the outcome is the one of the source, or the limit, which is out of reach without loops |
| `Operators.NumbersCombine` | src/opcode_executor.c:143-488 | for any arithmetic: source and avatar both apply the operation of each operator to the operands in their order, with the two zero checks, and `a > b` asks whether b is less |
| `Operators.NumbersWanted` | src/opcode_executor.c:143-488 | anything but two numbers is refused by the numeric operators |
| `Operators.Converse` | src/opcode_executor.c:386-488 | `a > b` is `b < a` and `a >= b` is `b <= a`, for operands of every type |
| `Operators.SubUndoesAdd` | src/opcode_executor.c:33-167 | wherever subtraction undoes addition, `a + b - b` returns a in source and avatar |
| `Operators.WholeNumbers` | src/opcode_executor.c:33-488 | over the integers every operator is the one of mathematics, and dividing by 0 is the error |
| `Operators.Negation` | src/opcode_executor.c:262-285 | `-a`: the negated number, or the error |
| `Operators.Truth` | src/opcode_executor.c:287-345 | `and`, `or` and `not` take exactly nil and false to be false, and the first two return an operand |
| `Operators.Equality` | src/opcode_executor.c:18-31 | equal are nil and nil, equal booleans, strings and numbers, and nothing else |
| `Operators.TextsJoin` | src/opcode_executor.c:50-104 | a string and a value of each type, on either side: which text comes out, in order |
| `Operators.OtherSums` | src/opcode_executor.c:105-139 | two arrays are joined in order; all other sums are the error |
| `Operators.Interpolation` | src/avatar_runtime.c:412-449 | an interpolated string: the literal texts and the text of each value by its type, in order |
| `Operators.Literals` | src/compiler.c:312-335 | a literal is its own value |
| `Operators.Elements` | src/opcode_executor.c:524-568 | `a[b]` on an array: the element at that position, or which index missed which size |
| `Operators.NotIndexed` | src/opcode_executor.c:540-547 | what cannot be indexed, and the number of its type in the error |
| `Operators.FieldFound` | src/opcode_executor.c:625-714 | `a.p` and `a[p]` on an object: the first field of that name |
| `Operators.FieldMissing` | src/opcode_executor.c:625-714 | and nil when there is none |
| `Operators.Properties` | src/opcode_executor.c:625-714 | arrays and strings have a length, their other properties are nil, and the rest has none |
| `Operators.Assignments` | src/compiler.c:541-652 | `=`, `+=` and `-=`: the value of the assignment and the variable afterwards |
| `Operators.LeftFirst` | src/compiler.c:387-410 | the left operand is evaluated first, seen from an assignment on either side |
| `Conditions.ConditionsDecide` | src/avatar_runtime.c:844-876 | a condition is false for exactly nil, false and the number zero |
| `Conditions.SwitchPicks` | src/compiler.c:1435-1493 | source of a switch of two cases: the first case of the same value, else the default |
| `Conditions.SumOfFirst` | src/compiler.c:1548-1602 | source of a counting loop: the first n whole numbers add up to n(n + 1)/2, for every n |
| `Conditions.ScopesHide` | src/compiler.c:239-284 | source: a variable of a block hides the outer one inside the block only; one of the same scope replaces it |
| `Conditions.NilByDefault` | src/compiler.c:864-988 | source: a bare return, a body without one, a variable without an initializer and a parameter without an argument are nil |
| `Conditions.SwapsBoth` | src/compiler.c:541-652 | source of `[a, b] = [b, a]`: both are taken before either is assigned |
| `Avatars.SetUp` | src/avatar_runtime.c:159-230 | arguments first, nil in the other local slots; refused exactly when arguments or locals exceed the stack |
| `Avatars.ExecContext.Push` | src/opcode_executor.h:45-52 | grows the stack by the value, or raises the error flag and leaves it alone when full |
| `Avatars.ExecContext.Pop` | src/opcode_executor.h:30-43 | removes and returns the top, or raises the error flag when empty |
| `Avatars.ExecContext.Add` | src/opcode_executor.c:33-140 | the whole effect on stack and error: numbers, strings, arrays, anything else an error |
| `Avatars.ExecContext.Numeric` | src/opcode_executor.c:143-488 | the step of the machine for the operators on two numbers, which `Operators.NumbersCombine` and `Operators.WholeNumbers` pin down operator by operator |
| `Avatars.ExecContext.Logic` | src/opcode_executor.c:304-345 | eager `and` and `or`, with zero counting as true |
| `Avatars.ExecContext.Equality` | src/opcode_executor.c:348-383 | equality by type and value; arrays and objects are never equal |
| `Avatars.ExecContext.ArrayCreate` | src/opcode_executor.c:490-521 | takes that many elements off the stack, in the order they were pushed |
| `Avatars.ExecContext.ArrayGet` | src/opcode_executor.c:524-568 | the element, or the error for container, index type or range |
| `Avatars.ExecContext.ObjectGet` | src/opcode_executor.c:625-714 | length, field or nil, or the error |
| `Avatars.ExecContext.ObjectSet` | src/opcode_executor.c:717-772 | updates the field or appends it, and pushes the object back |
| `Avatars.ExecContext.FindField` | src/opcode_executor.c:625-714 | the loop finds the first field of that name |
| `Avatars.ExecContext.GetLocal` | src/opcode_executor.c:775-785 | pushes the slot |
| `Avatars.ExecContext.SetLocal` | src/opcode_executor.c:787-800 | stores the top in the slot and keeps it on the stack |
| `Avatars.ExecContext.Execute` | src/avatar_runtime.c:314-975 | every instruction that neither jumps nor returns does what the step function says |
| `Avatars.GuardedPop` | src/avatar_runtime.c:515-534 | pops only above the locals |
| `Avatars.Step` | src/avatar_runtime.c:314-975 | one turn of the loop is one step of the avatar machine |
| `Avatars.RunAvatar` | src/avatar_runtime.c:159-311 | the run loop terminates and leaves the outcome of the avatar machine |
| `StructCode.GenerateFromJson` | src/compiler.c:1109-1183 | succeeds if and only if the constants fit, and then emits exactly the code below |
| `StructCode.GenerateToYaml` | src/compiler.c:1187-1257 | succeeds if and only if the constants fit, and then emits exactly the code below |
| `StructCode.FromJsonRuns` | src/compiler.c:1109-1183 | the bytes, run on any value, give an object of the right `__type` built from the fields, or the property error |
| `StructCode.BuiltLookup` | src/opcode_executor.c:717-772 | in the object built, every field is the lookup in the input (nil if missing) and nothing else has changed |
| `StructCode.BuiltInOrder` | src/opcode_executor.c:717-772 | with distinct names the fields come in order of declaration |
| `StructCode.ToYamlRuns` | src/compiler.c:1187-1257 | the bytes return, for every field in order, the first 127 characters of its name, colon and space, then its text and a newline; names of up to 125 characters come out whole; without fields the object itself, without properties the error |
| `LinkedQueues.LinkedQueue.Enqueue` | src/thread_pool.c:222-231 | appends at the tail; head, tail and links stay a proper list |
| `LinkedQueues.LinkedQueue.Dequeue` | src/thread_pool.c:63-69 | takes the oldest; head, tail and links stay a proper list |
| `LinkedQueues.LinkedQueue.Drain` | src/thread_pool.c:172-186 | frees every node |
| `Pools.WorkerCount` | src/thread_pool.c:107-125 | at every step of every run the pool has as many workers as were asked for; if none were, one for each processor, or four |
| `PoolObjects.ThreadPool.Submit` | src/thread_pool.c:195-235 | refuses after the shutdown and otherwise appends and counts: the submit step of the system |
| `PoolObjects.ThreadPool.Look` | src/thread_pool.c:50-73 | wait, exit or take the oldest: the look step of the system |
| `PoolObjects.ThreadPool.Publish` | src/thread_pool.c:83-94 | appends to the completion queue and touches nothing else |
| `PoolObjects.ThreadPool.Pick` | src/thread_pool.c:242-256 | takes the oldest completion |
| `PoolObjects.ThreadPool.ProcessCompletions` | src/thread_pool.c:237-271 | with nobody else at work, calls back the first completions in order, as many as there are or as asked for |
| `PoolObjects.ThreadPool.Destroy` | src/thread_pool.c:158-193 | frees what is left in both queues |
| `Pools.NextInv` | src/thread_pool.c:47-271 | every step keeps: no lost wake-up, closing, FIFO order and count, and one place for every task |
| `Pools.RunInv` | src/thread_pool.c:47-271 | the invariants hold after every run, whatever the interleaving and the spurious wake-ups |
| `Pools.NeverAllAsleep` | src/thread_pool.c:50-73 | queued work never coexists with a pool that is asleep: if somebody waits, somebody is woken |
| `Pools.ExactlyOnce` | src/thread_pool.c:63-98 | no accepted task is executed twice; a callback fires at most once and only after its task |
| `Pools.DrainedAtExit` | src/thread_pool.c:158-170 | when all workers have left, every accepted task has been executed, the queue is empty, and each is called back, freed, still to be called back or thrown away |
| `Pools.CallbacksAccounted` | src/thread_pool.c:237-271 | a task with a callback is then called back, being called back, still waiting, or was thrown away by the destructor |
| `Pools.CallbacksInOrder` | src/thread_pool.c:83-98 | in every run before the destructor, callbacks are called in the order in which tasks were published, and the completion queue holds the rest in that order |
| `Pools.StepsDrain` | src/thread_pool.c:54-61 | after the shutdown a measure of queued, running and remaining workers falls at every worker step and never rises |
| `Pools.DrainBounded` | src/thread_pool.c:158-170 | so in any run after the shutdown the worker steps are bounded by that measure |
| `Pools.DrainProgress` | src/thread_pool.c:54-61 | and every worker that has not left can take a step |
| `Pools.ClosedForGood` | src/thread_pool.c:214-220 | after the shutdown nothing is accepted |
| `Handles.RunInv` | src/avatar_runtime.c:990-1189 | over all interleavings of pool steps, completions, cancels and awaits: results are stored before a task function returns, and an uncancelled handle completes only after that |
| `Handles.AwaitsFinal` | src/avatar_runtime.c:1153-1189 | every await of a handle not cancelled returns the one final result |
| `Handles.CompletedAfterRun` | src/avatar_runtime.c:990-1003 | a completed handle that was not cancelled has run and holds its final result |
| `Handles.AwaitExact` | src/avatar_runtime.c:1143-1189 | an await reads something else than the final result if and only if that is not nil, the handle has been cancelled, and the worker running its task has not stored a result yet, all told from the schedule |
| `Handles.CompletedForGood` | src/avatar_runtime.c:990-1003 | completed never reverts and a stored result never changes |
| `Handles.CancelledTooEarly` | src/avatar_runtime.c:1143-1151 | submit, cancel, await: the concrete run in which an await sees nil instead of the result |
| `AwaitedResults.AwaitReturnsSource` | src/avatar_runtime.c:1153-1189 | compiler, avatar, pool and handle together: an await of a handle not cancelled returns what the source of its function returns, or nil on an error or at the instruction limit, which is out of reach without loops |
| `HandleObjects.AvatarHandle.Store` | src/avatar_runtime.c:315-356 | the result is in the handle; nothing else changes |
| `HandleObjects.AvatarHandle.Complete` | src/avatar_runtime.c:990-1003 | marks the handle completed and nothing else: the completion step above |
| `HandleObjects.AvatarHandle.Cancel` | src/avatar_runtime.c:1143-1151 | marks the handle completed, whatever its task is doing: the cancel step above |
| `HandleObjects.AvatarHandle.Await` | src/avatar_runtime.c:1153-1189 | reads the result exactly when the await step above is enabled, and reads what that step records |
| `HandleObjects.AvatarRuntime.Link` | src/avatar_runtime.c:1097-1102 | puts a handle in front of the list and counts it |
| `HandleObjects.AvatarRuntime.Unlink` | src/avatar_runtime.c:1107-1125 | takes a handle out of the list, wherever it is, and keeps the others in order |
| `HandleObjects.AvatarRuntime.Submit` | src/avatar_runtime.c:1045-1134 | a fresh handle in front of the list and its task in the pool, or, exactly after the shutdown, neither |
| `Requests.RunInv` | src/async_request_queue.c:60-397 | over all interleavings: ids unique, stage, status and number of dispatches agree, answers stay true |
| `Requests.FindsOwn` | src/async_request_queue.c:399-459 | a lookup by id finds that request, not another |
| `Requests.DispatchedOnce` | src/async_request_queue.c:285-346 | a request is dispatched at most once, not before it is claimed, and exactly once if it is settled |
| `Requests.Forward` | src/async_request_queue.c:203-346 | a status only moves from pending over processing to completed or error, and the last ones are final |
| `Requests.WaitTrue` | src/async_request_queue.c:348-397 | a wait answered true exactly for a completed request, which still is completed |
| `Requests.AnswerExact` | src/async_request_queue.c:203-346 | in every run: a waiter is told true if and only if the transfer ended with a status code from 200 to 299 or the file operation succeeded, and false if and only if it ended otherwise |
| `Requests.DispatchExact` | src/async_request_queue.c:309-330 | dispatching can lead to an answer if and only if the request is for a file or there is an HTTP client |
| `Requests.StrandedForever` | src/async_request_queue.c:309-330 | without a client an HTTP request stays in processing for good and a wait for it is never answered |
| `Requests.StrandedRun` | src/async_request_queue.c:285-346 | a concrete run, with no client set, after which a wait is never answered whatever happens |
| `RequestObjects.AsyncRequestQueue.CreateRequest` | src/async_request_queue.c:60-79 | a fresh pending request with the next id |
| `RequestObjects.AsyncRequestQueue.EnqueueRequest` | src/async_request_queue.c:81-92 | appends it |
| `RequestObjects.AsyncRequestQueue.Lookup` | src/async_request_queue.c:438-459 | the first request of that id, or none if there is none |
| `RequestObjects.AsyncRequestQueue.GetStatus` | src/async_request_queue.c:419-436 | its status; an unknown id reads as an error |
| `RequestObjects.AsyncRequestQueue.Process` | src/async_request_queue.c:285-346 | the loop over the list does the sweep below to the requests, in place |
| `RequestObjects.AsyncRequestQueue.TryWait` | src/async_request_queue.c:348-397 | an unknown id is answered false at once; otherwise the waiter goes on, or answers whether the request was completed |
| `RequestObjects.Req.HttpDone` | src/async_request_queue.c:204-230 | the callback is the step of the system, in every state where the request is in transfer; `Requests.AnswerExact` says what that means for a waiter |
| `RequestObjects.TreatIsSteps` | src/async_request_queue.c:299-335 | what the loop does to a pending request is a claim, a dispatch and, for a file, its completion in the system above; it counts exactly what it dispatches |
| `RequestObjects.SweepAt` | src/async_request_queue.c:285-346 | a request is treated if and only if fewer than the maximum were counted before it |
| `RequestObjects.SweepCount` | src/async_request_queue.c:285-346 | the count reported is that of the countable requests, cut off at the maximum |
| `Lexing.KeywordsExact` | src/lexer.c:162-252 | the decision tree accepts exactly the table of reserved words |
| `Lexers.Lexer.SkipWhitespace` | src/lexer.c:123-160 | skips exactly the blanks and comments and counts their newlines |
| `Lexers.Lexer.Word` | src/lexer.c:254-257 | the longest word, classified |
| `Lexers.Lexer.Number` | src/lexer.c:259-271 | digits, and a fraction only if a digit follows the point |
| `Lexers.Lexer.QuotedString` | src/lexer.c:273-320 | ends at the first quote that is not escaped; counts the newlines that are not escaped |
| `Lexers.Lexer.BacktickString` | src/lexer.c:322-375 | the two kinds of backtick literal and their line counts |
| `Lexers.Lexer.Symbol` | src/lexer.c:418-469 | the sign `Scan` describes; `Grammar.ScanLongest` ties it to the table of spellings |
| `Lexers.Lexer.ScanToken` | src/lexer.c:407-470 | the token at the next position that is no gap, position and line counter moved accordingly |
| `Lexers.Tokenize` | src/main.c:203-242 | the tokenizing loop returns all tokens up to the end of the file, or nothing if and only if one of them is an error |
| `Grammar.ScanLongest` | src/lexer.c:407-470 | against a table of spellings and the shapes of words, numbers and literals: the scanner takes the longest token there is, of the one kind it can be, and reports an error exactly where there is none |
| `Grammar.TokensLongest` | src/lexer.c:407-470 | so is every token of a text, and none begins like a blank or a comment |
| `LexTheorems.SkipIsGap` | src/lexer.c:123-160 | what is skipped consists of blanks and comments only |
| `LexTheorems.TokensTile` | src/lexer.c:407-470 | gaps and tokens follow one another without overlap up to the end |
| `LexTheorems.TokensCover` | src/lexer.c:407-470 | their texts concatenate to the source |
| `LexTheorems.TokensBounded` | src/lexer.c:407-470 | the end of the file comes within one more token than there are characters |
| `LexTheorems.TokenLinesExact` | src/lexer.c:273-375 | the counter falls short of the newlines of a token by exactly those after an escaping backslash in a quoted or plain backtick literal |
| `LexTheorems.LinesExact` | src/lexer.c:273-375 | over a whole text: lines counted plus escaped newlines are all newlines |
| `LexTheorems.LinesRight` | src/lexer.c:273-375 | the line counter is right at the end of the text if and only if no literal has a newline after an escaping backslash |
| `LexTheorems.LineMissed` | src/lexer.c:273-295 | quote, backslash, newline, quote: a text of one newline of which none is counted |
| `Relexing.ScanCopied` | src/lexer.c:407-470 | a token scans the same wherever a copy of its text is followed by a space or the end |
| `Relexing.RelexSame` | src/lexer.c:407-470 | joining the token texts with single spaces and scanning again gives the same kinds and texts |
| `Multipart.ReadContentType` | src/async_http_server.c:569-577 | the two loops give the header value without leading spaces |
| `Multipart.ParseForm` | src/async_http_server.c:493-614 | the loop over the body collects the fields `Parse` describes; `MultipartRoundTrip.RoundTrip` says which these are for written forms |
| `MultipartRoundTrip.SpeltResembles` | src/async_http_server.c:547-570 | the search that ignores case finds exactly what is spelt in any mix of cases, by a table of letter pairs |
| `MultipartRoundTrip.HeadersRead` | src/async_http_server.c:546-567 | name and file name are read back, however the header and the keys mix their cases, also when they contain colons or equals signs |
| `MultipartRoundTrip.TypeRead` | src/async_http_server.c:569-577 | the content type is read back, whatever the case of its header and the number of spaces after it, and none is found when none was written |
| `MultipartRoundTrip.CutFound` | src/async_http_server.c:579-608 | clean data is cut exactly where it ends |
| `MultipartRoundTrip.CutShort` | src/async_http_server.c:579-608 | data that is not clean loses its tail |
| `MultipartRoundTrip.RoundTrip` | src/async_http_server.c:493-614 | a form written with a boundary, its headers and keys in any mix of cases, is parsed to exactly its fields, in order, if and only if no field has the boundary with its dashes before a line break or two dashes in its data |
| `MultipartRoundTrip.MidLineBoundary` | src/async_http_server.c:582-595 | a concrete form that section 5.1.1 of RFC 2046 allows and the parser cuts short: the boundary ends a line of the data |
| `MultipartRoundTrip.EmptyFormRefused` | src/async_http_server.c:516-522 | a form without fields is refused |
| `MultipartRoundTrip.LongBoundary` | src/async_http_server.c:503-506 | a boundary of 253 characters or more fills both buffers, which are then the same, and a form gives at most one field |
| `Chunked.SendBody` | src/async_http_server.c:690-769 | what is written, and the framing announced for it |
| `Chunked.PiecesAre` | src/async_http_server.c:736-759 | chunks are not empty, hold at most 8192 bytes, are full but for the last, and make up the body |
| `Chunked.HexRead` | src/async_http_server.c:743-747 | the hexadecimal size reads back |
| `Chunked.DecodeEncode` | src/async_http_server.c:733-763 | a receiver for section 7.1 of RFC 9112 gets exactly the chunks, one zero chunk at the end |
| `Chunked.Delivered` | src/async_http_server.c:690-769 | whatever the body, a receiver that honours the announced framing gets it back; up to 8192 bytes go out whole with their number announced, more in chunks |

## Left out

- Switches of two or more cases on the avatar machine: the popping jump and the POP that follows remove the scrutinee after the first miss (`TwoCases.TwoCasesFail`), so these are proved only for peeking jumps (`Statements.SimSwitch`), the convention `src/vm.c:3053-3057` follows; `Lockstep.WithinLimits` with `Single` admits one case.
- Object literals with two or more properties (their extra copies stay on the stack), `object.member = value`, and stores to array elements.
- Nested calls, call frames above the first, function declarations inside functions, globals, library calls and decorators. Reading or writing a global is `Unspecified` in the source and `Outside` or `Left` in the machines.
- `break`, `continue`, `defer`, `await`, `avatar`, interfaces, and the generators for `toJSON` and `fromYAML`.
- Logging and debugging instructions, and constants with a two-byte index inside avatars, which an avatar does not know.
- Rounding, NaN and the `%g` text of numbers: every operation on doubles is a parameter.
- Line tables of chunks, columns of tokens, and all printing.
- Failure of memory allocation and overflow of C integers, among them the 32-bit request id.
- Aliasing of arrays and objects between values: the fragment has no operation that changes a value in place.
- Chunks.Chunk.Write: the line number written beside each byte is left out.
- Compiling.Compiler.MakeConstant: at the limit the code reports an error on a missing node and dereferences null; the model gives up there.
- Compiling.Compiler.EmitConstant: at the limit it gives up, as `Compiling.Compiler.MakeConstant` does.
- Compiling.Compiler.PatchJump: on an overlong jump the code dereferences null in its error report; the model gives up there.
- Compiling.Compiler.EmitLoop: on an overlong loop the code dereferences null in its error report; the model gives up there.
- Compiling.Compiler.AddLocal: at 256 locals the code dereferences null in its error report; the model gives up there.
- Avatars.ExecContext.Execute: instructions for globals, calls and libraries leave the model.
- Avatars.Step: instructions for globals, calls and libraries leave the model.
- Avatars.RunAvatar: a run that reaches such an instruction is reported as having left the model.
- `compile_array_literal` with more than 255 elements emits the count modulo 256; `CodeGen` says so, and the correctness theorems exclude it.
- StructCode.GenerateFromJson: opening a scope and declaring the parameter emit no byte and are left out, and so is the code around the method that defines it as a global; the generated function records no locals.
- StructCode.GenerateToYaml: the same is left out as for `StructCode.GenerateFromJson`.
- PoolObjects.ThreadPool.ProcessCompletions: the loop is stated with nobody else at work; its steps interleave freely in `Pools`.
- RequestObjects.AsyncRequestQueue.Process: the pass is stated with nobody else at work; its steps interleave freely in `Requests`.
- RequestObjects.AsyncRequestQueue.TryWait: waiting with a timeout is left out.
- HandleObjects.AvatarRuntime.Submit: the copy of the arguments and failing allocations are left out.
- Chunked.SendBody: of the headers only the framing they announce is modelled.
- The avatar runtime's destructor, readers of its pending counter (which no completion lowers), timeouts of waits, clocks and signals.
- Freeing the request queue while requests are in flight, and the bodies of HTTP transfers and file reads.
- Joining threads: the destructor's step is enabled when every worker has left, which `Pools.DrainBounded` and `Pools.DrainProgress` show must come.
- Request parsing outside the multipart body, routing, static files, headers of responses, and writes that send less than asked.
- Multipart.ParseForm: growing the array of fields is modelled as appending to a sequence.
- MultipartRoundTrip.RoundTrip: asks that names and file names hold no quotes or line breaks and do not imitate the header keys the parser searches for, that content types do not start with a space or imitate the file name key, and that the boundary fits the 256-byte buffers.
- Chunked.Delivered: the receiver accepts no chunk extensions and no trailers, which the writer never sends.
- The unused helpers for string parts in the lexer, and its error reports.
