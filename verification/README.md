# LOOK: a verified model of its engines, scheduler, decoders and algorithms

LOOK runs every program on two engines: a tree-walk interpreter, which is the reference, and a
compiler to register bytecode with a virtual machine. Underneath are a fiber scheduler,
channels, a task counter, HTTP and IMAP services and a few self-contained algorithms. This
project models that logic in Dafny and proves what the code is relied upon for.

`dafny verify dfyconfig.toml` checks everything.

## What is modelled

**Compiler and interpreter.** `Values`, `Syntax`, `Interpreter` and `Bytecode` are the language
subset, its tree-walk meaning (with fuel, so that divergence is covered) and the machine for the
opcodes used. The operators are shared, uninterpreted functions, except comparison for equality
and truth, which both sides share as well: `Meanings` says on whole compiled functions what they
answer, without naming them. `CodeGen` says what the compiler emits, with symbolic targets for
jumps that are patched later. `FunctionCompiler` is the compiler itself as a class that appends to
code, keeps patch lists, patches, allocates and frees registers; every method is proved equal to
`CodeGen` (`Patching` and `CompilerSteps` hold the algebra). The simulation is built up through
`RegisterDiscipline`, `ScopeDiscipline`, `GenFacts` (what is live, what is a local), `ExprProof`,
`LeafProof`, `EffectProof`, `SwitchProof` (straight code), `Unwinding`, `Transfers`, `WorldSteps`
(where control goes and which `finally` blocks run on the way), `StmtShapes` and `StmtProof`, to
`Theorems`.

A function is *well-formed* (`Theorems.WellFormed`) under conditions a compiler could check on
the syntax: `&&` and `||` occur where only truth counts; a `finally` block transfers no control
out, uses only names declared outside it, and does not assign a bare local that a `return` under
it yields; `write` is not given a bare local; no two literals are `==` but different; the step of
a `for` assigns only declared names; `++` is applied to locals. For `write`, the literals, the
returned local and `++`, `Divergences` proves on concrete programs that the two engines really
disagree without them, and at any point of any program when exactly they do; for `&&` and `||`
`RawValues` does. The conditions on transfers out of `finally`, on the names it uses and on the
step of a `for` are what the proofs ask for; no program is given on which they matter.

**Scheduler.** `Scheduler` takes each locked region, and the unlocked RUNNING store, as one atomic
step; `IoWaits` adds descriptor waits, deadlines and offloaded jobs, `PoolWaits` the queue for
database connections; `FiberScheduler` is the class whose methods are those steps.

**Channels and task slots.** `Channel` and `TaskSlots`: interleaved steps of any number of
parties, and the classes that take them. As in `cpp/include/look/interpreter.h:233-234` a channel
made with capacity 0 is unbuffered and holds one value.

**Decoders.** `ChunkedBody` (incremental and batch chunked decoding, with 64-bit lengths),
`HttpClient` (the stream sink and the whole response) and `HttpServer` (chunked and sized request
bodies). `HexSizes` is what a size line means, `ChunkedGrammar` the bodies of section 4.1 of RFC
7230, `HttpResponses` whole messages composed of lines and bodies. The header parser is a
parameter.

**Algorithms.** `MergeSort`, `Calendar`, `Prototypes`, `Formatter` (with `FormatLayout`, the
layout told by character positions), `Imap` (with `ImapMeanings`, what its parts mean), `Base64`,
`RateLimit` (with `RateRuns`, the runs of the limiter over all its clients).

## Where the code and its promises part

- `write($x)` of a bare local leaves the local null in compiled code.
- Literals that are `==` share a constant: `1000` and `1000.0` become one value, and beyond 2^53
  so do an integer and the nearest float.
- `&&` and `||` leave the raw operand in compiled code, a bool in the interpreter.
- `return $x` under a `finally` that assigns `$x` returns the new value in compiled code.
- `++` on a name that is no local stores the global in compiled code.
- Two fibers waiting on one descriptor: the first is never woken.
- `resume_fiber` on a RUNNING fiber is forgotten at a voluntary yield.
- A fiber waiting for a connection that somebody else resumes stays in `pool_waiters_`: the next
  notification goes to it, and a fiber that does wait is passed over.
- A wait without a time limit, on a descriptor another fiber waits on with one, inherits that limit.
- A task slot attempt can be refused while no task runs.
- The client adds up the length of a chunk in 64 bits. Where the sum wraps, what is decoded
  depends on how the network split the bytes, or the decoder emits the same chunk for ever; the
  batch loop, which counts from the start of the body, is sent back and may never end.
- A chunk size line of more than 63 bytes is accepted or refused by the server depending on how
  the network split it; shorter lines never are.
- A limit below 60 requests a minute is not kept: a bucket earns at least one request a second.
- A spuriously failed exchange in the token bucket lets one request more through.
- IMAP sequence sets: a list is read as everything between its first number and the number behind
  its first colon, so `1,3:5` stores flags on message 2 as well; without a colon only its first
  number is read, and a word means message 1.
- A mail renamed by another session is announced a second time during IDLE; a flag doubled in a
  file name survives its removal.
- The formatter does not count brackets behind the end of a string that began on an earlier line:
  after a call whose string spans two lines everything is indented once more.

## Model

| member | source | states |
|---|---|---|
| Theorems.CompilerCorrect | cpp/src/compiler.cpp:259-328 | For every well-formed function, all arguments and every choice of the operators: the compiled function halts with a value and an output if and only if the tree-walk interpreter returns that value with that output. |
| Theorems.DivergenceCorrect | cpp/src/interpreter.cpp:2284-2376 | The interpreter never finishes a well-formed call exactly when the machine runs for ever; the machine never gets stuck and no exception leaves it. |
| Theorems.ReturnsOnce | cpp/src/interpreter.cpp:2284-2376 | However much the interpreter is given to run, a call returns one value and one output. |
| Theorems.FunctionSim | cpp/src/compiler.cpp:259-328 | Step-bounded simulation behind both theorems: with any fuel either both sides end alike, or the machine is still running after nearly as many steps. |
| Theorems.JumpsPatched | cpp/src/compiler.cpp:98-104 | In the code of every function, well-formed or not, every jump has been patched and lands on an instruction of that code. |
| StmtProof.StmtSim | cpp/src/interpreter.cpp:846-1081 | The code of any statement ends at its last address, or at the target of its break, continue or return, exactly as the interpreter's statement does, with equal locals and output, after running the `finally` blocks in between. |
| StmtProof.StmtsSim | cpp/src/compiler.cpp:331-336 | The same for statement lists. |
| StmtProof.BlockSim | cpp/src/compiler.cpp:331-336 | The same for blocks, whose locals give their registers back. |
| StmtProof.LoopSim | cpp/src/interpreter.cpp:870-892 | The same for while and for loops: test, body, step, jump back, break and continue. |
| StmtProof.SwitchSim | cpp/src/interpreter.cpp:996-1031 | The same for switch: the first case that equals the subject, else the last default; break ends the case, continue goes to the loop outside. |
| StmtProof.TrySim | cpp/src/interpreter.cpp:937-995 | The same for try: the `finally` block runs once on the normal path and once on every transfer out of the protected block. |
| StmtProof.PendSim | cpp/src/compiler.cpp:578-587 | The inlined pending `finally` blocks, from the transfer down to the floor of its target, run exactly once each, innermost first, with the effect of the interpreter's unwinding. |
| StmtProof.ReturnSim | cpp/src/compiler.cpp:589-600 | Return with pending `finally` blocks yields the value computed before them. |
| ExprProof.RunExpr | cpp/src/compiler.cpp:1222-1478 | The code of an expression leaves its value in the result register and changes no register that was in use. |
| RawValues.RawAgrees | cpp/src/compiler.cpp:1485-1508 | The value the compiled code computes is the interpreter's, for expressions whose short-circuit parts are only tested; in general it has the same truth. |
| RawValues.LogicalExact | cpp/src/interpreter.cpp:1412-1413 | For the short-circuit operators the two engines give the same value exactly when the deciding operand is a bool. |
| RegisterDiscipline.ExprFacts | cpp/include/look/compiler.h:59-167 | Compiling an expression hands out only registers that were free, returns all but the result, and never a local's. |
| RegisterDiscipline.AllocFacts | cpp/include/look/compiler.h:75-104 | A register handed out was in nobody's hands. |
| ScopeDiscipline.PopFacts | cpp/src/compiler.cpp:153-160 | Leaving a scope takes away exactly its locals and frees exactly their registers. |
| GenFacts.StmtFacts | cpp/src/compiler.cpp:340-430 | A statement adds locals only to its own scope, in registers that were free, under names that were not locals. |
| Unwinding.ExecPossible | cpp/src/interpreter.cpp:1032-1033 | A well-placed statement only transfers control to a loop, switch or function that is there. |
| EnvFacts.ExecGrows | cpp/src/interpreter.cpp:859-892 | Executing a statement changes no scope but by assignment and declaration in the innermost one. |
| Emission.StmtIn | cpp/src/compiler.cpp:90-104 | Every jump of a statement's code stays inside it or goes to an open loop or switch; every constant is a literal of the function. |
| SwitchProof.FindCase | cpp/src/compiler.cpp:899-933 | The comparisons reach the case the interpreter selects, or the default. |
| Meanings.TruthExact | cpp/src/interpreter.cpp:86-98 | Over whole compiled functions that test their argument by if, else, while, for, the ternary operator, negation or a short-circuit operator: they halt with the false answer if and only if the argument is null, false, 0, 0.0, the empty text or the text 0, with the true one otherwise, and with nothing else. |
| Meanings.TestedCall | cpp/src/interpreter.cpp:859-892 | The interpreter's call of each of these functions answers the same. |
| Meanings.EqualExact | cpp/src/interpreter.cpp:232-254 | So for `==`, `!=` and the cases of a switch: two arguments are told equal if and only if they are the same value, or an integer and the float nearest to it. |
| Meanings.SameExact | cpp/src/interpreter.cpp:232-254 | What equality of values is, without conversions between kinds. |
| Meanings.NearestRounds | cpp/src/interpreter.cpp:99-105 | The float of an integer is the multiple of its spacing with 53 significant bits that is nearest to it, of two the even one. |
| Meanings.OperatorExact | cpp/src/compiler.cpp:1283-1478 | Every operator, compound assignment and step, compiled in a whole function, gives its own result of its operands in their order; a step adds or takes away one; `??` gives the second operand exactly for null. |
| Meanings.OutputExact | cpp/src/compiler.cpp:764-785 | What `write` puts out in the compiled function: a text as it is, another value as it is shown, all arguments in order, one separated from the next as the source does. |
| Meanings.TourWell | cpp/src/compiler.cpp:259-328 | A program with a counting loop, continue, break, assignments, a return out of a protected block and its `finally` meets the conditions of the theorems. |
| Divergences.WriteClobbersLocal | cpp/src/compiler.cpp:764-785 | A concrete function on which the engines differ: after `write($x)` the compiled code has lost `$x`. |
| Divergences.WriteExact | cpp/src/compiler.cpp:764-785 | After `write($y)` of a local the two engines' locals agree if and only if `$y` was null. |
| Divergences.LiteralsMerge | cpp/src/compiler.cpp:108-116 | For every integer outside -128..127: a function using it and the float it is compared as returns different values on the two engines. |
| Divergences.TwinIs | cpp/src/interpreter.cpp:229-242 | That float is the one of the same value up to 2^53; for 2^53 + 1 it is 2^53, so these two literals merge as well. |
| Divergences.ConstExact | cpp/src/compiler.cpp:108-116 | A constant is loaded as itself if and only if every pool entry that is `==` to it is identical to it. |
| Divergences.ReassignedReturn | cpp/src/compiler.cpp:589-600 | A concrete function that returns a bare local its `finally` assigns: the engines agree if and only if the two values are equal. |
| Divergences.ReturnExact | cpp/src/compiler.cpp:578-600 | Wherever a bare local declared outside the pending blocks is returned: the machine returns what the local holds after the blocks, so it agrees with the value computed before them if and only if they leave the local as it was. |
| Divergences.GlobalIncrement | cpp/src/compiler.cpp:1283-1345 | A concrete function on which `++` of a name that is no local changes the global in compiled code and a local in the interpreter: the engines agree if and only if adding one changes nothing. |
| Divergences.IncrementExact | cpp/src/compiler.cpp:1283-1345 | Wherever `++` or `--`, prefix or postfix, meets a name that is no local: the machine stores the global and keeps every local, the interpreter declares the name in the innermost scope; behind that scope they agree on the name if and only if its value did not change. |
| FunctionCompilers.FunctionCompiler.Compile | cpp/src/compiler.cpp:259-328 | The running compiler either fails for a stated reason or yields exactly the prototype the theorems are about; it calls a statement misplaced only if one is. |
| FunctionCompilers.FunctionCompiler.CompileStmt | cpp/src/compiler.cpp:340-430 | What any statement appends to the code, lists in the open loops and switches, and does to registers, locals and constants. |
| FunctionCompilers.FunctionCompiler.CompileBlock | cpp/src/compiler.cpp:331-336 | The same for a block. |
| FunctionCompilers.FunctionCompiler.CompileIf | cpp/src/compiler.cpp:604-619 | If and else, with their jumps patched. |
| FunctionCompilers.FunctionCompiler.CompileWhile | cpp/src/compiler.cpp:623-645 | While: lists of the popped entry patched, the jump back emitted. |
| FunctionCompilers.FunctionCompiler.CompileFor | cpp/src/compiler.cpp:649-684 | For: the step behind the body, `continue` patched to it. |
| FunctionCompilers.FunctionCompiler.CompileSwitch | cpp/src/compiler.cpp:899-968 | Switch: comparisons first, each body patching the jumps to it, ends and breaks patched behind. |
| FunctionCompilers.FunctionCompiler.CompileTry | cpp/src/compiler.cpp:788-854 | Try, catch and finally: the `finally` block pending while the protected and catch blocks compile, then emitted on both paths. |
| FunctionCompilers.FunctionCompiler.EmitPendingFinallys | cpp/src/compiler.cpp:578-587 | The pending blocks above the floor are emitted innermost first and are pending again afterwards. |
| FunctionCompilers.FunctionCompiler.CompileReturn | cpp/src/compiler.cpp:589-600 | Return, its register held while pending blocks compile. |
| FunctionCompilers.FunctionCompiler.CompileBreak | cpp/src/compiler.cpp:402-410 | Break: pending blocks, then a jump listed in the innermost entry; refused only outside all of them. |
| FunctionCompilers.FunctionCompiler.CompileContinue | cpp/src/compiler.cpp:411-430 | Continue: past the switches to the innermost loop, with its address if known, else listed there. |
| FunctionCompilers.FunctionCompiler.CompileExpr | cpp/src/compiler.cpp:1222-1478 | Any expression, into a given register or one of its choice. |
| FunctionCompilers.FunctionCompiler.CompileLogical | cpp/src/compiler.cpp:1485-1508 | Short circuit, both operands into one register, the jump patched. |
| FunctionCompilers.FunctionCompiler.CompileAssign | cpp/src/compiler.cpp:1100-1180 | Assignments to locals, plain and compound, declaring new names. |
| FunctionCompilers.FunctionCompiler.PatchAll | cpp/src/compiler.cpp:98-104 | Exactly the listed jumps get the address. |
| FunctionCompilers.FunctionCompiler.AddConstant | cpp/src/compiler.cpp:108-116 | The first constant `==` to the value is reused, else it is appended, up to 65535. |
| FunctionCompilers.FunctionCompiler.LeaveScope | cpp/src/compiler.cpp:153-160 | The locals of the scope, last first, give their registers back. |
| FunctionCompilers.FunctionCompiler.Resolve | cpp/src/compiler.cpp:179-182 | The innermost local of a name. |
| FunctionCompilers.RegisterAllocator.AllocReg | cpp/include/look/compiler.h:75-87 | Last freed first, else the next; refused only when 255 are in use. |
| FunctionCompilers.RegisterAllocator.FreeReg | cpp/include/look/compiler.h:89-104 | Parameters, pinned and already free registers are not returned. |
| Patching.AfterPatch | cpp/src/compiler.cpp:98-104 | Patching jumps that no open entry lists changes just those jumps of the symbolic code. |
| Patching.Popped | cpp/src/compiler.cpp:630-636 | Popping an entry: its lists hold exactly the jumps emitted for it, the outer lists are right without it. |
| Patching.Closed | cpp/src/compiler.cpp:638-645 | Patching the two lists of a popped entry gives every jump of the body its address. |
| Scheduler.Placement | cpp/src/fiber_posix.cpp:340-388 | In every interleaving each unfinished fiber is the one taken off `ready_`, or in `ready_` exactly once, or WAITING and in `waiting_` exactly once; never in two places. |
| Scheduler.StepInv | cpp/src/fiber_posix.cpp:340-388 | Each atomic step, the unlocked RUNNING store among them, keeps the invariant behind that. |
| Scheduler.CompleteWhenEmpty | cpp/src/fiber_posix.cpp:430-448 | When the loop finds nothing ready and nothing waiting, every fiber spawned is DONE. |
| Scheduler.ResumeWaiting | cpp/src/fiber_posix.cpp:570-585 | A resume that finds the fiber WAITING puts it in `ready_` at once. |
| Scheduler.ResumeSuspending | cpp/src/fiber_posix.cpp:367-377 | A resume that finds it SUSPENDING is not lost, whatever other threads do before the switch is handled. |
| Scheduler.NoLostWakeup | cpp/src/fiber_posix.cpp:570-593 | Both cases together. |
| Scheduler.YieldForgets | cpp/src/fiber_posix.cpp:381-386 | A resume that finds the fiber RUNNING is forgotten if its next switch is a voluntary yield; if it suspends first, it is woken. |
| Scheduler.ReadyTurn | cpp/src/fiber_posix.cpp:339-347 | Fibers run in the order they were queued: whatever else happens, the k-th in the queue is at its front after k were taken, and the next one taken. |
| PoolWaits.PoolCount | cpp/src/fiber_posix.cpp:541-568 | Over every run a fiber stands in the queue for a connection as often as it stood there and has suspended for it since, less the times it was popped or taken out by its own switch. |
| PoolWaits.StandsOnce | cpp/src/fiber_posix.cpp:541-557 | A fiber that suspended for the pool stands there exactly once until it is popped or taken out. |
| PoolWaits.PoolFifo | cpp/src/fiber_posix.cpp:550-565 | First in, first out: those standing there and those that enter are those popped, in that order, and those still there, as long as no switch takes one out. |
| PoolWaits.KthPop | cpp/src/fiber_posix.cpp:559-567 | So the k-th pop takes the k-th waiter. |
| PoolWaits.PoolOrder | cpp/src/fiber_posix.cpp:367-386 | In every run the waiters stand in the order of their suspensions, each place going back to one of its own. |
| PoolWaits.PopWakes | cpp/src/fiber_posix.cpp:559-594 | The waiter popped and resumed is queued at once, or, while it is still switching out, when its switch is handled. |
| PoolWaits.StaleNotified | cpp/src/fiber_posix.cpp:559-594 | A waiter somebody else resumed keeps its place: the next notification goes to it, and the one that does wait stays where it is. |
| IoWaits.WaitsResolveOnce | cpp/src/fiber_posix.cpp:401-428 | With distinct descriptors and only the loop waking I/O waiters: waits and wake-ups balance, so each wait is resumed exactly once, and a fiber is awaited exactly while it is out. |
| IoWaits.TimeoutExact | cpp/src/fiber_posix.cpp:424-427 | Over every such run: when a fiber reads its timeout flag it reads true exactly when its last wake, since it read the flag before, was by the deadline sweep. |
| IoWaits.SweepExact | cpp/src/fiber_posix.cpp:493-520 | The deadline sweep takes exactly the expired keys off both tables and wakes their fibers as timed out, in order. |
| IoWaits.DeadlineExact | cpp/src/fiber_posix.cpp:401-415 | Over every run after a wait with a deadline in which its registration is not taken or replaced: a sweep at or after exactly that time collects the fiber as late, an earlier one leaves it, an event collects it in time. |
| IoWaits.NoDeadline | cpp/src/fiber_posix.cpp:401-415 | A wait without one is taken by no sweep, if no deadline was left on the descriptor. |
| IoWaits.DeadlineInherited | cpp/src/fiber_posix.cpp:409-412 | A second wait on a descriptor, without a deadline, keeps that of the first. |
| IoWaits.SharedFdLosesWaiter | cpp/src/fiber_posix.cpp:405-416 | A second wait on the same descriptor overwrites the first fiber's only registration. |
| IoWaits.LostForGood | cpp/src/fiber_posix.cpp:405-416 | That fiber stays WAITING in every continuation in which nobody else resumes it. |
| IoWaits.OffloadWakes | cpp/src/fiber_posix.cpp:135-151 | Once an offloaded job's own resume has returned and the yield is handled, its fiber is not WAITING and leaves the loop at its next check, spurious wake-ups included. |
| FiberSchedulers.FiberScheduler.AfterSwitch | cpp/src/fiber_posix.cpp:352-388 | The scheduler object's handling of a fiber's return is the atomic step proved about. |
| FiberSchedulers.FiberScheduler.ResumeFiber | cpp/src/fiber_posix.cpp:570-593 | So is `resume_fiber`. |
| FiberSchedulers.FiberScheduler.SweepDeadlines | cpp/src/fiber_posix.cpp:493-520 | So is the deadline sweep, in the order the table lists them. |
| FiberSchedulers.FiberScheduler.WaitReadable | cpp/src/fiber_posix.cpp:401-428 | So is the registration of a timed wait, a timer without descriptor included. |
| FiberSchedulers.EraseFirst | cpp/src/fiber_posix.cpp:356-359 | `std::find` and `erase`: the first occurrence goes. |
| Channels.Conservation | cpp/src/interpreter.cpp:413-471 | In every run the accepted values are the delivered ones followed by the queue, and the queue never exceeds the capacity. |
| Channels.NothingAfterClose | cpp/src/interpreter.cpp:466-471 | Nothing is accepted after close. |
| Channels.ReceiveExact | cpp/src/interpreter.cpp:448-464 | A receive yields null only when closed and empty, else the oldest accepted value. |
| Channels.Rendezvous | cpp/src/interpreter.cpp:433-444 | Over every run of an unbuffered channel: once a task has pushed a value, and while its send is in flight and the channel open, the send may return exactly when that value has been delivered, in the place it was accepted in; until then it is what is queued. |
| Channels.StepInv | cpp/src/interpreter.cpp:413-471 | Each step of any sender, receiver or closer keeps the channel's invariant. |
| Channels.LetThrough | cpp/src/interpreter.cpp:413-471 | Over every run: accepted is what was pushed, in order; a send is let in exactly while the channel is not closed and fewer values than its capacity wait, at least one, and fails exactly after a close; a receive goes on exactly when a value waits or the channel is closed. |
| Channels.ReturnsFreely | cpp/src/interpreter.cpp:433-446 | A buffered send returns at once, every send after a close; only an unbuffered one that may not return yet times out. |
| Channels.LookChannel.Send | cpp/src/interpreter.cpp:413-446 | The send past its wait: refused when closed, else the value is queued last. |
| Channels.LookChannel.Recv | cpp/src/interpreter.cpp:448-464 | The receive past its wait. |
| TaskSlots.SlotsBounded | cpp/src/parallel_runtime.cpp:40-92 | In every interleaving of the separate counter steps admitted tasks never exceed the limit, and the counter is admitted tasks plus attempts in flight. |
| TaskSlots.ZeroWhenDone | cpp/src/parallel_runtime.cpp:83-92 | The counter is at most zero exactly when no task and no attempt is left. |
| TaskSlots.RejectedExact | cpp/src/parallel_runtime.cpp:40-48 | An attempt fails exactly when tasks and attempts in flight already reach the limit. |
| TaskSlots.RejectedWhileFree | cpp/src/parallel_runtime.cpp:40-48 | So an attempt can fail although no task runs at all. |
| TaskSlots.TaskCounter.Release | cpp/src/parallel_runtime.cpp:83-92 | What a release leaves in the counter. |
| MergeSort.Sort | cpp/src/extra_stdlib.cpp:346-361 | The in-place sort, for any comparator at all, ends, stays in bounds and permutes the array. |
| MergeSort.SortPermutes | cpp/src/extra_stdlib.cpp:346-361 | A comparator that answers differently on every call still only permutes. |
| MergeSort.SortStable | cpp/src/extra_stdlib.cpp:346-361 | For a strict weak order the result is sorted, and elements the order does not tell apart keep their order. |
| MergeSort.MergeRuns | cpp/src/extra_stdlib.cpp:350-357 | The inner merge of two neighbouring runs. |
| MergeSort.OnePass | cpp/src/extra_stdlib.cpp:348-359 | One pass over all pairs of runs. |
| ChunkedBodies.SplitIndependent | cpp/src/http_client.cpp:412-432 | If every announced length fits 64 bits, or wraps only at the end of the stream and the loop ends there, every splitting gives the chunks and the state of one feed, and every feed ends. |
| ChunkedBodies.SplitExact | cpp/src/http_client.cpp:412-432 | For every stream a string can hold: one feed ends and all splittings give what it gives if and only if that condition holds. |
| ChunkedBodies.SplitsDiffer | cpp/src/http_client.cpp:427-429 | Where it fails and the loop ends, the stream has a place at which cutting it changes the chunks. |
| ChunkedBodies.AllFitSteady | cpp/src/http_client.cpp:427-429 | In particular it holds if every announced length fits. |
| ChunkedBodies.DrainRounds | cpp/src/http_client.cpp:415-430 | The loop of a feed ends after the chunks the model gives, or emits one more in every round for ever. |
| ChunkedBodies.WrapDiffers | cpp/src/http_client.cpp:427-429 | With a size of 2^64 - 1 one feed of four bytes of data emits all four, the same bytes in two pieces only the first. |
| ChunkedBodies.WrapHangs | cpp/src/http_client.cpp:427-429 | With a size of 2^64 - 20 on a line of 16 digits neither the feed nor the batch loop ever ends, whatever follows. |
| HttpClient.SinkSplitIndependent | cpp/src/http_client.cpp:434-470 | Through the sink: if the body is not chunked or meets that condition, it does not depend on the splitting; nor do the chunks of a chunked one. |
| HttpClient.SinkSplitExact | cpp/src/http_client.cpp:434-470 | And only then. |
| ChunkedBodies.BatchIsDrain | cpp/src/http_client.cpp:345-367 | From any place on, the batch loop is endless where the decoder hangs; else it puts out the decoder's chunks and the part of an incomplete last one, and ends there unless the length, counted from the start of the body, wraps and sends it back: then it goes on from that place. |
| ChunkedBodies.BatchExact | cpp/src/http_client.cpp:345-367 | The two decodings agree on a body if and only if the decoder ends and the batch loop is not sent back, or finds nothing where it is sent. |
| ChunkedBodies.BatchGoesBack | cpp/src/http_client.cpp:350-364 | A body on which the decoder emits its one chunk and waits, while the batch loop starts over for ever. |
| HttpClient.SinkIsBatch | cpp/src/http_client.cpp:345-370 | For a response whose status line is accepted and that is steady as above, in whatever pieces it came: a plain body is the one parsed in one go before decompression; a chunked one is, with the part of an incomplete last chunk, if and only if the batch loop is not sent back or finds nothing there. |
| ChunkedBodies.DecodeBatch | cpp/src/http_client.cpp:348-367 | The batch loop over a 64-bit index, cut off after any number of rounds, computes that function of its rounds. |
| ChunkedBodies.StoulTrimmed | cpp/src/http_client.cpp:419-424 | Trimming the size line, which only the incremental decoder does, never changes the size. |
| ChunkedBodies.ChunkedDecoder.Feed | cpp/src/http_client.cpp:412-432 | The decoder object's loop, cut off after any number of chunks, computes the rounds those lemmas are about; it ends as the model says, and not at all where the model hangs. |
| HttpClient.StreamSink.Feed | cpp/src/http_client.cpp:444-461 | So is the sink object's. |
| HexSizes.MeansExact | cpp/src/http_client.cpp:419-424 | The digits of a size mean what a numeral of base 16 means, told by repeated division, letters of either case, zeros in front allowed. |
| HexSizes.NumeralRead | cpp/src/http_client.cpp:419-424 | Every size below 2^64, written by repeated division in either case, is read back. |
| HexSizes.StoulReads | cpp/src/http_client.cpp:424 | A text of blanks, a sign, a prefix, digits and anything else is read as its number, negated modulo 2^64 behind a minus sign, unless the number does not fit 64 bits. |
| HexSizes.StoulSplits | cpp/src/http_client.cpp:424 | And every text that is read at all is so composed. |
| ChunkedGrammar.DrainEncoded | cpp/src/http_client.cpp:412-432 | On every body of the chunked grammar the decoder emits exactly the data of the chunks, one by one, and is done at the last line. |
| ChunkedGrammar.BodyDelivered | cpp/src/http_client.cpp:345-432 | However the network cut it; and the batch loop gives all of it. |
| HttpResponses.HeaderLinesRead | cpp/src/http_client.cpp:322-339 | Header lines are read as they were written, and so is where the body begins. |
| HttpResponses.HeaderLinesJoin | cpp/src/http_client.cpp:322-339 | Whatever the text, its lines and body joined give it back, up to a blank line that is missing. |
| HttpResponses.ChunkedDelivered | cpp/src/http_client.cpp:444-465 | Of a chunked response, in whatever pieces it came, the callback gets exactly the data of the chunks, one call each, in order, and the caller of the batch parser the payload. |
| HttpResponses.PlainDelivered | cpp/src/http_client.cpp:444-465 | A plain body reaches both whole and unchanged. |
| HttpServer.ReadChunkedBody | cpp/src/http_server.cpp:348-413 | The reader computes a function of what is at hand, the reads to come and the cap; for every recv split what is accepted is the chunked decoding of the stream and within the cap; 413 is given only for a body over it; with size lines of at most 63 bytes, nothing over the raw limit and every read in time, acceptance is decided by the stream alone. |
| HttpServer.AnswerExact | cpp/src/http_server.cpp:365-370 | For a complete message within the limits all quick splittings get one answer if and only if its size lines have at most 63 bytes. |
| HttpServer.AnswersDiffer | cpp/src/http_server.cpp:365-370 | With a longer line such a message is accepted in one read and refused byte by byte. |
| HttpServer.ParseEncoded | cpp/src/http_server.cpp:370-402 | That decoding yields the payload of every message the chunked-body grammar of section 4.1 of RFC 7230 generates. |
| HttpServer.ParseGrammar | cpp/src/http_server.cpp:370-402 | And accepts nothing else: what it decodes is generated by the grammar, payload and all. |
| HttpServer.ParseExtends | cpp/src/http_server.cpp:365-396 | More bytes never change what has been decoded. |
| HttpServer.StrictExact | cpp/src/http_server.cpp:374-384 | A strict size line is exactly a numeral of base 16 below 2^64 that ends the line or stands before its first semicolon. |
| HttpServer.BodyAccepted | cpp/src/http_server.cpp:348-413 | A message of the grammar within the limits, from a peer that does not dawdle, in whatever pieces it comes, is accepted, and the body is its payload. |
| HttpServer.Interrupted | cpp/src/http_server.cpp:356-369 | While what has come is not complete but could still be accepted: a read that is too slow ends it as timed out, the end of the connection or more than one mebibyte over the cap as a bad request. |
| HttpServer.ReadSizedBody | cpp/src/http_server.cpp:537-565 | With a Content-Length the body is exactly its first bytes behind the header, for every split; complete exactly when enough arrive. |
| Prototypes.NeedsInterpreter | cpp/src/http_main.cpp:392-414 | The search ends on cyclic graphs and answers yes if and only if some reachable prototype loads a qualified name that is no global; the name reported is one. |
| Prototypes.Search.Visit | cpp/src/http_main.cpp:392-414 | One call of the search, with the shared set of visited prototypes. |
| Prototypes.SettledPath | cpp/src/http_main.cpp:396 | What has been visited without a hit is closed under reachability. |
| Prototypes.LoadedIs | cpp/src/http_main.cpp:399-401 | The name an instruction loads: that of the text constant whose place has the two operands as its high and low byte. |
| Calendar.NextIsOneMore | cpp/src/date_stdlib.cpp:136-143 | In every year, negative ones too, the day number of the next day is one more. |
| Calendar.Epoch | cpp/src/date_stdlib.cpp:136-143 | The first of January 1970 is day 0. |
| Calendar.AfterIsMore | cpp/src/date_stdlib.cpp:136-143 | Day numbers count days: n days later is n more. |
| Calendar.OrderExact | cpp/src/date_stdlib.cpp:136-143 | They order dates as the calendar does and never take two for one. |
| Calendar.DayNumberIs | cpp/src/date_stdlib.cpp:136-143 | The era arithmetic is the closed form with floors. |
| Calendar.LeapIs | cpp/src/date_stdlib.cpp:75-79 | The leap rule in truncating remainders is the Gregorian one for negative years too. |
| Calendar.DiffCounts | cpp/src/date_stdlib.cpp:341-350 | The day branch of `date::diff` counts calendar days; the week branch whole weeks, toward zero. |
| Calendar.Overflowing | cpp/src/date_stdlib.cpp:136-143 | A day past the end of its month counts on into the next months. |
| Formatter.FormatIdempotent | cpp/src/format_src.cpp:74-119 | Formatting twice is formatting once, for every source and whatever the token check answers. |
| Formatter.FormattedTwice | cpp/src/format_src.cpp:74-113 | The layout itself is a fixed point. |
| Formatter.LayoutKeeps | cpp/src/format_src.cpp:84-108 | The layout changes only indentation, trailing blanks and blank lines outside strings. |
| Formatter.FormatSource | cpp/src/format_src.cpp:74-119 | The loops over lines and over the trailing newlines compute that function. |
| FormatLayout.FormattedLayout | cpp/src/format_src.cpp:74-113 | Line by line of the formatted text: every line that begins outside a string is empty or stands behind four spaces for each bracket open before it, less those it begins by closing, never below none; the lines are those of the source, stripped, with one gap for each run of gaps, up to the last that is not empty; one newline ends the text. |
| FormatLayout.LayoutLaid | cpp/src/format_src.cpp:98-107 | The layout from any line on keeps that indentation. |
| FormatLayout.LayoutMarks | cpp/src/format_src.cpp:84-96 | It keeps every line's content, the lines inside strings, and one of each run of gaps, in their order. |
| FormatLayout.NoTwoGaps | cpp/src/format_src.cpp:91-94 | So no two gaps follow each other. |
| FormatLayout.ScanIs | cpp/src/format_src.cpp:19-45 | The scan of a line finds the string it leaves open, its brackets and its front closers, as they are told by character positions outside strings and comments. |
| FormatLayout.ContentExact | cpp/src/format_src.cpp:47-54 | Stripping takes the blanks in front and the blanks and carriage returns behind, and nothing else. |
| FormatLayout.LinesJoin | cpp/src/format_src.cpp:75-76 | The lines of a text, joined, are the text with its last line ended. |
| FormatLayout.BracketsAlign | cpp/src/format_src.cpp:98-107 | A line that begins by closing what an earlier line left open, with everything between closed again, is indented as that line. |
| FormatLayout.DepthExact | cpp/src/format_src.cpp:84-90 | The depth is that of all brackets if and only if every line that begins inside a string has brackets behind it that cancel out, or that only close what is not open. |
| FormatLayout.StringDrift | cpp/src/format_src.cpp:84-90 | A call whose string ends on the next line: what follows the call is indented. |
| Formatter.ScanLoop | cpp/src/format_src.cpp:19-45 | The scanning loop: quotes, escapes, comments, depth and leading closers. |
| Formatter.SplitJoined | cpp/src/format_src.cpp:75-76 | Lines joined and read again are the same lines. |
| Imap.SessionAgrees | cpp/src/imap_server.cpp:532-808 | Over every session a client that applies EXISTS and EXPUNGE in the order sent holds at each position the message the server's snapshot holds there, and is never sent a number it does not know. |
| Imap.StepAgrees | cpp/src/imap_server.cpp:561-808 | So after every single command. |
| Imap.Stable | cpp/src/imap_server.cpp:569-587 | Between selections only EXPUNGE takes numbers away: STORE moves nothing, IDLE only appends, as section 7.4.1 of RFC 3501 requires. |
| Imap.ExpungeLeaves | cpp/src/imap_server.cpp:796-804 | EXPUNGE leaves exactly the messages not deleted, or not removable, in order. |
| Imap.ExpungeFollowed | cpp/src/imap_server.cpp:796-804 | Its descending numbers, applied in turn, lead the client there. |
| Imap.SeqsetExact | cpp/src/imap_server.cpp:416-429 | A well-formed number or range covers exactly the existing numbers it means. |
| Imap.ListCovers | cpp/src/imap_server.cpp:416-429 | A list of well-formed items covers the existing numbers between the one at its front and the one behind its first colon, wherever in the list that is; without a colon the one at its front. A star with a comma behind it is read as 1. |
| Imap.ListExact | cpp/src/imap_server.cpp:416-429 | It covers exactly the union of its items if and only if these lie between those two numbers and leave none between them out. |
| Imap.ListCoversMore | cpp/src/imap_server.cpp:424-426 | The list `1,3:5` covers message 2, which it does not mean. |
| Imap.ListDeletes | cpp/src/imap_server.cpp:746-808 | So in every mailbox of five messages storing the deleted flag on `1,3:5` and expunging removes all five. |
| Imap.ListReadShort | cpp/src/imap_server.cpp:418-424 | Without a colon `1,3` covers message 1 only. |
| Imap.WordRead | cpp/src/imap_server.cpp:418-424 | A text without a colon and without the number of a message at its front is read as message 1; two such texts as the ends of a range are read as all messages. |
| Imap.StoredFlags | cpp/src/imap_server.cpp:771-779 | The flags after a STORE, letter by letter; a removal takes a letter away only as often as it was asked for. |
| Imap.DoubledFlagSurvives | cpp/src/imap_server.cpp:775 | So a flag doubled in a file name survives its removal. |
| Imap.RenamedReads | cpp/src/imap_server.cpp:484-501 | A STORE keeps the message's own name, and reads back as the flags stored. |
| Imap.IdleDistinct | cpp/src/imap_server.cpp:574-580 | During IDLE no message is announced twice if and only if every known message still has the path it is known by. |
| ImapMeanings.MeantExact | cpp/src/imap_server.cpp:418-421 | A number of a sequence set means what its decimal digits say, told by repeated division; a star the number of messages. |
| ImapMeanings.StolReads | cpp/src/imap_server.cpp:418-421 | A text of blanks, a sign, digits and anything else is read as its number, if that is a signed number of 64 bits. |
| ImapMeanings.StolSplits | cpp/src/imap_server.cpp:418-421 | And every text that is read at all is so composed. |
| ImapMeanings.StoreExact | cpp/src/imap_server.cpp:762-785 | A STORE renames exactly the messages of its range whose rename does not fail and, unless silent, reports exactly these, each once, in order, with the flags its file then has. |
| ImapMeanings.NormalizedExact | cpp/src/imap_server.cpp:460-467 | Flags are written anew as each of the six letters that occurs, once, in order. |
| ImapMeanings.UnknownExact | cpp/src/imap_server.cpp:572-580 | A scan appends, in the order listed, exactly the files the snapshot does not hold. |
| ImapMeanings.AuthExact | cpp/src/imap_server.cpp:530-625 | Over every session: it is authenticated exactly after a successful login behind the last STARTTLS, and a mailbox is selected, and has messages, only then. |
| ImapMeanings.StepAuth | cpp/src/imap_server.cpp:561-590 | Command by command: a mailbox is selected by an authenticated SELECT of a known one, which lists its files and their counts, and until STARTTLS; without both no response is sent and no message changes. |
| Imap.Session.DoExpunge | cpp/src/imap_server.cpp:788-808 | The session's descending loop is the step proved about. |
| Imap.Session.DoStore | cpp/src/imap_server.cpp:746-786 | So is its STORE loop. |
| Imap.Session.DoIdleTick | cpp/src/imap_server.cpp:572-586 | So is a scan of the mailbox during IDLE. |
| Base64.RoundTrip | cpp/src/extra_stdlib.cpp:48-80 | Decoding an encoding gives the bytes back, for every byte sequence. |
| Base64.UrlRoundTrip | cpp/src/extra_stdlib.cpp:683-706 | So for the URL-safe form, through the padding put on again. |
| Base64.EncodedLetters | cpp/src/extra_stdlib.cpp:48-60 | The encoding has four characters for every three bytes begun, from the alphabet of section 4 of RFC 4648. |
| Base64.LetterIs | cpp/src/extra_stdlib.cpp:46 | The letters are those of section 4 of RFC 4648, one by one. |
| Base64.EncodedExact | cpp/src/extra_stdlib.cpp:48-60 | Each four characters are the letters of the six-bit parts of three bytes, the first highest; padding stands where no byte reaches. |
| Base64.UrlExact | cpp/src/extra_stdlib.cpp:683-694 | The URL-safe form has a letter for every six bits begun, each that of the plain encoding but from the table of section 5 of RFC 4648. |
| Base64.UrlAlphabet | cpp/src/extra_stdlib.cpp:683-694 | The URL-safe form holds only letters of section 5 of RFC 4648, no padding. |
| Base64.Encode | cpp/src/extra_stdlib.cpp:48-60 | The encoding loop. |
| Base64.Decode | cpp/src/extra_stdlib.cpp:62-80 | The decoding loop, stopping at a bad group. |
| Base64.UrlDecode | cpp/src/extra_stdlib.cpp:696-706 | Translation, the re-padding loop, decoding. |
| RateLimit.RateBound | cpp/src/http_main.cpp:91-174 | After a client's first, free hit: in any window of T ms it is allowed k requests with 1000 k at most 1000 burst + T refill, plus one for each eviction or spuriously failed exchange; tokens stay in range. |
| RateLimit.WindowBound | cpp/src/http_main.cpp:117-137 | The same from any reachable bucket, counting its own credit. |
| RateLimit.WeakExchange | cpp/src/http_main.cpp:122-123 | A spuriously failed exchange really lets one more through. |
| RateLimit.DefaultBurst | cpp/src/http_main.cpp:78-84 | With the default burst evictions are always covered by the bound. |
| RateLimit.OnceASecond | cpp/src/http_main.cpp:108 | Whatever the limit, a client that comes once a second is always let in. |
| RateLimit.MinuteExact | cpp/src/http_main.cpp:108 | What a bucket earns in a minute is within the configured limit if and only if that is at least 60. |
| RateLimit.RateLimiter.Check | cpp/src/http_main.cpp:153-174 | The limiter with its table of buckets: what it answers and what the table is after. |
| RateRuns.BurstAdmitted | cpp/src/http_main.cpp:153-174 | On every run of the limiter from an empty table, with any other clients, times and faults: a new client's first request is let in, and so are as many as the burst after it. |
| RateRuns.AdmittedExact | cpp/src/http_main.cpp:117-174 | A request whose exchange does not fail is let in whenever, in every window from an earlier request of the client, the first excepted, what it took and one more is within the burst and what the time earned; with no failed exchange and no more than fifty thousand addresses, exactly then. |
| RateRuns.ServedBound | cpp/src/http_main.cpp:153-174 | In any window a client gets at most the burst and what the time earned, plus one for each failed exchange and each return after more than two minutes. |
| RateRuns.Project | cpp/src/http_main.cpp:158-173 | The answers a client gets on the shared table are those of its own bucket. |
| RateLimit.TokenBucket.Consume | cpp/src/http_main.cpp:127-137 | One request on one bucket. |

## Left out

- Values with structure (arrays, maps, structs, closures, captures and boxed cells), string interpolation, calls, `foreach`, `use`, constants and module functions in the compiler model: the machine has no opcode for them here.
- Throwing programs: `throw`, handlers reached by an exception and the operators that throw; code for handlers is emitted and its shape proved, but no run enters it.
- Top-level scripts, whose assignments go to globals, default arguments and variadic parameters: only functions with positional parameters are compiled.
- The `NOP` behind a builtin call that carries its argument count, line tables, and `CHECK_DEFINED` for names without `$`.
- Theorems.CompilerCorrect: is about the compiler's unlimited code; a function needing more than 255 registers, 65535 constants or 65535 instructions is refused by `FunctionCompiler`, which the contract of `Compile` says.
- FunctionCompilers.FunctionCompiler.Compile: the discovery pass for captured names compiles the body once more and is not modelled; without closures it finds none.
- FunctionCompilers.FunctionCompiler.CompileExpr: the value 255 for "no register given" is an option here, and where a register is given the result is that register, so the moves the original would emit otherwise are not written.
- Divergences.GlobalIncrement: top-level code, where both engines use the global, is not modelled.
- Condition variables, wake-ups of the event loop thread, memory orders and the 1 ms slice: they decide when a step happens, not what it does.
- Channels.LookChannel.Send: begins past its wait; that a wait may end in the timeout of `LOOK_CHANNEL_TIMEOUT_MS` is a step of the runs, at no particular time. The receive counter's 64-bit width is not modelled.
- TaskSlots.SlotsBounded: counts are unbounded integers; the original's is a 32-bit int.
- ChunkedBodies.SplitExact: `size_t` and `unsigned long` have 64 bits, and no string is longer than 2^63 - 1, as on the Linux builds; a callback that throws is not modelled.
- NaN, infinities and a negative zero: floats are real numbers here, and integers are unbounded.
- HttpServer.ReadChunkedBody: the limits are added without wrapping at 64 bits, so a configured cap near 2^64 is outside the model; deadlines and rates are an oracle for each read.
- HTTP header parsing, decompression and character sets: the header block's meaning is a parameter.
- Calendar.DayNumberIs: years are unbounded; the original's are 32-bit.
- Base64.RoundTrip: shifts and masks are written as division and remainder, which is what they are on these ranges.
- Formatter.FormatIdempotent: the lexer behind the token comparison is an arbitrary predicate.
- Imap.SessionAgrees: parsing of commands, FETCH bodies, SEARCH, APPEND and the UID refusals change no numbering; the file system's answers are part of each command.
- RateLimit.RateBound: the global bucket under concurrent access, and 64-bit overflow of the products; both clocks of a check read the same time.
- Sockets, epoll, TLS, context switching, files, environment variables and the Windows scheduler: foreign calls, kept only as their possible outcomes.
- Cache, queue, route groups, event loop counters and DKIM: easier claims, or resting on code outside these files.
