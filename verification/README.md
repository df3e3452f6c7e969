# A verified model of effect-golang's core

This project models, in Dafny, the parts of effect-golang whose correctness is an argument about
all programs, all runs or all interleavings, and proves those arguments. Each file stands for one
part of the library and can be read on its own; `dafny verify dfyconfig.toml` checks all of them.

| file | what it models |
|---|---|
| `Direct.dfy` | the Go that a `Gen` body is written in, and what running it means |
| `Rewrite.dfy` | the translation of such a body into a chain of effects, and what the chain does |
| `RewriteHoist.dfy`, `RewriteSpell.dfy`, `RewriteFlow.dfy`, `RewriteFollow.dfy` | the steps of the proof: hoisting awaits, spelling untranslated statements, how control leaves statements, where emitted code goes on |
| `RewriteScopes.dfy` | emitted text as Go's compiler reads it, scope by scope, and when it reads as it was meant |
| `RewriteCorrect.dfy` | the theorem: a rewritten body does what the body does |
| `Names.dfy` | the supply of fresh names for generated code |
| `RewriteLimits.dfy`, `RewriteRedeclare.dfy`, `RewriteSharing.dfy`, `RewriteShadow.dfy` | three constructs whose meaning the rewrite does change, and exactly when |
| `Wrappers.dfy` | the wrappers the models share |
| `Interpreter.dfy`, `InterpreterLaws.dfy` | the trampoline with its heap stack and ambient registers, the recursive semantics it computes, and what that semantics promises |
| `Outcome.dfy` | termination causes and the explicit-stack walks over them |
| `Queue.dfy`, `QueueLaws.dfy` | the work queue: every section under its lock, and every interleaving of them |
| `Hub.dfy` | the broadcast hub: subscriptions, publishes and their snapshots, in every interleaving, and what a subscriber receives through its inbox's queue |
| `Scope.dfy` | scopes, finalizers, fibers and write-once completions |
| `Parallel.dfy` | two branches and any number of branches beside each other |
| `Rate.dfy`, `Lru.dfy`, `Schedule.dfy` | the rate limiter, the bounded cache, recurrence policies and retrying |
| `Stream.dfy` | pull streams over any chunking |
| `Config.dfy` | configuration descriptions, their errors and relocating them |

## How the parts are modelled

Code that updates fields is a class whose methods are proved against a function of the old state:
`Machine` (the interpreter), `Supply` (fresh names), `WorkQueue`, `Broadcast`, `OwnScope`, `Completion`, `PairRunner`,
`MemoryLimiter`, `LRU`, `ScheduleDriver`, the stream stages. For what runs concurrently one section
under a lock, or one send or receive, is one step of a transition system, and the theorems are about
every sequence of steps; "detached but not yet closed" waiters of a queue are states of their own.

What a program cannot see into is a parameter: callbacks, awaited effects, operators, parsers and
clocks are functions of a world that they may change, so the theorems hold whatever they do, panics
included (a panic is an answer, and becomes a defect where the code recovers it).

Programs may go on for ever. Their semantics therefore counts down an allowance (`gas`), spent once
per loop back edge or per program a callback builds, and in the translation theorem both sides spend
it alike, so they agree on runs that never end too. `GasIsOnlyAnAllowance` shows that the allowance
decides nothing else.

In the direct style, names are resolved to declarations and keep their spelling. A variable holds its
value itself until its address is taken or a closure captures it; from then on it and every pointer to
it share a cell. Emitted code is text, in which an identifier denotes what its spelling denotes where
it stands: `RewriteScopes.ReadBody` is that reading, and the translation theorem is about it. Within one statement, calls and awaits happen in Go's order and operands that are not
calls are read afterwards, which is one of the orders Go allows.

## What is not as one would hope

Where a property one would expect is false of the code, the model keeps the code, a lemma exhibits the
failure and another says exactly when the property holds.

- *A reusing `:=` can be captured by its own declarations.* The rewrite spells `a, err := g(a)`, where
  the `a` on the right is an outer variable, as `var a T; a, err = g(a)`; now `g` is passed the new
  `a`. `RedeclarationIsCaptured` is a body that shows it. `RedeclaringBodyKeptExactly`: for a call with
  variables as arguments the meaning is kept exactly when every argument spelled like a newly declared
  name reads as that name's zero value. `RedeclarationKeptEverywhereExactly`: whatever stands on the
  right without && and ||, it is kept under every host and from every state exactly when nothing there,
  but for variables assigned to `_`, is spelled like a newly declared name.
- *A loop variable that the body hides is not passed on.* The back edge is emitted as `return
  advance(i)`, and is captured by any `i` the body has declared by then, an inner loop's included.
  `NestedLoopsKeptExactly`: of two nested loops over variables spelled alike only those of at most one
  outer round keep their meaning. `HidingLoopsKeptExactly`: the rewrite keeps the meaning of all loops
  whose bodies declare certain names exactly when none of these is spelled like a loop variable. Ahead
  of the first await such a declaration also shares a block with the variable: `LeadDoesNotCompile`,
  `SharedBlockCompilesExactly`.
- *A loop variable whose address the post statement takes is not shared with the next iteration.* Go's
  next iteration owns the variable the post statement ran on; the emitted iteration function owns a
  copy of it. `SharingAnswersInGo` and `SharingNeverEndsRewritten` give a body that answers after two
  rounds and whose rewrite never ends. `UnshadowedLoopsKeptExactly`: where nothing is hidden, the
  rewrite keeps the meaning of every loop around a post statement exactly when that takes the address
  of none of the loop's variables.
- *`Bind` with `Succeed` is not quite an identity.* The extra `Succeed` is one more interruption
  checkpoint. `RightIdentityLosesAValue` loses one there; `BindRightIdentity` says the value survives
  exactly when the context is not cancelled there.
- *A failing composition can report nothing.* If an outer composition cancels a branch with the same
  reason value that this one uses, `CombineParallelCauses` drops it
  (`CombinedLosesInheritedCancellation`). `CombinedKeepsOwnFailures` says exactly when the combined
  cause is empty.
- *Mapping failures forgets where defects came from* (`MappingForgetsOrigins`). `MapFailureIdentity`:
  mapping with the identity is the identity exactly on causes whose defects carry no origin.
- *A second `Close` does not wait.* `SecondCloseDoesNotWait` shows one that answers while a child runs
  and a finalizer has not, `EveryCloseCanBeOvertaken` one for every scope that owns anything.
  `CloseKeepsItsWordExactly`: what Close promises holds of the calls that find the scope open or
  closed, and not of those that find it closing; `WhatASecondCloseSays` says what those mean.
- *A fiber that panics at its work completes without closing its scope* (`PanicLeavesTheScopeOpen`).
  `TerminalMeansClosedExactly`: a completed fiber's scope has closed exactly when it did not.
- *A permit bounds bodies, not finalizers.* `PermitsDoNotBoundFinalizers` has any number of branches
  close their scopes at once under any limit. `PermitsBoundScopesExactly`: the limit bounds those too
  exactly when it is no less than the number of branches.
- *A limiter's wait is cut off at the longest duration*, and is then too short: `WaitsComeToBeCutOff`
  for every allowance that spaces its requests, and `WaitIsExactUnlessSaturated` for when.
- *A take stage asks a source that has ended again.* `TakeReaches` and `TakeWhileReaches` say how often
  it reaches its source: once its values have arrived never again, and otherwise on every pull.
- *The zero `Config` is not relocated* (`ZeroIsNotMoved`). `NestedIsBeneath`: on one source nesting and
  mounting agree exactly where the failure does not hold its report. `NestsAsItMountsExactly`: a
  description that reads all its parts has them agree on every source exactly if there is no zero in
  it.

## Model

| member | source | states |
|---|---|---|
| `RewriteCorrect.RewritePreservesMeaning` | tools/effectgo/rewrite/emit.go:42-123 | For every accepted body that ends in a terminating statement, as Go demands, in which no := is captured by its own declarations (`Plain`), no post statement takes a loop variable's address (`Sound`) and no loop variable is hidden where it is passed on (`Unshadowed`), every host and every state: what is emitted compiles, and interpreting it as Go's compiler reads it and running the body as Go end in the same exit, store, trace of awaits and calls, and number of loop rounds, on endless runs too. |
| `RewriteCorrect.EmittedMeansTheBody` | tools/effectgo/rewrite/emit.go:42-123 | The same of emitted code whose identifiers denote the declarations they were written for, however those are spelled: all of the translation but its spelling. |
| `RewriteScopes.UnshadowedReadsAsMeant` | tools/effectgo/rewrite/loop.go:43-102 | The emitted text of every accepted body that hides no loop variable compiles, and every identifier in it -- the arguments of back edges, in whichever branch, nested loop or continuation they are written, included -- denotes what it was written for. |
| `RewriteCorrect.ListCorrect` | tools/effectgo/rewrite/emit.go:58-79 | Emitted code, its names denoting what they were written for, for any statement list, continuation and jump targets does what the list does and then goes on where it leaves off: off the end at `k`, a break and a continue at their targets, a return, failure or panic out of the body. A jump to a loop may pass any variables. |
| `RewriteCorrect.SimpleCorrect` | tools/effectgo/rewrite/emit.go:117-123 | Awaiting a statement's steps in nested continuations, running it with their values and emitting the rest inside is running the statement and the rest. |
| `RewriteCorrect.TailStepCorrect` | tools/effectgo/rewrite/emit.go:142-156 | Returning an awaited effect of the body's own type as it stands is awaiting it and answering its value. |
| `RewriteCorrect.ValueTailCorrect` | tools/effectgo/rewrite/tail.go:12-62 | Emitting the last await as a Map of the rest of the body equals the general FlatMap-then-Succeed form. |
| `RewriteCorrect.DefinedCorrect` | tools/effectgo/rewrite/emit.go:161-172 | Branches that call the continuation defined ahead of them go on with what follows the statement, in the scope it was defined in. |
| `RewriteCorrect.DroppedCorrect` | tools/effectgo/rewrite/emit.go:161-172 | Where no branch mentions its continuation, no branch runs off its end, so leaving out what follows loses nothing. |
| `RewriteCorrect.SplitCorrect` | tools/effectgo/rewrite/branch.go:105-139 | Splitting the init off a branching statement whose header holds steps, into a scope of its own, changes nothing. |
| `RewriteCorrect.IfCorrect` | tools/effectgo/rewrite/branch.go:37-54 | A translated if: steps of the condition first, then the branch Go takes, each continuing where the statement does. |
| `RewriteCorrect.SwitchCorrect` | tools/effectgo/rewrite/branch.go:56-100 | A translated switch runs the clause Go chooses, no clause where there is none and no default, and a break in it continues where the switch does. |
| `RewriteCorrect.ForCorrect` | tools/effectgo/rewrite/loop.go:66-102 | A translated three-clause loop whose back edges pass its own variables is the source loop, for every number of iterations and for endless ones. `UnshadowedReadsAsMeant` says when they do. |
| `RewriteCorrect.IterationCorrect` | tools/effectgo/rewrite/loop.go:59-102 | With back edges that pass the loop's own variables, one call of the emitted iteration function is one iteration of the source loop and all that follow it, with the loop's own copy of its variables in each. |
| `RewriteCorrect.AdvanceCorrect` | tools/effectgo/rewrite/loop.go:57-101 | With back edges that pass the loop's own variables: falling off the body and continuing run the post statement and the back edge, a break goes to what follows the loop. |
| `RewriteCorrect.RangeCorrect` | tools/effectgo/rewrite/range.go:14-103 | A translated range loop over an integer or an indexed collection, read as it was written, evaluates what it ranges over once and visits the elements the source loop visits. |
| `RewriteCorrect.ElementCorrect` | tools/effectgo/rewrite/range.go:32-103 | One call of the emitted iteration function of a range loop, read as it was written, at its hidden index, is that iteration and the ones after it. |
| `RewriteHoist.HoistingAgrees` | tools/effectgo/rewrite/order.go:19-109 | Whenever an expression's steps are not declined, awaiting them all first, in their order, and then performing its other calls gives the same trace, state and residual expression as left-to-right evaluation. |
| `RewriteHoist.HoistingAllAgrees` | tools/effectgo/rewrite/order.go:63-98 | The same for the operands of a whole statement: a step is never moved ahead of a call that could be seen. |
| `RewriteHoist.HoistShape` | tools/effectgo/rewrite/order.go:63-98 | Names of awaited values are fresh, and an expression that still holds a step after a call outside the steps is declined. |
| `RewriteHoist.ChainRuns` | tools/effectgo/rewrite/emit.go:177-201 | A chain awaits its steps in order, ends with the first that fails, and otherwise goes on inside with every value bound. |
| `RewriteSpell.SpellKeeps` | tools/effectgo/rewrite/walk.go:23-97 | An untranslated statement as spelled inside the rewrite does what it does in the source, and leaves the construct around it by the emitted jump where the source leaves it by break or continue. |
| `RewriteSpell.SpellListKeeps` | tools/effectgo/rewrite/walk.go:29-154 | The same for lists, through nested switches, which only a break leaves, and loops, which both leave. |
| `RewriteSpell.RedeclareKeeps` | tools/effectgo/rewrite/walk.go:101-131 | Spelling a reusing := as declarations and an assignment keeps what it does when no newly declared name is spelled like an identifier on the right. |
| `RewriteFlow.TerminatesEnds` | tools/effectgo/rewrite/order.go:134-179 | A statement the rewrite takes to be terminating is one. |
| `RewriteFlow.ExecFlows` | tools/effectgo/rewrite/order.go:134-179 | Terminating statements never run off their end, and a statement without a break or continue of its own never leaves by one. |
| `RewriteFlow.InitOwns` | tools/effectgo/rewrite/loop.go:73-78 | The := of a loop header leaves the variables it declares unshared. |
| `RewriteFlow.PostKeepsOwned` | tools/effectgo/rewrite/loop.go:91-95 | A post statement that takes no address of the loop's variables leaves them unshared, so passing them as parameters shares nothing. |
| `RewriteFollow.SimpleHoisted` | tools/effectgo/rewrite/order.go:19-98 | Awaiting a simple statement's steps and then running it with their values is running it. |
| `RewriteFollow.UnmentionedIsIrrelevant` | tools/effectgo/rewrite/emit.go:161-172 | A continuation nothing refers to might as well not be there, whatever it holds. |
| `RewriteLimits.RedeclarationKeepsExactly` | tools/effectgo/rewrite/walk.go:101-131 | For a := that calls a function with variables: the rewrite keeps its meaning if and only if every argument spelled like a newly declared name reads as that name's zero value. |
| `RewriteLimits.RedeclaringBodyKeptExactly` | tools/effectgo/rewrite/walk.go:101-131 | For whole accepted bodies of such a := and a returned effect: the rewrite's run is the body's run if and only if no captured argument reads as anything but the zero value. |
| `RewriteLimits.RedeclarationIsCaptured` | tools/effectgo/rewrite/walk.go:101-131 | An accepted body, `a, err := g(a)` and a returned effect, that Go and the rewrite run differently under every host from every state in which the outer `a` is not zero. |
| `RewriteRedeclare.RedeclarationKeptEverywhereExactly` | tools/effectgo/rewrite/walk.go:101-131 | For every reusing := with right-hand sides without awaits, && and ||: the rewrite keeps its meaning under every host and from every state if and only if no right-hand side, but for variables assigned to nothing, holds an identifier spelled like a name it declares. |
| `RewriteRedeclare.MarkIsHidden` | tools/effectgo/rewrite/walk.go:101-131 | Whatever nested operators and calls such an identifier stands in, the value of the variable it denotes never reaches the rewritten statement: no call is handed it, no cell and no other variable comes to hold it. |
| `RewriteLimits.ParametersAreCopies` | tools/effectgo/rewrite/loop.go:43-62 | The copying step alone: passing the loop's variables to the next iteration leaves the state as it is if and only if nothing else shares them. `RewriteSharing` says what that means for the loop. |
| `RewriteLimits.SharingAnswersInGo` | effect/gen_body.go:14-36 | A body whose post statement takes its loop variable's address answers after two awaits when Go runs it. |
| `RewriteLimits.SharingNeverEndsRewritten` | tools/effectgo/rewrite/loop.go:85-95 | The same body, rewritten, never ends: it uses up any number of back edges. |
| `RewriteSharing.UnshadowedLoopsKeptExactly` | tools/effectgo/rewrite/loop.go:43-102 | For any loop variables and any post statement without awaits, && and ||: the rewrite keeps the meaning of every accepted loop around it whose body hides no loop variable, under every host and from every state, if and only if the post statement takes the address of none of the loop's variables. |
| `RewriteSharing.StoresDiffer` | tools/effectgo/rewrite/loop.go:59-95 | For every post statement that takes such an address, a body, hiding nothing, and a host under which the two leave different stores. |
| `RewriteSharing.PostTakes` | tools/effectgo/rewrite/loop.go:91-95 | Evaluating such a post statement moves the variable into a new cell, wherever in nested operators and calls its address is taken. |
| `RewriteShadow.HidingLoopsKeptExactly` | tools/effectgo/rewrite/loop.go:43-102 | For any loop variables and any other names: the rewrite compiles and keeps the meaning of every accepted loop over those variables whose body declares only those names, at any depth, under every host and from every state, if and only if none of the names is spelled like one of the variables. Loops inside the body are taken to hide nothing of their own. |
| `RewriteShadow.ReportsDiffer` | tools/effectgo/rewrite/loop.go:83-99 | Whenever a name is spelled like a loop variable, an accepted body that declares it after an await and a host under which Go goes round for ever while the rewrite, which compiles, fails in its second round. |
| `RewriteShadow.NestedLoopsKeptExactly` | tools/effectgo/rewrite/loop.go:83-99 | Two nested loops over variables spelled alike, of m and p rounds: Go awaits m * p times, and the rewrite, which accepts and compiles them, does the same if and only if m is at most 1. |
| `RewriteShadow.NestedRewritten` | tools/effectgo/rewrite/loop.go:83-99 | What it does instead: p awaits where m is at most p + 1, and else no end. |
| `RewriteShadow.SharedBlockAssigns` | tools/effectgo/rewrite/loop.go:95-99 | A := at the head of a loop's body that reuses a loop variable's spelling declares a name in the source and assigns the variable in the emitted iteration function. |
| `RewriteShadow.SharedBlockCompilesExactly` | tools/effectgo/rewrite/loop.go:95-99 | There a := compiles if and only if it declares nothing or one name spelled unlike all of the loop's variables. |
| `RewriteShadow.LeadDoesNotCompile` | tools/effectgo/rewrite/loop.go:95-99 | An accepted loop whose body begins with such a := is emitted as text that does not compile. |
| `Names.Supply.Fresh` | tools/effectgo/rewrite/names.go:28-37 | The search for a fresh name ends, meeting each taken name at most once, and stops at the first number that makes a name nothing has taken; only that name becomes taken. |
| `Names.GeneratedNamesAreApart` | tools/effectgo/rewrite/names.go:10-37 | Over all requests of a rewrite no generated name is spelled like an identifier of the file or like another generated one, whatever the prefixes. |
| `Names.DecimalTellsApart` | tools/effectgo/rewrite/names.go:31 | Different numbers are spelled differently. |
| `Interpreter.Machine.Run` | effect/internal/runtime/interpret.go:54-64 | The trampoline computes exactly the exit, world, log and greatest stack height of the recursive semantics, and ends with no frames and the ambient context, state and environment it started with. |
| `Interpreter.Machine.Evaluate` | effect/internal/runtime/interpret.go:68-120 | Descending through composition instructions leaves what remains to happen unchanged, and the frames below would restore, at any height, what they would have restored. |
| `Interpreter.Machine.SaveAndDerive` | effect/internal/runtime/interpret.go:86-109 | The replaced ambient value is saved before the derivation runs, and restored when it succeeds, fails or crashes. |
| `Interpreter.Machine.Settle` | effect/internal/runtime/interpret.go:122-145 | A leaf starts only after the checkpoint found its context uncancelled; a failure is stamped with the running operation. |
| `Interpreter.Machine.Resume` | effect/internal/runtime/interpret.go:147-191 | Unwinding applies the pending frames in order, with a defect at any of them taking the place of its result, and hands over a successor strictly lower than the exit arrived, under that height's ambient state. |
| `InterpreterLaws.RunsAlikeAnywhere` | effect/internal/runtime/interpret.go:54-64 | A program does the same whatever frames are pending below it and whatever was recorded before. |
| `InterpreterLaws.GasIsOnlyAnAllowance` | effect/internal/runtime/interpret.go:54-191 | A run that ends is the same under any larger allowance of callback-built programs. |
| `InterpreterLaws.BindLeftIdentity` | effect/internal/runtime/interpret.go:168-178 | Binding a value to a closure is one checkpoint and then running what the closure builds, in the world the checkpoint leaves; a context cancelled there ends it, and a closure's panic is its defect. |
| `InterpreterLaws.BindRightIdentity` | effect/internal/runtime/interpret.go:122-130 | Binding to Succeed ends as the program does, except for one more checkpoint, and loses the value if and only if the context is cancelled there. |
| `InterpreterLaws.RightIdentityLosesAValue` | effect/internal/runtime/interpret.go:122-130 | With a context cancelled between the two checkpoints, Succeed answers its value and the same bound to Succeed is interrupted. |
| `InterpreterLaws.BindAssociates` | effect/internal/runtime/interpret.go:168-178 | Bind associates on every run: interrupted, failing, crashing and unfinished ones included. |
| `InterpreterLaws.HooksNest` | effect/internal/runtime/interpret.go:83-167 | Whatever a program does, every exit hook it enters runs exactly once, the innermost first, under the ambient state it was entered with, cancelled or not; and no leaf starts except straight after an uncancelled checkpoint. |
| `InterpreterLaws.RanAsOftenAsEntered` | effect/internal/runtime/interpret_guard.go:41-59 | In such a log each hook has run as often as it was entered, but for those still open. |
| `InterpreterLaws.IterationNeedsNoStack` | effect/internal/runtime/interpret.go:147-191 | Programs whose successors are of the same family need no more frames for any number of rounds than for one. |
| `InterpreterLaws.RetryingNeedsNoStack` | effect/retry_driver.go:31-75 | A whole retry -- suspended, with an exit observer around attempts whose handler suspends a decision, which ends with an effect or sleeps and attempts again -- needs two frames more than the effect, the sleep or the last effect does, for any number of attempts. |
| `InterpreterLaws.FoldingNeedsNoStack` | effect/stream_run.go:24-36 | A fold over a stream needs the frames one pull needs and a constant more, for any number of chunks. |
| `InterpreterLaws.LoopingNeedsNoStack` | tools/effectgo/rewrite/loop.go:57-62 | A translated loop -- suspended back edges, awaited effects and what follows them -- needs the frames its awaited effects need and a constant more, for any number of iterations. |
| `Outcome.ComposeKeepsLeaves` | effect/internal/outcome/cause.go:174-192 | Composing keeps both operands' leaves in order, stores no empty child, and is empty only of two empties. |
| `Outcome.FirstOriginWins` | effect/internal/outcome/cause.go:112-151 | Stamping twice is stamping once with the first origin completed, half by half, by the second. |
| `Outcome.FoldCause` | effect/internal/outcome/traversal.go:24-75 | The explicit-stack fold equals the structurally recursive one for every tree, and ends. |
| `Outcome.VisitCause` | effect/internal/outcome/traversal.go:78-93 | The explicit-stack walk calls the visitor on the nodes in preorder until it declines one. |
| `Outcome.CauseStatus` | effect/internal/outcome/status.go:17-30 | The status is that of the most severe leaf, early exit or not. |
| `Outcome.IsInduced` | effect/internal/outcome/parallel_causes.go:47-63 | A cause whose compositions have both children is induced if and only if it has leaves and all of them are interruptions matching the request. |
| `Outcome.CombineParallelCauses` | effect/internal/outcome/parallel_causes.go:34-43 | The cause of a two-branch composition, equal to its specification. |
| `Outcome.CombinedKeepsOwnFailures` | effect/internal/outcome/parallel_causes.go:30-43 | The combination keeps what each branch failed with on its own account, in positional order, and is empty although one failed exactly when the one that failed was cancelled with this composition's reason. |
| `Outcome.CombinedLosesInheritedCancellation` | effect/internal/outcome/parallel_causes.go:34-63 | An outer composition's cancellation with the same reason value leaves an empty cause. |
| `Outcome.CombineBranchCauses` | effect/internal/outcome/parallel_causes.go:68-78 | The leaves of the result are, in input order, those of the causes no cancellation of ours explains. |
| `Outcome.MapFailureLeaves` | effect/internal/outcome/traversal.go:104-145 | Mapping failures maps the leaves one for one, in order. |
| `Outcome.MapFailureShape` | effect/internal/outcome/traversal.go:104-145 | It keeps the tree's shape if and only if no composition holds an empty child. |
| `Outcome.MapFailureIdentity` | effect/internal/outcome/traversal.go:104-131 | Mapping with the identity is the identity if and only if the cause is solid and its defects carry no origin. |
| `Outcome.MappingForgetsOrigins` | effect/internal/outcome/traversal.go:104-131 | Every defect whose origin was recorded loses it when the identity is mapped over it. |
| `Outcome.FailuresAsDefects` | effect/internal/outcome/traversal.go:147-165 | The fold that turns failures into defects computes its structural specification. |
| `Outcome.FoldToDefects` | effect/internal/outcome/traversal.go:147-165 | Turning failures into defects turns each leaf on its own, in order, and leaves no failure. |
| `Outcome.DefectsKeepShape` | effect/internal/outcome/traversal.go:147-165 | For a solid cause the result is the same tree with defects where failures were. |
| `Outcome.RenderCause` | effect/cause_format.go:44-83 | The work-list renderer prints exactly the lines of the recursive definition, comma placement included. |
| `Queues.WorkQueue.Offer` | effect/internal/lifetime/queue.go:54-71 | One offer's section: refused when closed, handed to the longest-waiting taker, queued when there is room, else the policy's answer; nothing else changes. |
| `Queues.WorkQueue.Admit` | effect/internal/lifetime/queue_policy.go:31-50 | The three policies: park the offerer, drop the new value, or drop the oldest and keep the new. |
| `Queues.WorkQueue.Take` | effect/internal/lifetime/queue.go:97-113 | One take's section: the oldest value and room for one parked offerer, the end of a drained closed queue, or parking. |
| `Queues.WorkQueue.DrainUpTo` | effect/internal/lifetime/queue.go:171-182 | The draining loop takes values one dequeue after the other until the batch is full or the queue empty. |
| `Queues.WorkQueue.TakeAvailable` | effect/internal/lifetime/queue.go:142-149 | A batch taken without waiting, empty for a limit below one. |
| `Queues.WorkQueue.AbandonTaker` | effect/internal/lifetime/queue_waiter.go:59-69 | A cancelled taker removes itself, and only itself, if it is still parked, and tells whether it was. |
| `Queues.WorkQueue.AbandonOfferer` | effect/internal/lifetime/queue_waiter.go:71-81 | A cancelled offerer takes its value back if it is still parked, and tells whether it was. |
| `Queues.WorkQueue.Shutdown` | effect/internal/lifetime/queue.go:191-208 | Detaches everyone parked under the lock, then closes each one's channel; a second call does nothing. |
| `QueueLaws.EveryRunIsGood` | effect/internal/lifetime/queue.go:54-208 | In every interleaving of sections: parked takers imply no values, parked offerers imply a full backpressured queue, no channel is sent to or closed twice, takers that waited were served in the order they parked, and deliveries, queued and parked values together are the arrivals in order, less exactly the lost ones. |
| `QueueLaws.QueuesStayGood` | effect/internal/lifetime/queue.go:29-42 | So it is of every queue from its construction on, whatever its capacity and policy. |
| `QueueLaws.StepKeepsShape` | effect/internal/lifetime/queue.go:73-136 | Parked takers imply no items and parked offerers imply exactly `capacity` items, kept by every section. |
| `QueueLaws.StepKeepsOrder` | effect/internal/lifetime/queue.go:73-208 | The line of delivered, queued and parked values stays the arrival order less the abandoned, dropped and refused ones. |
| `QueueLaws.StepServesTakers` | effect/internal/lifetime/queue_waiter.go:44-69 | A parked taker's channel is empty, and a message in it is one delivery that went nowhere else. |
| `QueueLaws.StepAnswersOfferers` | effect/internal/lifetime/queue_waiter.go:30-42 | A parked offerer is told true only if its value is kept and its channel is closed only if its value is refused. |
| `QueueLaws.DeliveredOnceInOrder` | effect/internal/lifetime/queue.go:76-126 | Deliveries are in arrival order, each of a different arrival and with its value: no overtaking and no duplication. |
| `QueueLaws.DeclinedIsNeverDelivered` | effect/internal/lifetime/queue_policy.go:39-43 | A declined offer's value is not delivered, whatever happens afterwards. |
| `QueueLaws.InterruptedIsNeverDelivered` | effect/internal/lifetime/queue_waiter.go:30-42 | An offer reported interrupted is not delivered, whatever happens afterwards. |
| `QueueLaws.LostForGood` | effect/internal/lifetime/queue.go:171-208 | A value once lost stays lost, for the same reason. |
| `QueueLaws.AcceptanceKeeps` | effect/internal/lifetime/queue.go:54-71 | An offer accepted at once is delivered or queued. |
| `QueueLaws.AdmissionKeeps` | effect/internal/lifetime/queue_waiter.go:30-42 | An offerer whose channel says true has its value delivered or queued. |
| `QueueLaws.AcceptedIsKept` | effect/internal/lifetime/queue.go:54-208 | Unless the policy drops the oldest, an accepted value stays queued until it is delivered, through shutdown and lost races. |
| `QueueLaws.LosingARaceIsAnswered` | effect/internal/lifetime/queue_waiter.go:44-57 | A taker that finds itself no longer parked has its value, or its channel is closed or about to be: receiving does not block for ever. |
| `QueueLaws.LosingAnOfferRaceIsAnswered` | effect/internal/lifetime/queue_waiter.go:30-42 | The same for an offerer. |
| `QueueLaws.ClosingEndsDetachment` | effect/internal/lifetime/queue.go:202-207 | The closing loops reach every detached waiter. |
| `QueueLaws.MessageIsTheDelivery` | effect/internal/lifetime/queue.go:76-84 | A waiting taker got a value if and only if that delivery is recorded as its own. |
| `QueueLaws.BatchIsContiguous` | effect/internal/lifetime/queue.go:171-182 | A batch is the next deliveries with nothing between them, as many as asked for or as there are. |
| `Hubs.Broadcast.Subscribe` | effect/internal/lifetime/hub.go:38-50 | A fresh token larger than every earlier one, or a refusal once closed. |
| `Hubs.Broadcast.Unsubscribe` | effect/internal/lifetime/hub.go:54-63 | Removes one inbox and tells whether there is one to shut down. |
| `Hubs.Broadcast.CurrentInboxes` | effect/internal/lifetime/hub.go:91-109 | The snapshot is the tokens in subscription order, however the map yields them. |
| `Hubs.Broadcast.Shutdown` | effect/internal/lifetime/hub.go:114-131 | Closes once and hands over every inbox to shut down. |
| `HubLaws.EveryRunIsGood` | effect/internal/lifetime/hub.go:38-131 | In every interleaving each inbox has been offered exactly the publishes that reached it, each once, and each publisher's in the order it published them. |
| `HubLaws.PublishReachesAPrefix` | effect/internal/lifetime/hub.go:73-87 | An inbox is offered only values whose snapshot included it; a finished publish has reached all of its snapshot, an interrupted one exactly a prefix in subscription order. |
| `HubLaws.TokensAreNotReused` | effect/internal/lifetime/hub.go:38-63 | A token names one subscription for ever, and nobody subscribes after shutdown. |
| `HubLaws.NoReplay` | effect/internal/lifetime/hub.go:91-109 | A publish begun before an inbox subscribed never reaches it. |
| `Subscriptions.SubscribersReceiveInOrder` | effect/internal/lifetime/hub.go:65-109 | With the hub and an inbox's queue run together, in every interleaving: each value a subscriber receives is that of a publish whose snapshot its inbox was in, no two are of the same publish, and one publisher's come in the order it published them. |
| `Subscriptions.EveryRunIsCoupled` | effect/internal/lifetime/hub.go:79-86 | The values that arrived at an inbox are those of the publishes offered to it, in the order of the offers, less the offers it was already closed for. |
| `Lifetimes.OwnScope.AddFinalizer` | effect/internal/lifetime/scope.go:61-71 | Registers a finalizer while the scope is open, and else runs it at once with the closing exit; it never leaks. |
| `Lifetimes.OwnScope.Close` | effect/internal/lifetime/scope.go:96-115 | The accepted Close releases everything taken, last first, and returns the composed cause; any other returns an empty cause at once. |
| `Scopes.EveryRunIsGood` | effect/internal/lifetime/scope.go:61-134 | Over every run, finalizers are in one place and once, releases are the reverse of registration, and the cause so far is that of what has been released. |
| `Scopes.ClosingReleasesEverything` | effect/internal/lifetime/scope.go:96-115 | When the accepted Close has returned, every accepted finalizer has run exactly once, in reverse order, with the closing exit and no child left, and the cause's leaves are the finalizers' causes in release order. |
| `Scopes.ReleasedInReverse` | effect/internal/lifetime/scope.go:102-111 | At every moment, releasing has started only after the last child ended, and what ran is the latest registered part; finalizers turned away run apart from them, once each. |
| `Scopes.ClosingIsFinal` | effect/internal/lifetime/scope.go:76-84 | Once closing has begun no child and no finalizer is accepted, and the exit is fixed. |
| `Scopes.SecondCloseDoesNotWait` | effect/internal/lifetime/scope.go:96-100 | A second Close answers while a child still runs and a finalizer has not. |
| `Scopes.WhatASecondCloseSays` | effect/internal/lifetime/scope.go:93-128 | Every call of Close in every run, by what it finds. Open: it returns with everything released and its finalizers' causes. Closed: everything is released, and its empty answer is the accepted one's if and only if no finalizer failed. Closing: while the accepted Close waits everything is released if and only if the scope owned nothing, and after that if and only if the last finalizer has run. |
| `Scopes.CloseKeepsItsWordExactly` | effect/internal/lifetime/scope.go:93-128 | That Close returns only once everything is released holds of every run that brings the scope to a status if and only if that status is not closing. |
| `Scopes.EveryCloseCanBeOvertaken` | effect/internal/lifetime/scope.go:96-128 | Whatever a scope owns when its accepted Close begins, a second Close answers with no cause while all of it is held; there is nothing held if and only if the scope owned nothing. |
| `Scopes.OvertakenLeavesThemHeld` | effect/internal/lifetime/scope.go:96-111 | A second Close that finds a child to wait for or a finalizer to run answers with no cause while a child runs or an accepted finalizer has not. |
| `Scopes.CompletionComesLast` | effect/internal/runtime/spawn.go:32-46 | Whenever a fiber that did not panic at its work has a terminal exit, its own scope has closed with everything released; if it completed, the exit succeeds if and only if the work and every release did and holds the work's failures and then the releases'; if it panicked after closing, the exit is that defect alone. |
| `Scopes.PanicLeavesTheScopeOpen` | effect/internal/lifetime/completion.go:48-54 | A panic while a fiber works completes it with the defect, whatever its scope then owns still held. |
| `Scopes.TerminalMeansClosedExactly` | effect/internal/runtime/spawn.go:32-46 | A fiber with a terminal exit has closed its scope if and only if it did not panic at its work; after a panic the exit is that defect. |
| `Scopes.TerminalIsFinal` | effect/internal/lifetime/completion.go:36-46 | A terminal exit never changes. |
| `Lifetimes.Completion.Complete` | effect/internal/lifetime/completion.go:36-46 | Only the first completion is recorded, and it alone is told so. |
| `Lifetimes.FirstAttemptWins` | effect/internal/lifetime/completion.go:36-46 | Over any number of attempts the first decides. |
| `Pairs.PairRunner.Wait` | effect/internal/runtime/parallel.go:75-126 | The runner's loop is a run of the runner's steps whichever branches end while it blocks, with whatever exits, and whichever ready channel a select takes; it ends with both channels collected and both terminal exits recorded. |
| `Pairs.ReturnsBothExits` | effect/internal/runtime/parallel.go:75-126 | Whatever the order of endings, selections and cancellations, the runner returns only with both branches terminal and exactly their exits. |
| `Pairs.RacesAndPairs` | effect/concurrency.go:89-132 | Race answers if and only if some branch did, with an answer a branch gave; ZipPar if and only if both did; RaceFirst ends as the branch collected first. |
| `Pairs.AlwaysGoesOn` | effect/internal/runtime/parallel.go:72-126 | Once both branches have ended the runner can always go on, and every step leaves less to do. |
| `Groups.AtMostLimitRun` | effect/internal/runtime/parallel_all.go:81-103 | At most `limit` bodies are between taking a permit and returning it. |
| `Groups.ReportingNeverBlocks` | effect/internal/runtime/parallel_all.go:59-111 | The completion channel has room for every branch's one report. |
| `Groups.ReturnsExitsInOrder` | effect/internal/runtime/parallel_all.go:115-133 | What is returned is every fiber's own terminal exit, in input order. |
| `Groups.PermitsDoNotBoundFinalizers` | effect/internal/runtime/parallel_all.go:88-111 | For any number of branches and any limit some run has all of them closing their scopes at once. |
| `Groups.PermitsBoundScopesExactly` | effect/internal/runtime/parallel_all.go:81-111 | For every number of branches and every positive limit: in every run at most limit branches are at work, reporting or closing their scopes if and only if no semaphore is made because the limit is no less than their number. |
| `Groups.AlwaysGoesOn` | effect/internal/runtime/parallel_all.go:24-133 | No deadlock: a group that has not returned can always do something that leaves less to do. |
| `Rates.MemoryLimiter.Turn` | effect/rate/memory.go:51-78 | Reserves a turn and says how long until it, or reserves nothing and says so. |
| `Rates.GrantsAreSpaced` | effect/rate/memory.go:35-78 | Over any history of calls, refusals, other allowances and clock jumps, two granted moments j - i grants apart are at least j - i - (most - 1) spacings apart. |
| `Rates.WindowBound` | effect/rate/memory.go:35-78 | Any closed window of a length holds at most the burst and one grant per spacing in it. |
| `Rates.RefusalsLeaveNoTrace` | effect/rate/memory.go:48-75 | A refused call leaves every later answer as if it had not been made. |
| `Rates.BurstGoesAtOnce` | effect/rate/memory.go:43-46 | From rest, as many requests as the allowance states go at once, evenly spaced in the reservation. |
| `Rates.ToleranceIsWithinEvery` | effect/rate/rate.go:42-47 | The burst's tolerance never exceeds the period, and the spacing is zero if and only if more requests than nanoseconds are allowed. |
| `Rates.WaitIsExactUnlessSaturated` | effect/rate/memory.go:68-78 | A wait reaches the reserved moment if and only if it was not cut off at the longest duration. |
| `Rates.WaitsComeToBeCutOff` | effect/rate/memory.go:68-78 | For every allowance that spaces its requests there is a history in which a granted wait is cut off and ends before its turn. |
| `Caches.LRU.Get` | effect/cache/lru.go:67-84 | A read answers what the sequence holds and is not past its date, moves it to the front, and drops it when it is. |
| `Caches.LRU.Put` | effect/cache/lru.go:88-111 | A write replaces the key's entry, puts the new one in front and evicts from the back; map, list and index keep describing the same entries. |
| `Caches.LRU.Invalidate` | effect/cache/lru.go:114-124 | Drops exactly the entries about a stated subject, and none for the empty one. |
| `Caches.LRU.Drop` | effect/cache/lru.go:138-148 | Removes one entry from list, map and index alike. |
| `Caches.BoundHolds` | effect/cache/lru.go:108-110 | After any history the cache holds no key twice and no more than its bound. |
| `Caches.NeverStale` | effect/cache/lru.go:67-84 | A read answers only with the value last put under its key, not past its date and its subject not invalidated since. |
| `Caches.ListIsByRecency` | effect/cache/lru.go:61-110 | After any history the list is in order of last use. |
| `Caches.EvictsLeastRecentlyUsed` | effect/cache/lru.go:86-111 | A put that drops another key found the cache full and drops the least recently used, and only it. |
| `Schedules.ScheduleDriver.Next` | effect/schedule.go:63-67 | The k-th call on a driver, whatever the calls, answers its policy's k-th decision over the calls so far, and the next call will answer the one after. |
| `Schedules.ExponentialDelays` | effect/schedule_backoff.go:6-22 | The n-th exponential delay is min(base * 2^n, maximum), for every n. |
| `Schedules.FibonacciDelays` | effect/schedule_backoff.go:25-48 | The n-th Fibonacci delay is min(one * F(n + 1), maximum), for every n. |
| `Schedules.RecursCounts` | effect/schedule_policy.go:16-55 | Recurs(count) continues exactly count times, the saturating counter included, Forever always, and Spaced always at its delay. |
| `Schedules.UpToFollowsTheClock` | effect/schedule_policy.go:57-90 | UpTo continues if and only if less than its limit has passed since its first decision. |
| `Schedules.Compositions` | effect/schedule_composition.go:13-72 | An intersection continues while both do after the longer delay, a union while either does after the shortest active one. |
| `Schedules.ComposedCounts` | effect/schedule_composition.go:13-62 | Intersecting two counts gives the smaller, uniting them the larger. |
| `Schedules.ExhaustionKeepsTheLastFailure` | effect/retry_driver.go:44-75 | A policy that stops at its n-th decision allows n + 1 evaluations where nothing is cancelled, and the last one's failure is reported. |
| `Schedules.RecursAttempts` | effect/retry_driver.go:44-75 | Where nothing is cancelled, retrying with Recurs(count) gives the first success among count + 1 attempts, or the last of their failures. |
| `Schedules.CancellationEndsRetrying` | effect/retry_driver.go:52-74 | A retry cancelled after a failure, before the policy is asked or while waiting, ends there with the cancellation and without another evaluation. |
| `Schedules.RecursIsBounded` | effect/retry_driver.go:44-75 | Whatever the attempts do and whenever they are cancelled, retrying with Recurs(count) ends after at most count + 1 evaluations. |
| `Streams.FilterChunk` | effect/chunk.go:66-75 | The filtering loop keeps exactly the accepted values, in order. |
| `Streams.FoldChunk` | effect/chunk.go:57-64 | The folding loop is a left fold. |
| `Streams.TakeWhile` | effect/chunk.go:99-108 | The longest accepted prefix, and whether a value was rejected. |
| `Streams.PullTakesFromValues` | effect/stream_transform.go:98-240 | Every pull takes its chunk off the front of the values to come, and the end comes exactly when none is left: an empty chunk is not the end. |
| `Streams.FoldsItsValues` | effect/stream_run.go:12-36 | Folding a stream is folding the plain sequence it stands for, however it is chunked. |
| `Streams.CollectsItsValues` | effect/stream_run.go:40-44 | Collecting gives exactly that sequence. |
| `Streams.StagesArePlainOperations` | effect/stream_transform.go:98-194 | Over any stream of any chunking, TakeStream, DropStream, TakeStreamWhile, FilterStream and ConcatStreams are take, drop, longest accepted prefix, filter and append. |
| `Streams.TakePullsNoMore` | effect/stream_transform.go:104-128 | Taking pulls its source until its values have arrived, and not once more. |
| `Streams.TakeIgnoresTheRest` | effect/stream_transform.go:104-128 | However much a source has beyond the chunks that hold the values, the result and the pulls are the same, so taking from an endless source ends. |
| `Streams.NeededIsLeast` | effect/stream_transform.go:208-240 | That number of pulls is the fewest that bring them. |
| `Streams.EndedStagesDoNotPull` | effect/stream_transform.go:208-240 | Over any source and after any number of pulls: a take stage that has its values, and a take-while stage that has seen one rejected, answer the end and no number of further pulls touches the source; they answer it otherwise only when the source has just answered it. |
| `Streams.TakeReaches` | effect/stream_transform.go:104-128 | n pulls of a take stage reach its source n times or until its values have arrived, whichever is fewer, if the source has that many values, and otherwise n times. |
| `Streams.TakeWhileReaches` | effect/stream_transform.go:149-166 | The same for taking while values are accepted, up to the chunk that holds the first rejected one. |
| `Streams.TakeStage.Rewrite` | effect/stream_transform.go:110-127 | What TakeStream does to one step and to its budget. |
| `Streams.DropStage.Rewrite` | effect/stream_transform.go:131-147 | What DropStream does to one step and to its budget. |
| `Streams.TakeWhileStage.Rewrite` | effect/stream_transform.go:150-166 | What TakeStreamWhile does to one step and to its flag. |
| `Streams.ChunkSource.Pull` | effect/stream.go:103-116 | What StreamFromChunks emits and keeps. |
| `Streams.PullTaking` | effect/stream_transform.go:222-240 | One pull of a take stage: its gate first, then the source, then its rewriting, which together are the stage's next step and leave the source alone once it has ended. |
| `Streams.PullTakingWhile` | effect/stream_transform.go:222-240 | The same of a take-while stage. |
| `Configs.CompositesReportEveryPart` | effect/config/composition.go:50-80 | All and Struct fail if and only if some part does, with every part's failures in order. |
| `Configs.PairsReportBoth` | effect/config/composition.go:30-48 | ZipWith fails if and only if a side does, with both sides' failures, and else combines both values. |
| `Configs.StandInsCoverAbsenceOnly` | effect/config/composition.go:111-129 | A default or an absence stands in if and only if every failure is a missing value. |
| `Configs.RefusalsSaySomething` | effect/config/error.go:96-120 | A refusal is never the empty error and holds no empty child. |
| `Configs.ComposingKeepsFailures` | effect/config/error.go:101-155 | And and Or keep both operands' failures in order. |
| `Configs.ReadsMove` | effect/config/config.go:56-71 | For every description, reading it beneath a prefix is reading it from the source mounted there, with what it reports moved beneath the prefix. |
| `Configs.NestedIsBeneath` | effect/config/composition.go:82-102 | Nesting under a name and mounting beneath it give the same value or the same failure prefixed with the name, for every description and source, if and only if the failure does not hold the zero description's report. |
| `Configs.DescribedNestsAsItMounts` | effect/config/source.go:104-131 | For a description without a zero in it the two always agree. |
| `Configs.NestsAsItMountsExactly` | effect/config/composition.go:82-102 | For every description that reads all its parts: nesting under a name and mounting beneath it agree on every source if and only if there is no zero in the description. |
| `Configs.ReachedZeroShows` | effect/config/config.go:94-108 | For every description, alternatives included, that comes to a zero where nothing can be read, some source shows the two apart, at every name. |
| `Configs.ZeroIsNotMoved` | effect/config/config.go:94-108 | The zero description itself shows the two apart at every name and every source. |
| `Configs.ReadParts` | effect/config/composition.go:64-80 | The accumulating loop reads every part and keeps every refusal. |
| `Configs.FallbackChildren` | effect/config/source.go:86-102 | Several sources list the children of all of them, in order and without repeats, unless one cannot be reached. |
| `Configs.FallbackValue` | effect/config/source.go:73-84 | The first source that carries the path answers, and one that cannot be reached stops the search. |

## Left out

- `select`, labels, `goto`, `defer`, `go` and ranges over maps, strings and functions, which the rewrite declines where they hold a step; ranges over channels, which depend on Go's scheduling.
- Type switches, which the rewrite translates like other switches, and channel sends, which it spells as ordinary statements: neither is a statement of the model.
- Range variables that are stored through pointers (`for *p = range ...`).
- A range over a nil pointer to an array with a blank second variable, and the indexing panics of a range over it.
- Emitted text itself: positions, line directives, type spelling, and imports (tools/effectgo/rewrite/text.go, file.go, the rest of names.go); in the translation emitted functions and awaited values are numbered, and `Names` says what their spellings promise. Bodies declined because a type cannot be named are outside the model.
- The builders that the translation appends to: it is modelled as functions returning code trees.
- Go leaves the order of variable reads and calls in one statement open; the model fixes one of the orders allowed and the theorem is about that one.
- The goroutine a Gen body runs on, its worker pool, `runtime.Goexit` of the body's own, and use of `do` after the body or from two goroutines (effect/gen.go, effect/gen_workers.go).
- Outcome.IsInduced: is about causes whose compositions have both children, as Then and Both build them; VisitCause skips a missing child, and only a Cause assembled by hand has one. So are CauseStatus, VisitCause and the folds.
- The line a failure of `do.Fail` records: a parameter of the model.
- RewriteCorrect.RewritePreservesMeaning: cancellation arriving between steps is not modelled, because a rewritten body has more interruption checkpoints than the body has. What it excludes is what RewriteRedeclare, RewriteSharing and RewriteShadow are about. Of range loops it asks that nothing declared ahead of the first await is spelled like a range variable, though assigning that instead is often not seen, and of variables assigned to `_` that no := captures them.
- RewriteScopes.UnshadowedReadsAsMeant: a captured name of another type, which does not compile, is read here like one of the same type; declarations are those of `:=`, and `var` and `const` statements are not modelled.
- RewriteShadow.HidingLoopsKeptExactly: is about loops without a condition or post statement, whose variables start at their zero values; a post statement may overwrite what was passed wrongly.
- RewriteRedeclare.RedeclarationKeptEverywhereExactly: asks right-hand sides without && and ||, since the right of one may never be evaluated.
- Fairness, wall-clock liveness and Go's memory model: one section under a lock, one send or one receive is one step.
- The channels and goroutines that waiters block on: a channel is its content, and blocking is having none.
- `TakeUpTo` is not atomic in the code either: it is a Take and then a Drain, two steps here.
- Hub inboxes are known by their tokens; `Subscriptions` runs one inbox's queue beside the hub. That a publish learns of an interruption from the very offerer that left is not coupled.
- Cancelling a scope's context, and the contexts finalizers run under.
- `RunPair` and `RunAll` when a fresh scope refuses a branch, which the code itself calls unreachable.
- Scopes.CompletionComesLast: a fiber's scope is closed by nobody else, because no other code is given a reference it can close; `runtime.Goexit` in a fiber's work is not modelled.
- RewriteSharing.UnshadowedLoopsKeptExactly: asks a post statement without && and ||, on whose right-hand side an address may never be taken; the loop variables start at their zero values.
- Configs.NestsAsItMountsExactly: asks a description without alternatives and lists, since an alternative may never be tried and a list's text decides what is read; Configs.ReachedZeroShows covers alternatives that are tried.
- Groups.ReturnsExitsInOrder: is about every run; that a group does return is AlwaysGoesOn, which takes it that bodies and finalizers end.
- Jitter, `MapOutput`, `Repeat`, the fallback of RetryOrElse and the events retrying reports.
- Streams over queues and subscriptions, endless sources, resource scopes and failing pulls: sources here are chunk lists and single values, and Streams.TakeIgnoresTheRest says what an endless source adds to a list that holds enough.
- `MapInput`, flat sources' key arithmetic, expectations other than the first path, rendering and secrets.
- Locks, loggers, observers, spans, ledgers and the typed wrappers over the erased runtime.
