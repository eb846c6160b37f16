# asgiref: verification model

asgiref lets synchronous and asynchronous Python code call each other. This project models the
five parts that make it work and proves what they promise for every run, every nesting of calls
and every input.

| file | part |
|---|---|
| `ExecutorProtocol.dfy`, `ExecutorInvariant.dfy`, `ExecutorTheorems.dfy`, `ExecutorWalks.dfy` | `CurrentThreadExecutor` as a protocol between threads: one action per region under a lock, per wait, notify and callback; its inductive invariant; the theorems over all runs |
| `CurrentThreadExecutor.dfy` | the same class as objects, with its two loops |
| `Contexts.dfy`, `Bridge.dfy`, `UpToEquality.dfy`, `BridgeRelation.dfy`, `BridgeTheorems.dfy`, `BridgeResults.dfy` | programs that cross between sync and async code, run directly on one thread and run through the bridge; the proof that `==` cannot tell the two runs apart; executor stack and thread affinity |
| `BridgePremises.dfy` | where the premises on the starting context are needed, each with its exact condition |
| `BridgeLoops.dfy` | on which loop every coroutine runs and which calls wait for ever, read off the direct run |
| `BridgeWaits.dfy` | the same for whole programs and for tasks |
| `BridgeReturns.dfy` | what a call leaves behind: broken executors, the shared worker's context, the single worker's mark |
| `BridgeDeadlock.dfy` | sync code is never sent to a thread that waits for it |
| `BridgeExact.dfy` | when the two runs give the very same values: if and only if `==` tells all values in use apart |
| `BridgeTasks.dfy` | tasks that take turns between their awaits, and what each of them does alone |
| `ExecutorLink.dfy` | the executors of the bridge are those of the protocol |
| `BridgeCalls.dfy` | `AsyncToSync` and `SyncToAsync` statement by statement, each call proved to have the effect the bridge evaluator gives it |
| `LocalHeap.dfy`, `Locals.dfy` | the dictionaries, storages and contexts behind `Local`, with real sharing; `Local` itself, plain and thread-critical |
| `Utf8.dfy`, `Environ.dfy`, `EnvironHeaders.dfy`, `Wsgi.dfy`, `WsgiStart.dfy`, `WsgiTheorems.dfy` | `WsgiToAsgiInstance`: path split, environ, `start_response`, the stream of messages |
| `Server.dfy`, `ServerRuns.dfy` | the instance pool of `StatelessServer`; who leaves it, and when |
| `Wrappers.dfy` | `Option` and `Result` |

`dafny verify dfyconfig.toml` checks all of it.

## How the parts fit

- A run of the executor protocol is any sequence of enabled actions, so every interleaving is
  one. `SubmitIsLinearizable` shows that a run in which `submit` walks the chain lock by lock is a
  run in which each `submit` is one step. The class in `CurrentThreadExecutor.dfy` and the bridge
  use that one step: both find the first executor of the chain that is not broken
  (`SubmitToIsSubmit` for the bridge).
- In `LocalHeap.dfy` a context holds references to storage objects, a storage holds a reference
  to a dictionary, copying a context shares storages and re-homing shares dictionaries. Each
  operation is proved equal to the operation on plain values in `Contexts.dfy`, so `Bridge.dfy`
  and `Locals.dfy` can reason about values.
- In `BridgeCalls.dfy` the methods update the class-level tables, thread-locals and the current
  context in the order the code does. Their postconditions equate the new state with
  `RunBridged`, and the theorems are about `RunBridged`.
- `StatelessServer` is proved against a list in order of last use, and the list against the same
  list without a bound.

## Premises of the bridge

- Every storage in the starting context that holds attributes carries the tag of the starting
  thread. For Locals this is necessary as well; for the storage of the visible executor it is
  necessary from async code (`LoopTagsMatter`) and no matter from sync code (`TagsMatter`).
- On the values of context variables `==` is an equivalence, and the result of `!=` can be tested
  for truth: `_restore_context` asks for it (asgiref/sync.py:49), and where that raises, so does
  the call. (For a value that is not equal to itself, setting it again changes nothing.) An
  `If` of a program asks for `==`, nothing finer.
- A thread with a loop of its own starts with an empty context, or with a copy of the caller's
  when `sys.flags.thread_inherit_context` is set; the theorems hold for both (`inherit`).
- Inside an `AsyncSingleThreadContext` all such loops run in one thread (`Workers`). What that
  thread got from its first caller must be within what later callers have, for which
  `SharedWorkerMatters` gives the exact condition. With inheritance and an async start it must have
  been started before, lest a task does it with variables of its own. A call that makes its own
  loop while the thread is occupied waits for ever: that is an outcome of its own (`Waits`), up to
  which a run has read what the direct run reads, and `SyncWaitsWhen` and `AsyncWaitsWhen` say
  exactly when it comes about.
- The `context` argument of `SyncToAsync` is `None`.
- On the path that uses the parent's loop, the `finally` of `main_wrap` is through before the
  caller reads `context[0]`. The code enforces this order on the other path only, where the
  caller waits for `loop_future` (asgiref/sync.py:321-325); on this one it is an assumption, as
  `call_result` is set first (asgiref/sync.py:373-380).
- Exceptions are ordinary ones: neither `CancelledError` nor `StopIteration`.
- `Task` is a task that its creator awaits at once. `TaskRunsLater` covers one that runs at any
  later time while a frame around it is still blocked, and `BridgeTasks.dfy` any number of tasks
  that take turns, and create more, between what they await.

## What the proofs found

- The content length in force is not always that of the call whose start message is in force. A
  later `start_response` with `exc_info` resets it before it fails on a Content-Length that is no
  number (asgiref/wsgi.py:137-140). `StartAndLengthUsed` gives the exact condition,
  `LateFailureLosesTheLength` an input.
- A negative Content-Length stops no chunk and shortens each from its end, by more the more has
  been sent (asgiref/wsgi.py:183-185). `NegativeLength` gives the whole response; its body is empty
  if and only if no chunk is longer than the length is negative. `NegativeLengthStillSends` has
  an input for either case.
- `_restore_context` leaves a variable alone when its value equals the new one
  (asgiref/sync.py:49-50), so a change from `1` to `True` on the other side is lost
  (`TrueBecomesOne`). `RestoredExactly` says of one variable when that happens, `SyncExactlyWhen`
  and `AsyncExactlyWhen` of whole programs: they get exactly the direct run's values if and only
  if `==` tells all values in use apart. Up to `==` nothing is ever lost.
- A storage with another thread's tag is invisible until one crossing re-tags it
  (`ForeignStorageSurfaces`), whatever thread it came from (asgiref/sync.py:46-47). On a loop this
  goes for the executor in such a storage as well: the first sensitive call gets through, and its
  way back re-tags the storage, so that the next one is sent to the other thread's executor and is
  refused when that is broken (`ForeignExecutorTakesOver`, `LoopTagsMatter`).
- A shared worker thread that inherited variables and Locals from its first caller shows them to
  coroutines of later callers that do not have them (`SharedWorkerMatters`).
- Inside an `AsyncSingleThreadContext` an `AsyncToSync` call with `force_new_loop`, made from sync
  code within another such call, never returns: the pool's only thread runs the outer loop, which
  waits for the call (asgiref/sync.py:305-325, `ForcedCallWaits`). Without `force_new_loop` no
  program waits (`SyncNeverWaits`, `AsyncStaysOnItsLoop`), nor do any tasks (`NeverStuckUnforced`).
- `thread_handler` sets the thread's loop and nothing puts the old one back
  (asgiref/sync.py:567-570). So when sync code that a loop handed out has made a forced call with
  sensitive sync code in it, its thread remembers a loop that is gone, and its next `AsyncToSync`
  makes a loop of its own although the loop it works for still runs (`ForcedCallForgets`).
  `FollowsCourse` follows this memory and says of every call on which loop it runs.
- A task that outlives every `AsyncToSync` frame around it gets a `RuntimeError` at its next
  thread-sensitive call (`TaskOutlivesItsFrames`).
- With `max_applications` below zero a new scope empties the pool and ends in a `ValueError`,
  because `min()` meets no entry (asgiref/server.py:100-101, 126-128). `GetOrCreateApplicationInstance`
  states this case as well.

## Model

| member | source | states |
|---|---|---|
| ExecutorInvariant.KeepsExecutors | asgiref/current_thread_executor.py:69-86 | every action keeps flag, callback, runner and queue of each executor in agreement, and accepted = served + in hand + queued |
| ExecutorInvariant.KeepsPlacement | asgiref/current_thread_executor.py:106-112 | an item is in the history of exactly the executor that accepted it, once |
| ExecutorInvariant.KeepsFutures | asgiref/current_thread_executor.py:30-41 | a future tells how far its executor has got: waiting while queued, running in hand, over when served |
| ExecutorInvariant.KeepsHistory | asgiref/current_thread_executor.py:30-41 | start, settle, skip and cancel events of an item occur exactly as often as its future's state says |
| ExecutorInvariant.KeepsWalks | asgiref/current_thread_executor.py:105-115 | an item on its way has only broken executors behind it, a refused one a wholly broken chain |
| ExecutorInvariant.ExtendsByStep | asgiref/current_thread_executor.py:51-56 | executors are only added, keep thread and parent, and once broken stay broken, under every action |
| ExecutorInvariant.PassOneMore | asgiref/current_thread_executor.py:107-115 | one more broken executor passed: either the walk stands on its parent or the whole chain is broken |
| ExecutorInvariant.KeepsLoopTable | asgiref/sync.py:280-286 | entering and leaving `new_loop_wrap` keep the table equal to the loops that are inside |
| ExecutorInvariant.RunKeepsInvariant | asgiref/current_thread_executor.py:58-118 | the invariant holds after every run |
| ExecutorInvariant.ReachableStates | asgiref/current_thread_executor.py:58-118 | so it holds in every reachable state |
| ExecutorTheorems.FirstRunning | asgiref/current_thread_executor.py:103-115 | an executor found up the chain is not broken and no newer than the start |
| ExecutorTheorems.WalkFindsFirst | asgiref/current_thread_executor.py:105-115 | wherever the walk stands, the first running executor from there is the first from its start |
| ExecutorTheorems.VisitIsSubmit | asgiref/current_thread_executor.py:105-115 | the step that settles a walk does what an atomic submit would do at that moment |
| ExecutorTheorems.SubmitIsLinearizable | asgiref/current_thread_executor.py:105-115 | every run with interleaved walks is a run of the protocol with atomic submits, ending in the same state |
| ExecutorTheorems.SubmitOutcome | asgiref/current_thread_executor.py:107-115 | at the append the receiver is the first non-broken executor of the chain and the item is last in its queue; at the RuntimeError every executor of the chain is broken; otherwise the walk gets strictly closer to the end |
| ExecutorWalks.VisitIsEnabled | asgiref/current_thread_executor.py:105-115 | in every reachable state the next turn of every submit on its way can be taken |
| ExecutorWalks.WalkIsShort | asgiref/current_thread_executor.py:105-115 | in every run a submit takes at most as many turns as its chain is long |
| ExecutorWalks.WalkEnds | asgiref/current_thread_executor.py:105-115 | within that many turns of its own it is accepted or refused |
| ExecutorLink.SubmitAlike | asgiref/current_thread_executor.py:105-115 | the walk of the bridge finds the executor that the walk of the protocol finds |
| ExecutorLink.SubmitToIsSubmit | asgiref/current_thread_executor.py:96-115 | what the bridge takes a submit to do is what the atomic submit of the protocol does, acceptance and refusal |
| ExecutorTheorems.Conservation | asgiref/current_thread_executor.py:77-86 | in every reachable state accepted = served, then in hand, then queued, in order, without repeats and without sharing between executors |
| ExecutorTheorems.ServedExactlyOnce | asgiref/current_thread_executor.py:30-41 | a served item was started and settled once, or skipped once after a cancel, never both; a queued one has seen neither |
| ExecutorTheorems.ReturnsServed | asgiref/current_thread_executor.py:75-86 | `run_until_future` has returned only when its future is done, its queue is empty and all it accepted is over |
| ExecutorTheorems.BrokenForGood | asgiref/current_thread_executor.py:69-72 | a broken executor stays broken and accepts nothing more in any later state |
| ExecutorTheorems.NothingStranded | asgiref/current_thread_executor.py:77-86 | after the return the queue is empty in all later states, whichever submits are still walking |
| ExecutorTheorems.DrainsExactlyTheQueue | asgiref/current_thread_executor.py:77-86 | what is served after the flag was set is exactly what was then in hand or queued, in that order |
| ExecutorTheorems.NoLostWakeup | asgiref/current_thread_executor.py:69-84 | with work queued or the flag set, the runner is not parked without a notify and its next step is enabled |
| ExecutorTheorems.FinishedFutureBreaks | asgiref/current_thread_executor.py:69-74 | once the future is done the flag is set or the callback can set it |
| ExecutorTheorems.OthersLeaveOwnerAlone | asgiref/current_thread_executor.py:107-112 | no other thread changes runner or queue of a broken executor |
| ExecutorTheorems.OwnersStepCounts | asgiref/current_thread_executor.py:77-86 | each step of the owner of a broken executor strictly lowers a measure built on the queue length |
| ExecutorTheorems.OwnerReturns | asgiref/current_thread_executor.py:77-86 | from every state with the flag set the owner alone reaches its return within that measure |
| ExecutorTheorems.LoopTableIsExact | asgiref/sync.py:280-286 | in every reachable state a loop is listed exactly while one wrapper is inside its body, under the executor of that call, which is not broken |
| CurrentThreadExecutor.WorkItem.Run | asgiref/current_thread_executor.py:30-41 | a cancelled item is skipped and told so; any other ends with its function's value or exception in its future |
| CurrentThreadExecutor.CurrentThreadExecutor.constructor | asgiref/current_thread_executor.py:51-56 | a new executor is empty, unbroken and on top of the old one's chain |
| CurrentThreadExecutor.CurrentThreadExecutor.ChainIsAcyclic | asgiref/current_thread_executor.py:113-115 | following `_old_executor` never meets an executor twice |
| CurrentThreadExecutor.CurrentThreadExecutor.Submit | asgiref/current_thread_executor.py:88-118 | refuses its own thread; otherwise appends one new pending item to the first non-broken executor of the chain and changes no other queue, or fails when there is none |
| CurrentThreadExecutor.CurrentThreadExecutor.Walk | asgiref/current_thread_executor.py:105-115 | the loop: ends by the length of the chain, at the first executor that is not broken |
| CurrentThreadExecutor.CurrentThreadExecutor.Deliver | asgiref/current_thread_executor.py:69-72 | one arrival under the lock: the flag is set, or an item appended unless broken; what lies ahead stays the same |
| CurrentThreadExecutor.CurrentThreadExecutor.LetOthersIn | asgiref/current_thread_executor.py:79-80 | the wait ends with work or with the flag, and loses nothing |
| CurrentThreadExecutor.CurrentThreadExecutor.Pass | asgiref/current_thread_executor.py:77-86 | one pass leaves when all is served and the flag set, or serves exactly the next item |
| CurrentThreadExecutor.CurrentThreadExecutor.RunUntilFuture | asgiref/current_thread_executor.py:58-86 | refuses another thread; otherwise runs, in order, exactly the items submitted before the future was done, however the arrivals interleave with the loop, and settles each as its state asks |
| Contexts.RestoreContext | asgiref/sync.py:37-52 | the loop sets every variable of the source, re-homed, on top of what was there, except those whose current value equals the new one |
| Contexts.RestoredExactly | asgiref/sync.py:47-52 | a restored variable has exactly the source's value if and only if its value was not an equal but different one |
| Contexts.RestoredWhollyExactly | asgiref/sync.py:40-52 | a restore is a plain overwriting if and only if there is no such variable |
| UpToEquality.DirectRespects | asgiref/sync.py:49 | a direct run from equal inputs and variables gives equal values, reads and variables |
| BridgeTheorems.RestoreShows | asgiref/sync.py:37-52 | a restored context shows what the source shows, up to ==, with its thread's tags and the same visible executor |
| BridgeTheorems.WalkFindsBlocked | asgiref/current_thread_executor.py:105-115 | with an executor stack that mirrors the frames, the walk of `submit` ends at the closest frame still blocked |
| BridgeTheorems.ThreadChosen | asgiref/sync.py:462-492 | no error of the thread choice can occur, no loop's thread is chosen, and sensitive code gets the closest blocked frame's thread or else the worker |
| BridgeTheorems.Entered | asgiref/sync.py:494-508 | on the worker, the copied and re-homed context shows what the caller saw |
| BridgeTheorems.Back | asgiref/sync.py:544-547 | after the call the loop's context shows what the sync code left, up to ==, with its thread's tags |
| BridgeTheorems.CallEntered | asgiref/sync.py:251-257 | the coroutine, on the parent's loop, a new thread's or a shared thread's, starts with what the caller sees, up to ==, and with a new executor that is not broken |
| BridgeTheorems.LoopStarts | asgiref/sync.py:303-321 | the thread of a new loop holds nothing but what the caller has, whether it is new or shared |
| BridgeTheorems.LoopClosed | asgiref/sync.py:283-286 | after `new_loop_wrap` the loop table is as before it |
| BridgeTheorems.FrameClosed | asgiref/sync.py:326-329 | the `finally` shows what the coroutine left, up to ==, and puts the old executor back |
| BridgeTheorems.SyncToAsyncMatches | asgiref/sync.py:457-549 | if the sync code did what it does directly, up to ==, so did the whole `SyncToAsync` call |
| BridgeTheorems.AsyncToSyncMatches | asgiref/sync.py:217-332 | if the coroutine got to run and did what it does directly, up to ==, so did the whole `AsyncToSync` call |
| BridgeTheorems.TaskMatches | asgiref/local.py:86-88 | a task sees its creator's values and leaks nothing back |
| BridgeTheorems.BridgeIsTransparent | asgiref/sync.py:217-332 | for every program and up to ==: same value or exception, same reads in order, same variables and Local contents as on one thread; executors below, loop table and visible executor exactly as before; or the run waits for ever for an occupied shared thread, having read what the direct run reads up to there |
| BridgeResults.SyncProgram | asgiref/sync.py:217-332 | transparency up to == for any program started in sync code, with any variables set, as far as it runs, which with a thread per call is to its end |
| BridgeResults.AsyncProgram | asgiref/sync.py:457-549 | the same for any program started in async code |
| BridgeLoops.CourseRespects | asgiref/sync.py:49 | on which loops coroutines run, and whether a run waits, is the same for equal inputs and variables |
| BridgeLoops.FollowsCourse | asgiref/sync.py:220-325 | from any state and in every mode, a run has exactly the calls of the direct run in their order, each coroutine on the loop foreseen: a new one if the call is forced or its thread remembers no running loop, else the remembered one; no other loop is made, and it waits for ever exactly if a loop of its own is needed while the shared thread has one |
| BridgeWaits.SyncFollowsCourse | asgiref/sync.py:220-325 | the same for a whole program from sync code that remembers no loop |
| BridgeWaits.AsyncFollowsCourse | asgiref/sync.py:220-325 | the same for a whole program from async code |
| BridgeWaits.UnforcedStays | asgiref/sync.py:220-299 | without `force_new_loop`, async code on a loop and sync code that remembers it run every coroutine on that loop, make none and never wait |
| BridgeWaits.AsyncStaysOnItsLoop | asgiref/sync.py:288-299 | so a program from async code runs every coroutine on the loop it started on, in every mode |
| BridgeWaits.UnforcedNeverWaits | asgiref/sync.py:220-233 | without `force_new_loop`, sync code that remembers no loop never waits for ever outside a loop that a call made |
| BridgeWaits.SyncNeverWaits | asgiref/sync.py:220-233 | so a program from sync code never does |
| BridgeWaits.SyncWaitsWhen | asgiref/sync.py:303-325 | a program from sync code waits for ever if and only if its direct run comes to a call that makes its own loop within such a call inside an `AsyncSingleThreadContext`; it does what the direct run does, up to ==, if and only if not |
| BridgeWaits.AsyncWaitsWhen | asgiref/sync.py:303-325 | the same from async code |
| BridgeWaits.NeverStuckUnforced | asgiref/sync.py:220-233 | tasks without `force_new_loop` never get stuck, however they take turns |
| BridgeWaits.ForcedCallWaits | asgiref/sync.py:305-325 | a program that waits for ever inside an `AsyncSingleThreadContext`, gives its input directly and returns with a thread per call |
| BridgeWaits.ForcedCallForgets | asgiref/sync.py:567-570 | a program from async code whose second, unforced call runs on a loop of its own, and on the loop it works for if the first call has no sensitive code in it |
| BridgeReturns.LeavesNoneWaiting | asgiref/current_thread_executor.py:69-86 | a run that returns, however it ends, has broken every executor made on the way |
| BridgeReturns.TaskAfterCall | asgiref/current_thread_executor.py:103-115 | after a call, sensitive code of a task created in it goes to the closest call around that still waits, and is refused if there is none |
| BridgeReturns.CallIsOver | asgiref/current_thread_executor.py:69-74 | after an outermost call its executor is broken, and code that still sees it is refused |
| BridgeReturns.FirstCallStartsWorker | asgiref/sync.py:305-316 | the first loop inside an `AsyncSingleThreadContext` starts the worker with the caller's variables if threads inherit, else with none |
| BridgeReturns.MarkRefuses | asgiref/sync.py:482-485 | without an executor, a sensitive context or a listed loop, a sensitive call raises exactly when `deadlock_context` is set |
| BridgeReturns.MarkIsSetInside | asgiref/sync.py:486-547 | otherwise its code runs on the single worker with `deadlock_context` set, which is not set any more after the call |
| BridgeDeadlock.NoSelfDeadlock | asgiref/sync.py:462-489 | along any awaited program, every thread given to sync code is free or blocked in the very frame whose executor was chosen |
| BridgeExact.BridgedStays | asgiref/sync.py:37-52 | the bridge brings no value into play that was not there |
| BridgeExact.SyncExactlyWhen | asgiref/sync.py:49-50 | from sync code, every program with these values that returns gets exactly the direct run's results if and only if == tells the values apart |
| BridgeExact.AsyncExactlyWhen | asgiref/sync.py:49-50 | the same from async code |
| BridgeExact.TrueBecomesOne | asgiref/sync.py:49-50 | 1 set on the loop and True set in sync code: the loop reads 1, a direct run True |
| BridgeResults.ExecutorStackDiscipline | asgiref/sync.py:251-253 | after any code that returns, at any depth and however it ends, `executors.current` is what it was; each new executor's chain is exactly the frames around its call |
| BridgeResults.ThreadAffinity | asgiref/sync.py:462-489 | every sensitive call ran on the thread of the nearest enclosing `AsyncToSync` frame still blocked, or on the worker when there was none, in a run that waits for ever as well |
| BridgeResults.ChosenAtHome | asgiref/sync.py:462-489 | if every frame belongs to one thread, sensitive code is sent to that thread |
| BridgeResults.StaysHome | asgiref/sync.py:396-398 | in a program whose `sync_to_async` calls are all sensitive, all sync code runs on one thread |
| BridgeResults.OneSyncThread | asgiref/sync.py:389-398 | from a sync start that thread is the starting one |
| BridgeResults.OneWorkerThread | asgiref/sync.py:393-395 | from an async start it is the one worker |
| BridgeResults.TaskRunsLater | asgiref/current_thread_executor.py:103-115 | a task that runs later behaves as if run at its creation, whichever frames have come or gone, while one around it is blocked |
| BridgeTasks.OthersStayReady | asgiref/sync.py:251-329 | what one task does leaves every other task ready to go on: the frames around it, the loop table and the shared thread are as it needs them |
| BridgeTasks.TasksAreTransparent | asgiref/local.py:83-89 | whatever the order of turns, every task and its creator have, up to ==, the reads, values and variables they have when each runs directly by itself, unless a piece comes to wait for ever |
| BridgeTasks.NeverStuckPerCall | asgiref/sync.py:318-319 | with a thread per call no task ever gets stuck |
| BridgeTasks.TurnsDoNotMatter | asgiref/local.py:83-89 | on the direct side, a task comes to what it comes to alone, whatever other tasks do in between |
| BridgeTasks.FinishedTask | asgiref/local.py:83-89 | a task that is through, with none stuck, has, up to ==, read, come to and left what its whole program does directly from the variables it started with |
| BridgeResults.TaskOutlivesItsFrames | asgiref/current_thread_executor.py:113-114 | with every frame around it gone, its sensitive call is refused and changes nothing |
| BridgeResults.FallbackThread | asgiref/sync.py:479-481 | sensitive code that sees no executor, on a loop that a call made, goes to that call's thread or that of the closest call around it that has not returned; refused if and only if all have |
| BridgeResults.ContextComesFirst | asgiref/sync.py:468-478 | within a `ThreadSensitiveContext` it goes to the context's own worker, whether the loop is listed or not |
| BridgeResults.ListedStayRunning | asgiref/sync.py:280-286 | no run leaves a listed loop whose call has returned, so such code is not refused |
| BridgePremises.ForeignStorageSurfaces | asgiref/sync.py:43-47 | storage of another thread is unreadable before a crossing and readable after it |
| BridgePremises.TagsMatter | asgiref/local.py:45-52 | from sync code, every program runs as it does directly on what the thread sees if and only if no Local in the context holds attributes of another thread, whosever executor the context holds |
| BridgePremises.LoopTagsMatter | asgiref/local.py:45-52 | from async code it does if and only if neither a Local nor the visible executor is another thread's |
| BridgePremises.ForeignExecutorTakesOver | asgiref/sync.py:464-467 | with another thread's executor in the context a first sensitive call returns, and the next one is submitted to that executor |
| BridgePremises.SharedWorkerMatters | asgiref/sync.py:305-316 | inside an `AsyncSingleThreadContext`, every program runs as it does directly, as far as it runs, if and only if the shared thread holds no variable and no Local the caller lacks |
| BridgeCalls.Process.NewExecutor | asgiref/sync.py:251-253 | the new executor sits on the one visible before |
| BridgeCalls.Process.MainWrap | asgiref/sync.py:356-380 | restore, run, leave a copy of the final context: the coroutine's run and nothing else |
| BridgeCalls.Process.NewLoopWrap | asgiref/sync.py:280-286 | the coroutine's run between listing and unlisting a new loop, in a new thread or the shared one |
| BridgeCalls.Process.Prepare | asgiref/sync.py:220-257 | picks the parent's loop exactly when it is known, allowed and accepting, and makes the frame; on which loops that puts every coroutine is `BridgeLoops.FollowsCourse` |
| BridgeCalls.Process.Leave | asgiref/sync.py:326-329 | restores the coroutine's context and the old executor, with the frame's own executor broken; what that means for code that still sees it is `BridgeReturns.TaskAfterCall` |
| BridgeCalls.Process.Await | asgiref/sync.py:288-325 | the coroutine's run on the parent's loop, a new loop or the shared thread's, or no run and no return when that thread is occupied |
| BridgeCalls.Process.CallAsyncToSync | asgiref/sync.py:217-332 | the whole call has the effect the bridge evaluator gives it, on every path |
| BridgeCalls.Process.PickThread | asgiref/sync.py:462-492 | the chain of branches gives the thread, marks `deadlock_context` only for the single worker, and changes nothing when it raises |
| BridgeCalls.Process.CallSyncToAsync | asgiref/sync.py:457-549 | the whole call has the effect the bridge evaluator gives it, on every path |
| BridgeCalls.Process.ThreadHandler | asgiref/sync.py:560-581 | records the loop for the thread, enters the re-homed context, runs the function |
| BridgeCalls.Process.Run | asgiref/sync.py:217-549 | running any program with these calls equals the bridge evaluator's run, state and all |
| LocalHeap.Heap.GetAttr | asgiref/local.py:45-58 | reads the running thread's storage only; other storage counts as empty |
| LocalHeap.Heap.SetAttr | asgiref/local.py:60-66 | sets one attribute in one context; every other context keeps its contents, whatever is shared |
| LocalHeap.Heap.DelAttr | asgiref/local.py:68-74 | deletes one attribute in one context, or fails and changes nothing |
| LocalHeap.Heap.Copy | asgiref/sync.py:257 | a new context with the same storage objects in it |
| LocalHeap.Heap.Rehome | asgiref/local.py:32-34 | a new storage object with the very same dictionary and the new thread's tag |
| LocalHeap.Heap.SetUnlessSame | asgiref/sync.py:48-52 | a variable is set unless its value equals the new one; equal storages are the same object |
| LocalHeap.Heap.RestoreContext | asgiref/sync.py:37-52 | the restore loop on shared objects equals the restore on values, kept values included, and adds no dictionary |
| LocalHeap.Heap.DoAll | asgiref/local.py:45-74 | over any sequence of copies, restores, sets and deletes the shared objects act as if nothing were shared, and no dictionary once stored is ever changed |
| Locals.WritesStayInTheirContext | asgiref/local.py:60-74 | no operation on other contexts changes what a context sees |
| Locals.LocalIsPlainMap | asgiref/local.py:54-74 | within its own context and thread a Local is a plain dictionary |
| Locals.RunKeepsProvenance | asgiref/local.py:118-149 | in every state, all that is stored for a thread was written on that thread |
| Locals.ReadsOnlyItsOwnThread | asgiref/local.py:96-100 | whatever is copied and restored between threads, a thread-critical read gives a value the same thread wrote under that name |
| Locals.RunCarries | asgiref/sync.py:40-52 | a thread's own thread-critical values are in every context that descends from one that had them by copies and restores, whatever other threads do |
| Locals.SurvivesRoundTrip | asgiref/sync.py:544-546 | after any round trip through other threads, bridges and loops of their own, every thread-critical read on the async thread is as before |
| Locals.NestedLoopIsCovered | asgiref/sync.py:318-329 | a loop that starts from an empty context inside the round trip is on the way |
| Locals.SyncReadsItsOwn | asgiref/local.py:128-132 | on a sync thread a thread-critical Local is a plain dictionary: whatever other threads, contexts and async code do, it reads what the thread's own writes and deletes make of it |
| Locals.SyncLastWrite | asgiref/local.py:156-168 | what it reads under a name is the last value written under it, unless deleted since |
| Locals.AsyncReadsItsOwn | asgiref/local.py:133-149 | async code in its own context has a plain dictionary as well, as long as nothing is restored into that context |
| Locals.NewLocalIsEmpty | asgiref/local.py:118-126 | a new thread-critical Local is empty on every thread |
| Locals.Local.LockStorage | asgiref/local.py:118-154 | which storage is used: the shared variable, the thread's own, or the async variable made for the thread on first use |
| Locals.Local.GetAttr | asgiref/local.py:156-158 | reads from that storage, and what it changes by the way |
| Locals.Local.SetAttr | asgiref/local.py:160-164 | writes to that storage and to nothing else; that the value is read afterwards is `SyncReadsItsOwn` and `AsyncReadsItsOwn` |
| Locals.Local.DelAttr | asgiref/local.py:166-168 | deletes from that storage, or fails exactly when the attribute cannot be read |
| Utf8.EncodedOneDecodes | asgiref/wsgi.py:62-63 | a character's encoding is read back from any text that begins with it |
| Utf8.DecodedOneEncodes | asgiref/wsgi.py:62-63 | the decoder accepts no second form of a character |
| Utf8.RoundTrip | asgiref/wsgi.py:62-63 | decoding an encoding gives the text |
| Utf8.RoundTripBack | asgiref/wsgi.py:62-63 | encoding a decoding gives the bytes |
| Utf8.PrefixCode | asgiref/wsgi.py:64 | encodings are prefixes of one another exactly when the texts are |
| Utf8.ToLatin1 | asgiref/wsgi.py:62-63 | a text is latin1 exactly when all its characters are below 256, and then it is the bytes' image |
| Utf8.Latin1Back | asgiref/wsgi.py:62-63 | bytes come back from their latin1 text |
| Utf8.PathSplits | asgiref/wsgi.py:62-65 | the root is taken off exactly when it is a character prefix of the path; PATH_INFO then encodes the rest, and SCRIPT_NAME + PATH_INFO reads as the path |
| Environ.ValueInItsPlace | asgiref/wsgi.py:93-111 | no header value is lost or moved within its variable |
| Environ.PlacesDiffer | asgiref/wsgi.py:93-111 | two headers of one variable have different places |
| Environ.PlaceHasItsHeader | asgiref/wsgi.py:93-111 | no value is made up: every place belongs to exactly one header |
| Environ.JoinSplits | asgiref/wsgi.py:112-113 | values without commas come back from the joined entry, in order |
| Environ.AllHeadersApart | asgiref/wsgi.py:66-100 | header variables never collide with the other environ keys |
| Environ.EnvironTells | asgiref/wsgi.py:62-91 | SCRIPT_NAME decodes to the root, PATH_INFO to the path without it if the path begins with it and else to the path; method, query, protocol, scheme, server and client are those of the scope or the defaults; there are no other keys but the headers' |
| EnvironHeaders.CgiNameIs | asgiref/wsgi.py:94-100 | `content-length` and `content-type`, named exactly so, have variables of their own; any other name follows `HTTP_`, in upper case and with `_` for `-` |
| EnvironHeaders.UpperInTwo | asgiref/wsgi.py:100 | outside ASCII as well each character of a name is replaced on its own |
| EnvironHeaders.SharedVariable | asgiref/wsgi.py:94-111 | two ASCII names share a variable exactly when they differ at most in case and in `-` for `_` |
| EnvironHeaders.JoinedReadsAll | asgiref/wsgi.py:112-113 | a joined entry, taken apart at its commas, is all values taken apart at theirs, in order |
| EnvironHeaders.JoinedAgain | asgiref/wsgi.py:112-113 | taking apart loses nothing |
| EnvironHeaders.HeaderReads | asgiref/wsgi.py:93-113 | in every environ each header's variable is there and reads as the values of all headers that share it |
| Environ.GroupHeaders | asgiref/wsgi.py:92-111 | succeeds exactly when every variable occurs at most `limit` times (any number without a limit), grouping every value; otherwise names a variable above the limit |
| Environ.AddHeaders | asgiref/wsgi.py:112-113 | every group is joined once, all other keys are untouched |
| Environ.BuildEnviron | asgiref/wsgi.py:58-114 | succeeds exactly for an ASCII query string and headers within the limit; then every key tells what the scope says (`EnvironTells`) and each header variable is the comma-join of its values in order of arrival |
| Wsgi.WsgiToAsgiInstance.Start | asgiref/wsgi.py:116-146 | the new start message, length and error of `start_response`, on every error path, as `StartFails` and `StartLeaves` describe them |
| WsgiStart.StartFails | asgiref/wsgi.py:121-140 | which error a call ends with, each exactly when: response begun, second call without exc_info, no number before a space, a character outside ASCII, a Content-Length that is no number |
| WsgiStart.StartLeaves | asgiref/wsgi.py:128-146 | the status, headers and length a call leaves, said by position in its headers |
| WsgiStart.FindsLastLength | asgiref/wsgi.py:136-140 | the length is that of the last Content-Length wherever it stands; with one that is no number, that of the last one before the first such |
| WsgiStart.LengthHeaderIs | asgiref/wsgi.py:139 | a header is a Content-Length exactly when its name is that but for case |
| WsgiStart.EncodedHeadersAre | asgiref/wsgi.py:131-134 | headers keep their order and values, and names their letters in lower case |
| WsgiStart.BadRequestReads | asgiref/wsgi.py:159-171 | what a refused request is answered with |
| Wsgi.WsgiToAsgiInstance.SendStart | asgiref/wsgi.py:176-179 | the start message is sent once, before the first body, or its absence raises |
| Wsgi.WsgiToAsgiInstance.RunApplication | asgiref/wsgi.py:173-197 | the loop gives the messages, the end and the number of pulled chunks that the streaming function gives for every application |
| Wsgi.WsgiToAsgiInstance.RunWsgiApp | asgiref/wsgi.py:148-197 | a request whose environ cannot be built gets exactly the two messages of the 400, any other goes to the application with the environ its headers give |
| WsgiTheorems.ResponseGrammar | asgiref/wsgi.py:174-197 | for every application the trace is one start, bodies that announce more, one final body when it finishes, and a prefix of that otherwise |
| WsgiTheorems.ServeStarted | asgiref/wsgi.py:175-192 | from any point of a started response and with any length, what is still sent, pulled and finished |
| WsgiTheorems.CutIsPrefix | asgiref/wsgi.py:181-185 | the clamped chunks together are the first min(n, total) bytes, all but the last whole |
| WsgiTheorems.NoneTooMany | asgiref/wsgi.py:189-192 | no chunk but the first is pulled once the total has reached the length |
| WsgiTheorems.ResponseIs | asgiref/wsgi.py:174-197 | the whole trace for every application and every length: nothing at all without a start in force, else the start, the chunks as far as the length lets them, and the final body exactly when the application ends normally or the length is reached |
| WsgiTheorems.ContentLength | asgiref/wsgi.py:180-192 | with n >= 0 the body is the first min(n, total) bytes and no chunk but the first is pulled once n bytes are there; without a length every chunk is sent unchanged |
| WsgiTheorems.NegativeLength | asgiref/wsgi.py:180-192 | with n < 0 every chunk is pulled and sent sliced at n minus what was sent before, the response ends as the application does, and the body is empty if and only if no chunk is longer than -n |
| WsgiTheorems.NegativeLengthStillSends | asgiref/wsgi.py:183-185 | after a call with `content-length: -1` a chunk of three bytes is sent as two, and two chunks of one byte give an empty body |
| WsgiTheorems.CallsDecide | asgiref/wsgi.py:121-146 | start message and length after any sequence of `start_response` calls, from which call each comes |
| WsgiTheorems.StartAndLengthUsed | asgiref/wsgi.py:136-146 | the start in force is the last accepted call's; the length is that call's if and only if no later call failed at a Content-Length that left a different one |
| WsgiTheorems.LateFailureLosesTheLength | asgiref/wsgi.py:137-140 | an input on which the declared length is lost and the body sent without limit |
| Server.NeverMoreThanOneAbove | asgiref/server.py:100-101 | over any operation sequence the list holds at most `max` + 1 ids |
| Server.StepKeepsSuffix | asgiref/server.py:92-120 | after each operation the bounded list is the end of the unbounded one |
| Server.SurvivorsAreMostRecent | asgiref/server.py:92-143 | over any operation sequence the survivors are the most recently used ids |
| Server.OrderIsUnique | asgiref/server.py:96-118 | the timestamps determine the order of last use |
| Server.NothingShared | asgiref/server.py:103-118 | no two instances share a queue or a future |
| ServerRuns.LeavesExactly | asgiref/server.py:96-101 | an id leaves the pool exactly by its own delete, or by a get of a new id if it is one of the oldest, as many as there are more than `max` |
| ServerRuns.ComesExactly | asgiref/server.py:111-118 | an id comes exactly by its own get |
| ServerRuns.LeftBecause | asgiref/server.py:100-101 | over any run, an id that is gone has left by its own delete or at a get of a new id while more than `max` were held |
| ServerRuns.RoomForAll | asgiref/server.py:100-101 | with at most `max` + 1 ids in use nothing is evicted |
| ServerRuns.OneTooMany | asgiref/server.py:100-101 | with one more, exactly the oldest goes |
| Server.StatelessServer.DeleteApplicationInstance | asgiref/server.py:134-143 | removes exactly that instance, cancels its future exactly when unfinished, raises for an unknown id |
| Server.StatelessServer.OldestEntry | asgiref/server.py:126-130 | the entry with the least timestamp is the head of the list |
| Server.StatelessServer.DeleteOldestApplicationInstance | asgiref/server.py:122-132 | removes exactly the head of the list; raises on an empty pool |
| Server.StatelessServer.MakeRoom | asgiref/server.py:100-101 | the eviction loop ends, keeps exactly the `max` most recently used and loses track of no future |
| Server.StatelessServer.GetOrCreateApplicationInstance | asgiref/server.py:92-120 | returns the queue of a known id and makes it the most recent, or makes room and adds a new instance at the end; with at most `max` held every old entry stays as it is, else exactly the oldest beyond `max` go; fails exactly for a new id with a negative maximum |
| Server.StatelessServer.DoAll | asgiref/server.py:92-143 | under a strictly increasing clock any sequence of calls, with instances that finish in between, acts on the pool as on the list, with at most `max_applications` + 1 instances and every removed future finished or cancelled |

## Left out

- Cancellation of a `SyncToAsync` call and the `task_context` lists behind it: they depend on
  `asyncio.shield` and `Task.cancel`.
- The completeness of `deadlock_context`: every `SyncToAsync` call clears it on its way out, so
  not every self-deadlock is detected. Its effect on the thread choice is modelled.
- Entering and leaving `ThreadSensitiveContext` and `AsyncSingleThreadContext`; either one that is
  active when the program starts is covered.
- Tasks created with an explicit `context`, and tasks in a fresh context: their sensitive calls
  are sent to the loop's executor, whose thread may be busy with a nested `AsyncToSync` call.
- The explicit `context` argument, `exc_info` passed along to set the exception state,
  process ids, weak dictionaries, descriptors, coroutine detection and warnings.
- A callable that raises when `AsyncToSync` calls it, before there is a coroutine.
- The loops, pools and threads of the runtime: a loop is a number, a pool is the thread it would
  use, and the steps of other threads are actions of the protocol or a script.
- CurrentThreadExecutor.CurrentThreadExecutor.RunUntilFuture: other threads act through an arbitrary
  script of arrivals and list of turns, so an arrival may well follow from an earlier item, but
  the link is not modelled; free interleaving with other executors is in `ExecutorProtocol.dfy`.
- CurrentThreadExecutor.WorkItem.Run: what the submitted function does besides its outcome is not
  part of the object model; in the protocol it is other actions.
- BridgeResults.TaskRunsLater: the task runs as one block; turns are in `BridgeTasks.dfy`.
- BridgeTasks.TasksAreTransparent: there is no turn inside a piece that a task awaits, such as
  between two awaits of a coroutine called from its sync code, and the frames around a task stay
  blocked while it runs. Once a piece waits for ever, what becomes of the others is not followed.
- BridgeTheorems.SyncToAsyncMatches: the branch for `CancelledError`.
- BridgeTheorems.AsyncToSyncMatches: what a call leaves whose coroutine waits for ever is its
  outcome, its reads and its log, not the state of the threads that wait with it.
- BridgeCalls.Process.CallAsyncToSync: the caller serves its executor by running the callee's sync
  code in place, so the queueing in between is not repeated there.
- BridgeCalls.Process.CallSyncToAsync: the branch for `CancelledError`.
- BridgeCalls.Process.Run: what its two calls leave out.
- Locals.Local.GetAttr: the attribute name `cvar` of a thread-critical Local, which is its own
  variable's name.
- Locals.Local.SetAttr: the same name, and the lock, which serialises calls.
- Locals.Local.DelAttr: the same name.
- EnvironHeaders.CgiNameIs: names outside ASCII letter by letter; `Upper` has Python's table for latin1.
- Utf8.PathSplits: surrogates, which cannot be encoded; a `char` is a Unicode scalar value.
- Wsgi.WsgiToAsgiInstance.Start: `int()` is a parameter that says which texts are numbers, and an
  `exc_info` is only present or absent; re-raising with no `exc_info` is still an exception.
- Wsgi.WsgiToAsgiInstance.RunApplication: `send` does not fail, and the application is a script of
  calls, chunks and exceptions that may depend on the environ.
- Reading the request body into a temporary file, `sys.stderr`, and a scope whose `server` is
  present but `None`.
- Server.StatelessServer.DoAll: `application_checker`, `application_exception`, `run` and `arun`,
  which depend on subclasses and I/O.
- asgiref/timeout.py, asgiref/testing.py, asgiref/compatibility.py and asgiref/typing.py: thin
  wrappers and type declarations, which would add only easy members.
