/**
 * CurrentThreadExecutor as a protocol between threads.
 *
 * A state holds every executor, every work item ever offered to `submit` and the table
 * of loops started by AsyncToSync. An action is one region that runs under one lock, or one
 * step outside any lock; a run is any sequence of enabled actions, so every interleaving of
 * submitting threads, serving threads and done-callbacks is a run.
 */
module ExecutorProtocol {
  import opened Wrappers

  type Thread = nat
  type ExecutorId = nat
  type ItemId = nat
  type LoopId = nat

  // The states of concurrent.futures.Future. `Dropped` is "cancelled, and the executor has
  // been told" (CANCELLED_AND_NOTIFIED).
  datatype FutureState = Pending | Cancelled | Running | Dropped | Finished

  // Where the thread that owns an executor stands in `run_until_future`.
  datatype Runner =
    | Idle                      // not called yet
    | Inline                    // add_done_callback found a finished future and calls `done` itself
    | AtLock                    // about to take the lock
    | Parked(notified: bool)    // inside wait()
    | Popped(item: ItemId)      // holds a work item, outside the lock
    | Executing(item: ItemId)   // inside the item's function
    | Returned

  // The `done` callback on the awaited future.
  datatype Callback = Unregistered | Armed | Firing | Fired

  // `new_loop_wrap` of the call that owns the executor, if the call makes its own loop.
  datatype LoopPhase =
    | ParentLoop
    | NotEntered
    | Inside(loop: LoopId)
    | Left

  datatype Executor = Executor(
    thread: Thread,
    parent: Option<ExecutorId>,
    queue: seq<ItemId>,
    broken: bool,
    futureDone: bool,
    callback: Callback,
    runner: Runner,
    loopPhase: LoopPhase,
    accepted: seq<ItemId>,      // history: every item ever appended, oldest first
    served: seq<ItemId>         // history: every item the runner is through with, oldest first
  )

  // Where a call of `submit` stands. `Walking(at)` is about to take the lock of `at`.
  datatype Phase = Walking(at: ExecutorId) | Accepted(host: ExecutorId) | Refused

  datatype Item = Item(submitter: Thread, start: ExecutorId, phase: Phase, future: FutureState)

  datatype Event = Started(item: ItemId) | Skipped(item: ItemId) | Settled(item: ItemId) | CancelledBy(item: ItemId)

  datatype State = State(
    executors: seq<Executor>,
    items: seq<Item>,
    loops: map<LoopId, ExecutorId>,   // AsyncToSync.loop_thread_executors
    nextLoop: LoopId,
    history: seq<Event>
  )

  datatype Action =
    | Create(thread: Thread, parent: Option<ExecutorId>, ownLoop: bool)
    | EnterRun(e: ExecutorId)
    | SettleFuture(e: ExecutorId)
    | Done(e: ExecutorId)
    | Take(e: ExecutorId)
    | Start(e: ExecutorId)
    | Finish(e: ExecutorId)
    | Call(thread: Thread, e: ExecutorId)
    | Visit(i: ItemId)
    | Cancel(i: ItemId)
    | EnterLoop(e: ExecutorId)
    | LeaveLoop(e: ExecutorId)

  const INITIAL := State([], [], map[], 0, [])

  // ---------------------------------------------------------------------------------------
  // The regions, each on one executor
  // ---------------------------------------------------------------------------------------

  // `append` and `notify` inside submit's lock.
  function Offer(x: Executor, i: ItemId): Executor {
    x.(queue := x.queue + [i], accepted := x.accepted + [i], runner := Notify(x.runner))
  }

  // A notify wakes a waiting runner and is lost on any other.
  function Notify(r: Runner): Runner {
    if r.Parked? then Parked(true) else r
  }

  // The body of the done-callback.
  function Break(x: Executor): Executor {
    x.(broken := true, callback := Fired, runner := if x.runner.Inline? then AtLock else Notify(x.runner))
  }

  // `add_done_callback`, which calls the callback at once when the future is already done.
  function Register(x: Executor): Executor {
    if x.futureDone
    then x.(callback := Firing, runner := Inline)
    else x.(callback := Armed, runner := AtLock)
  }

  // The awaited future gets its result, and with it an armed callback becomes due.
  function FutureResolved(x: Executor): Executor {
    x.(futureDone := true, callback := if x.callback.Armed? then Firing else x.callback)
  }

  // One pass of the runner through its lock: park, leave, or pop the oldest item.
  function TakeNext(x: Executor): Executor {
    if x.queue == [] then
      if x.broken then x.(runner := Returned) else x.(runner := Parked(false))
    else
      x.(runner := Popped(x.queue[0]), queue := x.queue[1..])
  }

  predicate ReadyToTake(r: Runner) {
    r.AtLock? || r == Parked(true)
  }

  // The runner is through with its item and goes back for the lock.
  function Serve(x: Executor, i: ItemId): Executor {
    x.(runner := AtLock, served := x.served + [i])
  }

  // ---------------------------------------------------------------------------------------
  // The steps
  // ---------------------------------------------------------------------------------------

  predicate Enabled(s: State, a: Action) {
    match a
    case Create(_, parent, _) => parent.Some? ==> parent.value < |s.executors|
    case EnterRun(e) => e < |s.executors| && s.executors[e].runner.Idle?
    case SettleFuture(e) =>
      // asyncio.run returns only after the coroutine it runs has left its finally block
      e < |s.executors| && !s.executors[e].futureDone && !s.executors[e].loopPhase.Inside?
    case Done(e) => e < |s.executors| && s.executors[e].callback.Firing?
    case Take(e) => e < |s.executors| && ReadyToTake(s.executors[e].runner)
    case Start(e) =>
      e < |s.executors| && s.executors[e].runner.Popped? && s.executors[e].runner.item < |s.items|
    case Finish(e) =>
      e < |s.executors| && s.executors[e].runner.Executing? && s.executors[e].runner.item < |s.items|
    case Call(thread, e) =>
      // From the executor's own thread `submit` raises at once and nothing happens
      e < |s.executors| && thread != s.executors[e].thread
    case Visit(i) =>
      i < |s.items| && s.items[i].phase.Walking? && s.items[i].phase.at < |s.executors|
    case Cancel(i) => i < |s.items| && s.items[i].phase.Accepted? && s.items[i].future.Pending?
    case EnterLoop(e) =>
      e < |s.executors| && s.executors[e].loopPhase.NotEntered? && !s.executors[e].futureDone
    case LeaveLoop(e) => e < |s.executors| && s.executors[e].loopPhase.Inside?
  }

  function Put(s: State, e: ExecutorId, x: Executor): State
    requires e < |s.executors|
  {
    s.(executors := s.executors[e := x])
  }

  function PutItem(s: State, i: ItemId, it: Item): State
    requires i < |s.items|
  {
    s.(items := s.items[i := it])
  }

  function Log(s: State, ev: Event): State {
    s.(history := s.history + [ev])
  }

  // set_running_or_notify_cancel at the head of `_WorkItem.run`.
  function StartItem(s: State, e: ExecutorId, i: ItemId): State
    requires e < |s.executors| && i < |s.items|
  {
    if s.items[i].future.Cancelled? then
      Log(PutItem(Put(s, e, Serve(s.executors[e], i)), i, s.items[i].(future := Dropped)), Skipped(i))
    else
      Log(PutItem(Put(s, e, s.executors[e].(runner := Executing(i))), i, s.items[i].(future := Running)), Started(i))
  }

  // set_result or set_exception at the end of `_WorkItem.run`.
  function FinishItem(s: State, e: ExecutorId, i: ItemId): State
    requires e < |s.executors| && i < |s.items|
  {
    Log(PutItem(Put(s, e, Serve(s.executors[e], i)), i, s.items[i].(future := Finished)), Settled(i))
  }

  // One turn of the loop in `submit`.
  function VisitOne(s: State, i: ItemId, at: ExecutorId): State
    requires i < |s.items| && at < |s.executors|
  {
    var x := s.executors[at];
    if !x.broken then
      PutItem(Put(s, at, Offer(x, i)), i, s.items[i].(phase := Accepted(at)))
    else if x.parent.None? then
      PutItem(s, i, s.items[i].(phase := Refused))
    else
      PutItem(s, i, s.items[i].(phase := Walking(x.parent.value)))
  }

  function Apply(s: State, a: Action): State
    requires Enabled(s, a)
  {
    match a
    case Create(thread, parent, ownLoop) =>
      var x := Executor(thread, parent, [], false, false, Unregistered, Idle,
                        if ownLoop then NotEntered else ParentLoop, [], []);
      s.(executors := s.executors + [x])
    case EnterRun(e) => Put(s, e, Register(s.executors[e]))
    case SettleFuture(e) => Put(s, e, FutureResolved(s.executors[e]))
    case Done(e) => Put(s, e, Break(s.executors[e]))
    case Take(e) => Put(s, e, TakeNext(s.executors[e]))
    case Start(e) => StartItem(s, e, s.executors[e].runner.item)
    case Finish(e) => FinishItem(s, e, s.executors[e].runner.item)
    case Call(thread, e) => s.(items := s.items + [Item(thread, e, Walking(e), Pending)])
    case Visit(i) => VisitOne(s, i, s.items[i].phase.at)
    case Cancel(i) => Log(PutItem(s, i, s.items[i].(future := Cancelled)), CancelledBy(i))
    case EnterLoop(e) =>
      Put(s, e, s.executors[e].(loopPhase := Inside(s.nextLoop)))
        .(loops := s.loops[s.nextLoop := e], nextLoop := s.nextLoop + 1)
    case LeaveLoop(e) =>
      Put(s, e, s.executors[e].(loopPhase := Left)).(loops := s.loops - {s.executors[e].loopPhase.loop})
  }

  // Every action of `acts` is enabled when its turn comes.
  predicate IsRun(s: State, acts: seq<Action>)
    decreases |acts|
  {
    acts == [] || (Enabled(s, acts[0]) && IsRun(Apply(s, acts[0]), acts[1..]))
  }

  function Run(s: State, acts: seq<Action>): State
    requires IsRun(s, acts)
    decreases |acts|
  {
    if acts == [] then s else Run(Apply(s, acts[0]), acts[1..])
  }
}
