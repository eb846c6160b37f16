/**
 * AsyncToSync and SyncToAsync statement by statement, on the state they update: the table of
 * loops, the thread-locals, the executors and the current context. Each call is proved to have
 * exactly the effect that Bridge.RunBridged gives it, so the theorems about RunBridged are
 * theorems about these calls.
 */
module BridgeCalls {
  import opened Wrappers
  import opened Contexts
  import opened Bridge

  // The log of a call does not depend on the mark that deadlock_context gets.
  lemma HandIgnoresMark(w: World, sensitive: bool, t: Thread, loop: nat, ctx: Context, choice: Choice, frames: seq<nat>)
    ensures Hand(w, sensitive, t, loop, Marked(ctx, choice), frames) == Hand(w, sensitive, t, loop, ctx, frames)
  {
    assert Lookup(Marked(ctx, choice), Sensitive) == Lookup(ctx, Sensitive);
  }

  lemma HandedIs(sync: Program, sensitive: bool, input: Value, loop: nat, frames: seq<nat>, ctx: Context, w: World,
                 choice: Choice)
    requires ChooseThread(sensitive, loop, ctx, w) == Success(choice)
    ensures var context := Marked(ctx, choice);
      RunHanded(sync, sensitive, input, loop, frames, ctx, w) == HandResult(choice, loop, ctx,
        RunBridged(sync, input, Sync(choice.thread), frames, Restored(context, context, choice.thread),
                   Hand(w, sensitive, choice.thread, loop, context, frames)))
  {
    HandIgnoresMark(w, sensitive, choice.thread, loop, ctx, choice, frames);
  }

  class Process {
    var executors: seq<Executor>
    var loopThreadExecutors: map<nat, nat>   // AsyncToSync.loop_thread_executors
    var running: set<nat>
    var mainEventLoop: map<Thread, nat>      // SyncToAsync.threadlocal.main_event_loop
    var nextLoop: nat
    var nextWorker: nat
    const inherit: bool
    var workers: Workers
    var observed: seq<Read>
    var events: seq<Event>
    var context: Context                     // the current context of the running code

    constructor (threadsInherit: bool, w: Workers, start: Context)
      ensures context == start && State() == World([], map[], {}, map[], 0, 0, threadsInherit, w, [], [])
    {
      executors, loopThreadExecutors, running, mainEventLoop := [], map[], {}, map[];
      nextLoop, nextWorker, inherit, observed, events, context := 0, 0, threadsInherit, [], [], start;
      workers := w;
    }

    function State(): World
      reads this
    {
      World(executors, loopThreadExecutors, running, mainEventLoop, nextLoop, nextWorker, inherit, workers, observed,
            events)
    }

    // CurrentThreadExecutor(old_executor), and its place in the log of calls.
    method NewExecutor(t: Thread, oldExecutor: Value, frames: seq<nat>, loop: nat) returns (e: nat)
      modifies this`executors, this`events
      ensures e == |old(executors)| && State() == OpenFrame(old(State()), t, oldExecutor, frames, loop)
    {
      e := |executors|;
      events := events + [Called(e, frames, loop)];
      executors := executors + [Executor(t, if oldExecutor.ExecutorRef? then Some(oldExecutor.id) else None, false)];
    }

    // The done-callback of the call's future.
    method Break(e: nat)
      modifies this`executors
      ensures State() == CloseFrame(old(State()), e)
    {
      if e < |executors| {
        executors := executors[e := executors[e].(broken := true)];
      }
    }

    // The coroutine of the call, in a task on `loop` whose context starts as `start`: main_wrap
    // restores the caller's copy, runs the awaitable, and leaves a copy of what it ended with.
    method MainWrap(coro: Program, input: Value, loop: nat, frames: seq<nat>, start: Context, shared: Context)
      returns (callResult: Outcome, after: Context)
      modifies this
      ensures context == after
      ensures Bridged(callResult, after, State()) ==
        RunBridged(coro, input, Async(loop), frames, Restored(start, shared, LoopWorker(loop)), old(State()))
      decreases coro, 2
    {
      context := RestoreContext(start, shared, LoopWorker(loop));
      callResult := Run(coro, input, Async(loop), frames);
      after := context;
    }

    // asyncio.run up to the `try` ...
    method BeginLoop(e: nat, start: Context) returns (loop: nat)
      modifies this`nextLoop, this`running, this`loopThreadExecutors, this`workers
      ensures loop == old(nextLoop) && State() == OpenLoop(old(State()), e, start)
    {
      loop := nextLoop;
      nextLoop, running := nextLoop + 1, running + {loop};
      loopThreadExecutors := loopThreadExecutors[loop := e];
      if workers.SharedNext? {
        workers := Shared(start);
      }
    }

    // ... and from its `finally` on.
    method EndLoop(loop: nat)
      modifies this`running, this`loopThreadExecutors
      ensures State() == CloseLoop(old(State()), loop)
    {
      loopThreadExecutors := loopThreadExecutors - {loop};
      running := running - {loop};
    }

    method NewLoopWrap(coro: Program, input: Value, e: nat, frames: seq<nat>, start: Context, shared: Context)
      returns (callResult: Outcome, after: Context)
      modifies this
      ensures context == after
      ensures var loop := old(nextLoop);
        var r := RunBridged(coro, input, Async(loop), frames, Restored(start, shared, LoopWorker(loop)),
                            OpenLoop(old(State()), e, start));
        Bridged(callResult, after, State()) == if r.outcome.Waits? then r else r.(world := CloseLoop(r.world, loop))
      decreases coro, 3
    {
      var loop := BeginLoop(e, start);
      callResult, after := MainWrap(coro, input, loop, frames, start, shared);
      if !callResult.Waits? {
        EndLoop(loop);
      }
    }

    method CallAsyncToSync(coro: Program, forceNewLoop: bool, input: Value, at: Place, frames: seq<nat>)
      returns (result: Outcome)
      modifies this
      ensures Bridged(result, context, State()) ==
        RunBridged(AsyncToSync(forceNewLoop, coro), input, at, frames, old(context), old(State()))
      decreases coro, 6
    {
      if at.Async? {
        return Raised(LoopRunning);
      }
      CallUnfolds(forceNewLoop, coro, input, at.t, frames, context, State());
      result := CallFromSync(coro, forceNewLoop, input, at.t, frames);
    }

    // Up to the coroutine: the parent's loop if there is one, a new executor, the copied context.
    method Prepare(forceNewLoop: bool, t: Thread, frames: seq<nat>)
      returns (mainLoop: Option<nat>, currentExecutor: nat)
      modifies this`executors, this`events, this`context
      ensures var x := EnterCall(forceNewLoop, t, frames, old(context), old(State()));
        && currentExecutor == |old(executors)| && context == x.context
        && (mainLoop.Some? ==> !x.own && mainLoop.value == x.loop && State() == x.world)
        && (mainLoop.None? ==> x.own && x.loop == nextLoop)
        && (mainLoop.None? ==> OpenLoop(State(), currentExecutor, LoopStart(State(), context)) == x.world)
        && x.inner == Restored(if x.own then LoopStart(State(), context) else context, context, LoopWorker(x.loop))
    {
      mainLoop := None;
      if !forceNewLoop && t in mainEventLoop && mainEventLoop[t] in running {
        mainLoop := Some(mainEventLoop[t]);
      }
      var loop := if mainLoop.Some? then mainLoop.value else nextLoop;
      currentExecutor := NewExecutor(t, Current(context, t), frames, loop);
      context := SetAttr(context, Executors, t, "current", ExecutorRef(currentExecutor));
    }

    // The `finally`: restore what the coroutine left, put the old executor back.
    method Leave(e: nat, shared: Context, oldExecutor: Value, t: Thread)
      modifies this`executors, this`context
      ensures State() == CloseFrame(old(State()), e)
      ensures context == SetAttr(Restored(old(context), shared, t), Executors, t, "current", oldExecutor)
    {
      Break(e);
      context := RestoreContext(context, shared, t);
      context := SetAttr(context, Executors, t, "current", oldExecutor);
    }

    // Hand the coroutine to its loop and serve the executor until it is through, which may be never.
    method Await(coro: Program, input: Value, mainLoop: Option<nat>, e: nat, frames: seq<nat>, ghost x: Entry)
      returns (callResult: Outcome, after: Context)
      requires context == x.context
      requires x.inner == Restored(if x.own then LoopStart(State(), context) else context, context, LoopWorker(x.loop))
      requires mainLoop.Some? ==> !x.own && mainLoop.value == x.loop && State() == x.world
      requires mainLoop.None? ==> x.own && x.loop == nextLoop
      requires mainLoop.None? ==> OpenLoop(State(), e, LoopStart(State(), context)) == x.world
      modifies this
      ensures context == after
      ensures x.own && Occupied(old(State())) ==>
        callResult == Waits && after == old(context) && State() == old(State())
      ensures !(x.own && Occupied(old(State()))) ==>
        var r := RunBridged(coro, input, Async(x.loop), frames, x.inner, x.world);
        && callResult == r.outcome && after == r.ctx
        && State() == if x.own && !r.outcome.Waits? then CloseLoop(r.world, x.loop) else r.world
      decreases coro, 4
    {
      if mainLoop.None? && !workers.PerCall? && loopThreadExecutors != map[] {
        // queued behind the loop that the pool's only thread runs
        return Waits, context;
      }
      if mainLoop.Some? {
        callResult, after := MainWrap(coro, input, mainLoop.value, frames, context, context);
      } else {
        // the pool of one thread, old or new
        var start := if workers.Shared? then workers.base else if inherit then context else map[];
        callResult, after := NewLoopWrap(coro, input, e, frames, start, context);
      }
    }

    method CallFromSync(coro: Program, forceNewLoop: bool, input: Value, t: Thread, frames: seq<nat>)
      returns (result: Outcome)
      modifies this
      ensures var x := EnterCall(forceNewLoop, t, frames, old(context), old(State()));
        Bridged(result, context, State()) ==
          CallResult(x, t, frames, old(context), old(State()),
                     RunBridged(coro, input, Async(x.loop), [|old(executors)|] + frames, x.inner, x.world))
      decreases coro, 5
    {
      ghost var x := EnterCall(forceNewLoop, t, frames, context, State());
      var oldExecutor := Current(context, t);
      var mainLoop, currentExecutor := Prepare(forceNewLoop, t, frames);
      var caller := context;
      var after;
      result, after := Await(coro, input, mainLoop, currentExecutor, [currentExecutor] + frames, x);
      Return(result, currentExecutor, caller, after, oldExecutor, t);
    }

    // Past the wait, if it ends.
    method Return(result: Outcome, e: nat, caller: Context, after: Context, oldExecutor: Value, t: Thread)
      modifies this`executors, this`context
      ensures result.Waits? ==> State() == old(State()) && context == old(context)
      ensures !result.Waits? ==> State() == CloseFrame(old(State()), e)
      ensures !result.Waits? ==> context == SetAttr(Restored(caller, after, t), Executors, t, "current", oldExecutor)
    {
      if result.Waits? {
        return;
      }
      context := caller;
      Leave(e, after, oldExecutor, t);
    }

    // The chain of `if`s that picks a thread.
    method PickThread(sensitive: bool, loop: nat) returns (r: Result<Thread, Error>)
      modifies this`context
      ensures match ChooseThread(sensitive, loop, old(context), State())
              case Success(choice) => r == Success(choice.thread) && context == Marked(old(context), choice)
              case Failure(e) => r == Failure(e) && context == old(context)
    {
      if !sensitive {
        return Success(PoolWorker(nextWorker));
      }
      var current := Current(context, LoopWorker(loop));
      var chosen: Option<nat> := None;
      if current.ExecutorRef? {
        chosen := Some(current.id);
      } else if Sensitive in context && context[Sensitive].Plain? && context[Sensitive].value.Int?
        && context[Sensitive].value.n >= 0 {
        return Success(ContextWorker(context[Sensitive].value.n));
      } else if loop in loopThreadExecutors {
        chosen := Some(loopThreadExecutors[loop]);
      } else if IsSet(context, Deadlock) {
        return Failure(WouldDeadlock);
      } else {
        context := context[Deadlock := Plain(Flag(true))];
        return Success(SingleWorker);
      }
      match SubmitTo(State(), chosen.value, LoopWorker(loop))
      case Failure(e) => r := Failure(e);
      case Success(choice) => r := Success(choice.thread);
    }

    method CallSyncToAsync(sync: Program, sensitive: bool, input: Value, at: Place, frames: seq<nat>)
      returns (ret: Outcome)
      modifies this
      ensures Bridged(ret, context, State()) ==
        RunBridged(SyncToAsync(sensitive, sync), input, at, frames, old(context), old(State()))
      decreases sync, 5
    {
      if at.Sync? {
        return Raised(NoLoop);
      }
      ret := CallFromAsync(sync, sensitive, input, at.loop, frames);
    }

    method CallFromAsync(sync: Program, sensitive: bool, input: Value, loop: nat, frames: seq<nat>)
      returns (ret: Outcome)
      modifies this
      ensures Bridged(ret, context, State()) ==
        RunHanded(sync, sensitive, input, loop, frames, old(context), old(State()))
      decreases sync, 4
    {
      ghost var chosen := ChooseThread(sensitive, loop, context, State());
      var picked := PickThread(sensitive, loop);
      if picked.Failure? {
        return Raised(picked.error);
      }
      ghost var choice := chosen.value;
      assert context == Marked(old(context), choice) && picked.value == choice.thread;
      ret := RunOn(sync, sensitive, input, picked.value, loop, frames);
      HandedIs(sync, sensitive, input, loop, frames, old(context), old(State()), choice);
    }

    // Run the sync code on the thread, and come back if it does.
    method RunOn(sync: Program, sensitive: bool, input: Value, t: Thread, loop: nat, frames: seq<nat>)
      returns (ret: Outcome)
      modifies this
      ensures var r := RunBridged(sync, input, Sync(t), frames, Restored(old(context), old(context), t),
                                  Hand(old(State()), sensitive, t, loop, old(context), frames));
        && ret == r.outcome && State() == r.world
        && context == if r.outcome.Waits? then r.ctx
                      else Restored(old(context), r.ctx, LoopWorker(loop))[Deadlock := Plain(Flag(false))]
      decreases sync, 3
    {
      var caller := context;
      ret := ThreadHandler(sync, sensitive, input, t, loop, frames);
      if ret.Waits? {
        return;
      }
      context := RestoreContext(caller, context, LoopWorker(loop));
      context := context[Deadlock := Plain(Flag(false))];
    }

    // The thread-locals of the worker, and its place in the log.
    method TakeThread(sensitive: bool, t: Thread, loop: nat, frames: seq<nat>)
      modifies this`mainEventLoop, this`nextWorker, this`events
      ensures State() == Hand(old(State()), sensitive, t, loop, context, frames)
    {
      events := events + [RanOn(State(), sensitive, t, context, frames)];
      mainEventLoop := mainEventLoop[t := loop];
      nextWorker := if sensitive then nextWorker else nextWorker + 1;
    }

    // On the worker: remember the loop, enter the copied context, re-home it, run the function.
    method ThreadHandler(sync: Program, sensitive: bool, input: Value, t: Thread, loop: nat, frames: seq<nat>)
      returns (ret: Outcome)
      modifies this
      ensures Bridged(ret, context, State()) ==
        RunBridged(sync, input, Sync(t), frames, Restored(old(context), old(context), t),
                   Hand(old(State()), sensitive, t, loop, old(context), frames))
      decreases sync, 2
    {
      TakeThread(sensitive, t, loop, frames);
      context := RestoreContext(context, context, t);
      ret := Run(sync, input, Sync(t), frames);
    }

    // The user's own code, up to the calls above.
    method RunLeaf(p: Program, input: Value, at: Place, ghost frames: seq<nat>) returns (o: Outcome)
      requires p.Give? || p.GetVar? || p.SetVar? || p.GetLocal? || p.SetLocal? || p.DelLocal? || p.Throw?
      modifies this
      ensures Bridged(o, context, State()) == RunBridged(p, input, at, frames, old(context), old(State()))
    {
      match p
      case Give(arg) => o := Gave(Eval(arg, input));
      case GetVar(x) =>
        var found := if User(x) in context && context[User(x)].Plain? then Some(context[User(x)].value) else None;
        observed := observed + [VarRead(x, found)];
        o := OrRaise(found, LookupError);
      case SetVar(x, arg) =>
        context := context[User(x) := Plain(Eval(arg, input))];
        o := Gave(Nothing);
      case GetLocal(l, attr) =>
        var found := GetAttr(context, LocalVar(l), at.Thread(), attr);
        observed := observed + [LocalRead(l, attr, found)];
        o := OrRaise(found, AttributeError);
      case SetLocal(l, attr, arg) =>
        context := SetAttr(context, LocalVar(l), at.Thread(), attr, Eval(arg, input));
        o := Gave(Nothing);
      case DelLocal(l, attr) =>
        var after := DelAttr(context, LocalVar(l), at.Thread(), attr);
        context := if after.Some? then after.value else context;
        o := if after.Some? then Gave(Nothing) else Raised(AttributeError);
      case Throw(e) => o := Raised(e);
    }

    method Run(p: Program, input: Value, at: Place, frames: seq<nat>) returns (o: Outcome)
      modifies this
      ensures Bridged(o, context, State()) == RunBridged(p, input, at, frames, old(context), old(State()))
      decreases p, 1
    {
      match p
      case Then(a, b) =>
        o := Run(a, input, at, frames);
        if o.Gave? {
          o := Run(b, o.v, at, frames);
        }
      case If(v, a, b) =>
        if Equal(input, v) {
          o := Run(a, input, at, frames);
        } else {
          o := Run(b, input, at, frames);
        }
      case Try(a, b) =>
        o := Run(a, input, at, frames);
        if o.Raised? {
          o := Run(b, input, at, frames);
        }
      case Task(a) =>
        if at.Sync? {
          return Raised(NoLoop);
        }
        var own := context;
        o := Run(a, input, at, frames);
        if !o.Waits? {
          context := own;
        }
      case SyncToAsync(sensitive, a) => o := CallSyncToAsync(a, sensitive, input, at, frames);
      case AsyncToSync(force, a) => o := CallAsyncToSync(a, force, input, at, frames);
      case _ => o := RunLeaf(p, input, at, frames);
    }
  }
}
