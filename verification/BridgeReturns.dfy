/**
 * What a call leaves behind: every executor made on the way is broken, so that code which still
 * sees one is refused or sent to an outer call that waits; the shared worker has its context; and
 * the single worker's mark is set in the code it runs and nowhere after.
 */
module BridgeReturns {
  import opened Wrappers
  import opened Contexts
  import opened Bridge
  import opened UpToEquality
  import opened BridgeRelation
  import opened BridgeTheorems

  // ---------------------------------------------------------------------------------------
  // Executors
  // ---------------------------------------------------------------------------------------

  // All executors made since `w` are broken.
  predicate NewOnesBroken(w: World, w': World) {
    forall e | |w.executors| <= e < |w'.executors| :: w'.executors[e].broken
  }

  // However it ends, a run that returns leaves no executor that takes work but those it found.
  lemma {:induction false} LeavesNoneWaiting(p: Program, input: Value, at: Place, frames: seq<nat>, ctx: Context,
                                             w: World)
    requires Ready(at, frames, ctx, w)
    requires !RunBridged(p, input, at, frames, ctx, w).outcome.Waits?
    ensures NewOnesBroken(w, RunBridged(p, input, at, frames, ctx, w).world)
    decreases p, 1
  {
    match p
    case Then(_, _) => TwoLeaveNone(p, input, at, frames, ctx, w);
    case Try(_, _) => TwoLeaveNone(p, input, at, frames, ctx, w);
    case If(v, a, b) => LeavesNoneWaiting(if Equal(input, v) then a else b, input, at, frames, ctx, w);
    case Task(a) =>
      if at.Async? {
        LeavesNoneWaiting(a, input, at, frames, ctx, w);
      }
    case SyncToAsync(_, _) =>
      if at.Async? {
        HandLeavesNone(p, input, at.loop, frames, ctx, w);
      }
    case AsyncToSync(_, _) =>
      if at.Sync? {
        CallLeavesNone(p, input, at.t, frames, ctx, w);
      }
    case _ =>
  }

  lemma {:induction false} TwoLeaveNone(p: Program, input: Value, at: Place, frames: seq<nat>, ctx: Context, w: World)
    requires InTwoParts(p) && Ready(at, frames, ctx, w)
    requires !RunBridged(p, input, at, frames, ctx, w).outcome.Waits?
    ensures NewOnesBroken(w, RunBridged(p, input, at, frames, ctx, w).world)
    decreases p, 0
  {
    RunInTwo(p, input, at, frames, ctx, w);
    var r := RunBridged(First(p), input, at, frames, ctx, w);
    LeavesNoneWaiting(First(p), input, at, frames, ctx, w);
    if GoesOn(p, r.outcome) {
      BridgeIsTransparent(First(p), input, at, frames, ctx, w);
      NextLeavesNone(p, input, at, frames, r, w);
    }
  }

  lemma {:induction false} NextLeavesNone(p: Program, input: Value, at: Place, frames: seq<nat>, r: Bridged, w: World)
    requires InTwoParts(p) && Ready(at, frames, r.ctx, r.world) && NewOnesBroken(w, r.world)
    requires !RunBridged(Rest(p), Passed(p, r.outcome, input), at, frames, r.ctx, r.world).outcome.Waits?
    ensures NewOnesBroken(w, RunBridged(Rest(p), Passed(p, r.outcome, input), at, frames, r.ctx, r.world).world)
    decreases p, 0, 0
  {
    var v := Passed(p, r.outcome, input);
    LeavesNoneWaiting(Rest(p), v, at, frames, r.ctx, r.world);
    BridgeIsTransparent(Rest(p), v, at, frames, r.ctx, r.world);
    BrokenTwice(w, r.world, RunBridged(Rest(p), v, at, frames, r.ctx, r.world).world);
  }

  lemma BrokenTwice(w: World, w': World, w'': World)
    requires NewOnesBroken(w, w') && NewOnesBroken(w', w'') && w'.executors <= w''.executors
    ensures NewOnesBroken(w, w'')
  {
    forall e | |w.executors| <= e < |w''.executors| ensures w''.executors[e].broken {
      assert e < |w'.executors| ==> w''.executors[e] == w'.executors[e];
    }
  }

  lemma {:induction false} HandLeavesNone(p: Program, input: Value, loop: nat, frames: seq<nat>, ctx: Context, w: World)
    requires p.SyncToAsync? && Ready(Async(loop), frames, ctx, w)
    requires !RunBridged(p, input, Async(loop), frames, ctx, w).outcome.Waits?
    ensures NewOnesBroken(w, RunBridged(p, input, Async(loop), frames, ctx, w).world)
    decreases p, 0
  {
    ThreadChosen(p.sensitive, loop, frames, ctx, w);
    var choice := ChooseThread(p.sensitive, loop, ctx, w).value;
    var context := Marked(ctx, choice);
    Entered(p.sensitive, loop, frames, ctx, w, choice);
    HandedIs(p, input, loop, frames, ctx, w, choice);
    LeavesNoneWaiting(p.sync, input, Sync(choice.thread), frames, Restored(context, context, choice.thread),
                      Hand(w, p.sensitive, choice.thread, loop, ctx, frames));
  }

  lemma {:induction false} CallLeavesNone(p: Program, input: Value, t: Thread, frames: seq<nat>, ctx: Context, w: World)
    requires p.AsyncToSync? && Ready(Sync(t), frames, ctx, w)
    requires !RunBridged(p, input, Sync(t), frames, ctx, w).outcome.Waits?
    ensures NewOnesBroken(w, RunBridged(p, input, Sync(t), frames, ctx, w).world)
    decreases p, 0
  {
    var x := EnterCall(p.forceNewLoop, t, frames, ctx, w);
    var r := RunBridged(p.coro, input, Async(x.loop), [|w.executors|] + frames, x.inner, x.world);
    CallEnds(p, input, t, frames, ctx, w, x, r);
    CoroutineReady(p.forceNewLoop, t, frames, ctx, w, x);
    LeavesNoneWaiting(p.coro, input, Async(x.loop), [|w.executors|] + frames, x.inner, x.world);
    OneMoreBroken(x, p.forceNewLoop, t, frames, ctx, w, r);
  }

  // A call that returns has a coroutine that does.
  lemma CallEnds(p: Program, input: Value, t: Thread, frames: seq<nat>, ctx: Context, w: World, x: Entry, r: Bridged)
    requires p.AsyncToSync? && x == EnterCall(p.forceNewLoop, t, frames, ctx, w)
    requires r == RunBridged(p.coro, input, Async(x.loop), [|w.executors|] + frames, x.inner, x.world)
    requires !RunBridged(p, input, Sync(t), frames, ctx, w).outcome.Waits?
    ensures RunBridged(p, input, Sync(t), frames, ctx, w) == LeaveCall(x, t, ctx, w, r) && !r.outcome.Waits?
  {
    CalledIs(p, input, t, frames, ctx, w);
  }

  lemma CoroutineFramed(coro: Program, input: Value, at: Place, frames: seq<nat>, ctx: Context, w: World, r: Bridged)
    requires Ready(at, frames, ctx, w) && r == RunBridged(coro, input, at, frames, ctx, w) && !r.outcome.Waits?
    ensures w.executors <= r.world.executors && WorkersGrow(w, r.world)
  {
    BridgeIsTransparent(coro, input, at, frames, ctx, w);
  }

  lemma OneMoreBroken(x: Entry, force: bool, t: Thread, frames: seq<nat>, ctx: Context, w: World, r: Bridged)
    requires x == EnterCall(force, t, frames, ctx, w) && NewOnesBroken(x.world, r.world)
    ensures NewOnesBroken(w, LeaveCall(x, t, ctx, w, r).world)
  {
    assert |x.world.executors| == |w.executors| + 1;
  }

  // The frames made on the way are passed over.
  lemma {:induction false} OuterBlocked(xs: seq<Executor>, made: seq<nat>, frames: seq<nat>)
    requires forall e | e in made :: e < |xs| && xs[e].broken
    ensures FirstBlocked(xs, made + frames) == FirstBlocked(xs, frames)
    decreases |made|
  {
    if made == [] {
      assert made + frames == frames;
    } else {
      assert made[0] in made && (made + frames)[1..] == made[1..] + frames;
      assert forall e | e in made[1..] :: e in made;
      OuterBlocked(xs, made[1..], frames);
    }
  }

  // A task created in a call, or deeper, that runs once the call has returned: its sensitive code
  // goes to the closest call around that one which still waits, as if it had been created there,
  // and is refused if there is none.
  lemma TaskAfterCall(p: Program, input: Value, at: Place, frames: seq<nat>, ctx: Context, w: World,
                      made: seq<nat>, loop: nat, own: Context)
    requires Ready(at, frames, ctx, w)
    requires var r := RunBridged(p, input, at, frames, ctx, w);
      && !r.outcome.Waits? && made != [] && Stack(r.world.executors, made + frames)
      && (forall e | e in made :: |w.executors| <= e < |r.world.executors|)
      && Current(own, LoopWorker(loop)) == ExecutorRef(made[0])
    ensures var r, outer := RunBridged(p, input, at, frames, ctx, w), FirstBlocked(w.executors, frames);
      var chosen := ChooseThread(true, loop, own, r.world);
      && (outer.None? ==> chosen == Failure(QuitOrBroken))
      && (outer.Some? ==> outer.value < |w.executors|)
      && (outer.Some? ==> chosen == Success(Choice(w.executors[outer.value].thread, false)))
  {
    var r := RunBridged(p, input, at, frames, ctx, w);
    LeavesNoneWaiting(p, input, at, frames, ctx, w);
    BridgeIsTransparent(p, input, at, frames, ctx, w);
    WalkFindsBlocked(r.world.executors, made + frames);
    OuterBlocked(r.world.executors, made, frames);
    BlockedLater(w.executors, r.world.executors, frames);
    BlockedIsThere(w.executors, frames);
    assert made[0] in made && (made + frames)[0] == made[0];
    assert HostOk(r.world.executors[made[0]].thread, r.world);
  }

  lemma {:induction false} BlockedIsThere(xs: seq<Executor>, frames: seq<nat>)
    ensures FirstBlocked(xs, frames).Some? ==>
      FirstBlocked(xs, frames).value < |xs| && !xs[FirstBlocked(xs, frames).value].broken
    decreases |frames|
  {
    if frames != [] {
      BlockedIsThere(xs, frames[1..]);
    }
  }

  // A call by itself: async code that still sees its executor afterwards is refused.
  lemma CallIsOver(force: bool, coro: Program, input: Value, t: Thread, ctx: Context, w: World, loop: nat, own: Context)
    requires Ready(Sync(t), [], ctx, w) && Current(own, LoopWorker(loop)) == ExecutorRef(|w.executors|)
    requires !RunBridged(AsyncToSync(force, coro), input, Sync(t), [], ctx, w).outcome.Waits?
    ensures var r := RunBridged(AsyncToSync(force, coro), input, Sync(t), [], ctx, w);
      && |w.executors| < |r.world.executors| && r.world.executors[|w.executors|].broken
      && ChooseThread(true, loop, own, r.world) == Failure(QuitOrBroken)
  {
    var p, e := AsyncToSync(force, coro), |w.executors|;
    var r := RunBridged(p, input, Sync(t), [], ctx, w);
    CallsExecutor(p, input, t, ctx, w);
    LeavesNoneWaiting(p, input, Sync(t), [], ctx, w);
    assert [e] + [] == [e] && [e][1..] == [];
    assert Stack(r.world.executors, [e]);
    TaskAfterCall(p, input, Sync(t), [], ctx, w, [e], loop, own);
  }

  lemma CallsExecutor(p: Program, input: Value, t: Thread, ctx: Context, w: World)
    requires p.AsyncToSync? && Ready(Sync(t), [], ctx, w)
    requires !RunBridged(p, input, Sync(t), [], ctx, w).outcome.Waits?
    ensures var xs := RunBridged(p, input, Sync(t), [], ctx, w).world.executors;
      |w.executors| < |xs| && xs[|w.executors|].parent.None?
  {
    var x := EnterCall(p.forceNewLoop, t, [], ctx, w);
    CallReturns(p, input, t, [], ctx, w, x);
    assert x.world.executors[|w.executors|].parent.None?;
  }

  // A call that returns: its coroutine has returned, and the call has changed no worker and no
  // executor's parent since.
  lemma CallReturns(p: Program, input: Value, t: Thread, frames: seq<nat>, ctx: Context, w: World, x: Entry)
    requires p.AsyncToSync? && Ready(Sync(t), frames, ctx, w) && x == EnterCall(p.forceNewLoop, t, frames, ctx, w)
    requires !RunBridged(p, input, Sync(t), frames, ctx, w).outcome.Waits?
    ensures var w' := RunBridged(p, input, Sync(t), frames, ctx, w).world;
      && WorkersGrow(x.world, w') && |x.world.executors| <= |w'.executors|
      && forall e | 0 <= e < |x.world.executors| :: w'.executors[e].parent == x.world.executors[e].parent
  {
    var r := RunBridged(p.coro, input, Async(x.loop), [|w.executors|] + frames, x.inner, x.world);
    CallEnds(p, input, t, frames, ctx, w, x, r);
    CoroutineReady(p.forceNewLoop, t, frames, ctx, w, x);
    CoroutineFramed(p.coro, input, Async(x.loop), [|w.executors|] + frames, x.inner, x.world, r);
    LeftAlone(x, t, ctx, w, r);
  }

  lemma LeftAlone(x: Entry, t: Thread, ctx: Context, w: World, r: Bridged)
    requires x.world.executors <= r.world.executors && WorkersGrow(x.world, r.world)
    ensures var w' := LeaveCall(x, t, ctx, w, r).world;
      && WorkersGrow(x.world, w') && |x.world.executors| <= |w'.executors|
      && forall e | 0 <= e < |x.world.executors| :: w'.executors[e].parent == x.world.executors[e].parent
  {
    assert forall e | 0 <= e < |x.world.executors| :: r.world.executors[e] == x.world.executors[e];
  }

  // ---------------------------------------------------------------------------------------
  // The shared worker's context
  // ---------------------------------------------------------------------------------------

  // The first call that makes a loop inside an AsyncSingleThreadContext starts the worker: with the
  // caller's variables and Locals if threads inherit, else with none; and that stays so.
  lemma FirstCallStartsWorker(coro: Program, input: Value, t: Thread, frames: seq<nat>, ctx: Context, w: World)
    requires Ready(Sync(t), frames, ctx, w) && w.workers.SharedNext?
    requires !RunBridged(AsyncToSync(true, coro), input, Sync(t), frames, ctx, w).outcome.Waits?
    ensures var w' := RunBridged(AsyncToSync(true, coro), input, Sync(t), frames, ctx, w).world;
      w'.workers.Shared? && View(w'.workers.base) == if w.inherit then View(ctx) else Flat(map[], map[])
  {
    var p := AsyncToSync(true, coro);
    var x := EnterCall(true, t, frames, ctx, w);
    CallReturns(p, input, t, frames, ctx, w, x);
    WithExecutorShows(ctx, t, ExecutorRef(|w.executors|));
    assert x.world.workers == Shared(if w.inherit then x.context else map[]);
    assert View(map[]) == Flat(map[], map[]);
  }

  // ---------------------------------------------------------------------------------------
  // The single worker
  // ---------------------------------------------------------------------------------------

  // Sensitive code that sees no executor and no ThreadSensitiveContext, on a loop that no call has
  // made, would have to take the single worker. It is refused exactly when the mark says that the
  // worker is taken already.
  lemma MarkRefuses(p: Program, input: Value, loop: nat, frames: seq<nat>, ctx: Context, w: World)
    requires !Current(ctx, LoopWorker(loop)).ExecutorRef? && Worker(Lookup(ctx, Sensitive)) == SingleWorker
    requires loop !in w.loopExecutors
    ensures IsSet(ctx, Deadlock) <==> ChooseThread(true, loop, ctx, w) == Failure(WouldDeadlock)
    ensures IsSet(ctx, Deadlock) ==>
      RunBridged(SyncToAsync(true, p), input, Async(loop), frames, ctx, w) == Bridged(Raised(WouldDeadlock), ctx, w)
  {
    HandUnfolds(true, p, input, loop, frames, ctx, w);
  }

  // Otherwise the code runs there, with the mark set in its context, and once it has returned the
  // mark is not set any more.
  lemma MarkIsSetInside(p: Program, input: Value, loop: nat, frames: seq<nat>, ctx: Context, w: World)
    requires !Current(ctx, LoopWorker(loop)).ExecutorRef? && Worker(Lookup(ctx, Sensitive)) == SingleWorker
    requires loop !in w.loopExecutors && !IsSet(ctx, Deadlock)
    ensures var marked := ctx[Deadlock := Plain(Flag(true))];
      var start, w' := Restored(marked, marked, SingleWorker), Hand(w, true, SingleWorker, loop, ctx, frames);
      var inner := RunBridged(p, input, Sync(SingleWorker), frames, start, w');
      var r := RunBridged(SyncToAsync(true, p), input, Async(loop), frames, ctx, w);
      && IsSet(start, Deadlock) && r.outcome == inner.outcome && r.world == inner.world
      && (!r.outcome.Waits? ==> !IsSet(r.ctx, Deadlock))
  {
    HandUnfolds(true, p, input, loop, frames, ctx, w);
    assert ChooseThread(true, loop, ctx, w) == Success(Choice(SingleWorker, true));
  }
}
