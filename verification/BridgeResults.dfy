// What transparency means for whole programs, and where its premises are needed.
module BridgeResults {
  import opened Wrappers
  import opened Contexts
  import opened Bridge
  import opened UpToEquality
  import opened BridgeRelation
  import opened BridgeTheorems

  function FreshWorld(inherit: bool, workers: Workers): World {
    World([], map[], {}, map[], 0, 0, inherit, workers, [], [])
  }

  // The pool has given out the thread the program starts on, if it is one of the pool's.
  function SyncWorld(t: Thread, inherit: bool, workers: Workers): World {
    FreshWorld(inherit, workers).(nextWorker := if t.PoolWorker? then t.n + 1 else 0)
  }

  // A loop that AsyncToSync did not make.
  function AsyncWorld(inherit: bool, workers: Workers): World {
    FreshWorld(inherit, workers).(nextLoop := 1, running := {0})
  }

  // A program that starts in sync code, and one that starts on such a loop.
  function SyncRun(p: Program, input: Value, t: Thread, ctx: Context, inherit: bool, workers: Workers): Bridged {
    RunBridged(p, input, Sync(t), [], ctx, SyncWorld(t, inherit, workers))
  }

  function AsyncRun(p: Program, input: Value, ctx: Context, inherit: bool, workers: Workers): Bridged {
    RunBridged(p, input, Async(0), [], ctx, AsyncWorld(inherit, workers))
  }

  // The two runs cannot be told apart by ==.
  predicate SameRun(r: Bridged, d: Direct) {
    && BlurOutcome(r.outcome) == BlurOutcome(d.outcome)
    && Sight(r.ctx) == BlurFlat(d.state)
    && BlurReads(r.world.observed) == BlurReads(d.observed)
  }

  // They cannot be told apart, or the one comes to wait for ever and has read the same up to there.
  predicate SameAsFar(r: Bridged, d: Direct) {
    if r.outcome.Waits? then BlurReads(r.world.observed) <= BlurReads(d.observed) else SameRun(r, d)
  }

  // The program starts on any thread and with any variables set.
  predicate SyncStart(t: Thread, ctx: Context, inherit: bool, workers: Workers) {
    && !t.LoopWorker? && Tagged(ctx, t) && Typed(ctx) && Current(ctx, t) == Nothing
    && WorkersOk(Sync(t), [], ctx, FreshWorld(inherit, workers))
  }

  predicate AsyncStart(ctx: Context, inherit: bool, workers: Workers) {
    && Tagged(ctx, LoopWorker(0)) && Typed(ctx) && Current(ctx, LoopWorker(0)) == Nothing && !IsSet(ctx, Deadlock)
    && WorkersOk(Async(0), [], ctx, FreshWorld(inherit, workers))
  }

  lemma SyncStartIsReady(t: Thread, ctx: Context, inherit: bool, workers: Workers)
    requires SyncStart(t, ctx, inherit, workers)
    ensures Ready(Sync(t), [], ctx, SyncWorld(t, inherit, workers))
  {
  }

  lemma AsyncStartIsReady(ctx: Context, inherit: bool, workers: Workers)
    requires AsyncStart(ctx, inherit, workers)
    ensures Ready(Async(0), [], ctx, AsyncWorld(inherit, workers))
  {
  }

  lemma FromEmptyLog(r: Bridged, d: Direct, at: Place, ctx: Context, w: World)
    requires Follows(r, d, at, [], ctx, w) && w.observed == []
    ensures SameAsFar(r, d) && (w.workers.PerCall? ==> !r.outcome.Waits? && SameRun(r, d))
    ensures !r.outcome.Waits? ==> Current(r.ctx, at.Thread()) == Nothing
    ensures !r.outcome.Waits? ==> r.world.loopExecutors == w.loopExecutors && r.world.running == w.running
  {
    assert BlurReads([]) + BlurReads(d.observed) == BlurReads(d.observed);
  }

  lemma SyncProgram(p: Program, input: Value, t: Thread, ctx: Context, inherit: bool, workers: Workers)
    requires SyncStart(t, ctx, inherit, workers)
    ensures var r, d := SyncRun(p, input, t, ctx, inherit, workers), RunDirect(p, input, false, View(ctx));
      && SameAsFar(r, d) && (workers.PerCall? ==> !r.outcome.Waits? && SameRun(r, d))
      && (!r.outcome.Waits? ==>
            Current(r.ctx, t) == Nothing && r.world.loopExecutors == map[] && r.world.running == {})
  {
    var w := SyncWorld(t, inherit, workers);
    SyncStartIsReady(t, ctx, inherit, workers);
    BridgeIsTransparent(p, input, Sync(t), [], ctx, w);
    FromEmptyLog(SyncRun(p, input, t, ctx, inherit, workers), RunDirect(p, input, false, View(ctx)), Sync(t), ctx, w);
  }

  lemma AsyncProgram(p: Program, input: Value, ctx: Context, inherit: bool, workers: Workers)
    requires AsyncStart(ctx, inherit, workers)
    ensures var r, d := AsyncRun(p, input, ctx, inherit, workers), RunDirect(p, input, true, View(ctx));
      && SameAsFar(r, d) && (workers.PerCall? ==> !r.outcome.Waits? && SameRun(r, d))
      && (!r.outcome.Waits? ==>
            Current(r.ctx, LoopWorker(0)) == Nothing && r.world.loopExecutors == map[] && r.world.running == {0})
  {
    var w := AsyncWorld(inherit, workers);
    AsyncStartIsReady(ctx, inherit, workers);
    BridgeIsTransparent(p, input, Async(0), [], ctx, w);
    FromEmptyLog(AsyncRun(p, input, ctx, inherit, workers), RunDirect(p, input, true, View(ctx)), Async(0), ctx, w);
  }

  // ---------------------------------------------------------------------------------------
  // The executor stack
  // ---------------------------------------------------------------------------------------

  // After any code that returns, at any depth and however it ends, the visible executor is the one
  // before. Every executor made on the way sits on top of exactly the frames that enclosed its call.
  lemma ExecutorStackDiscipline(p: Program, input: Value, at: Place, frames: seq<nat>, ctx: Context, w: World)
    requires Ready(at, frames, ctx, w) && GoodEvents(w.executors, w.events)
    ensures var r := RunBridged(p, input, at, frames, ctx, w);
      && (!r.outcome.Waits? ==> Current(r.ctx, at.Thread()) == Current(ctx, at.Thread()))
      && Chained(r.world.executors) && w.executors <= r.world.executors
      && (forall k | 0 <= k < |r.world.events| && r.world.events[k].Called? ::
            Stack(r.world.executors, [r.world.events[k].executor] + r.world.events[k].frames))
  {
    BridgeIsTransparent(p, input, at, frames, ctx, w);
    var r := RunBridged(p, input, at, frames, ctx, w);
    assert forall k | 0 <= k < |r.world.events| :: GoodEvent(r.world.executors, r.world.events[k]);
  }

  // ---------------------------------------------------------------------------------------
  // Threads
  // ---------------------------------------------------------------------------------------

  // Sensitive code runs on the thread of the closest enclosing AsyncToSync call that is still
  // blocked; without one, on the worker of the ThreadSensitiveContext or the single worker.
  lemma ThreadAffinity(p: Program, input: Value, at: Place, frames: seq<nat>, ctx: Context, w: World)
    requires Ready(at, frames, ctx, w) && GoodEvents(w.executors, w.events)
    ensures var r := RunBridged(p, input, at, frames, ctx, w);
      forall k | 0 <= k < |r.world.events| && r.world.events[k].Ran? && r.world.events[k].sensitive ::
        match r.world.events[k].blocked
        case Some(f) => f < |r.world.executors| && r.world.events[k].thread == r.world.executors[f].thread
        case None => r.world.events[k].thread == Worker(r.world.events[k].context)
  {
    BridgeIsTransparent(p, input, at, frames, ctx, w);
    var r := RunBridged(p, input, at, frames, ctx, w);
    assert forall k | 0 <= k < |r.world.events| :: GoodEvent(r.world.executors, r.world.events[k]);
  }

  predicate AllSensitive(p: Program) {
    match p
    case Then(a, b) => AllSensitive(a) && AllSensitive(b)
    case If(_, a, b) => AllSensitive(a) && AllSensitive(b)
    case Try(a, b) => AllSensitive(a) && AllSensitive(b)
    case SyncToAsync(sensitive, a) => sensitive && AllSensitive(a)
    case AsyncToSync(_, a) => AllSensitive(a)
    case Task(a) => AllSensitive(a)
    case _ => true
  }

  // Sync code so far belongs to `home`, and so does whatever would host more of it.
  predicate AtHome(home: Thread, at: Place, frames: seq<nat>, ctx: Context, w: World) {
    && (at.Sync? ==> at.t == home)
    && (forall k | 0 <= k < |frames| :: frames[k] < |w.executors| && w.executors[frames[k]].thread == home)
    && (at.Async? && frames == [] ==> Worker(Lookup(ctx, Sensitive)) == home)
  }

  predicate RanAt(home: Thread, events: seq<Event>) {
    forall k | 0 <= k < |events| && events[k].Ran? :: events[k].thread == home
  }

  lemma {:induction false} BlockedIsAtHome(xs: seq<Executor>, frames: seq<nat>)
    ensures FirstBlocked(xs, frames).Some? ==> FirstBlocked(xs, frames).value in frames
    decreases |frames|
  {
    if frames != [] {
      BlockedIsAtHome(xs, frames[1..]);
    }
  }

  lemma ChosenAtHome(home: Thread, loop: nat, frames: seq<nat>, ctx: Context, w: World)
    requires Ready(Async(loop), frames, ctx, w) && AtHome(home, Async(loop), frames, ctx, w)
    ensures ChooseThread(true, loop, ctx, w).Success? && ChooseThread(true, loop, ctx, w).value.thread == home
  {
    ThreadChosen(true, loop, frames, ctx, w);
    BlockedIsAtHome(w.executors, frames);
  }

  // After a program has run at home, what follows it is at home as well.
  lemma HomeAfter(home: Thread, p: Program, input: Value, at: Place, frames: seq<nat>, ctx: Context, w: World)
    requires Ready(at, frames, ctx, w) && AtHome(home, at, frames, ctx, w)
    requires !RunBridged(p, input, at, frames, ctx, w).outcome.Waits?
    ensures var r := RunBridged(p, input, at, frames, ctx, w);
      Ready(at, frames, r.ctx, r.world) && AtHome(home, at, frames, r.ctx, r.world)
  {
    BridgeIsTransparent(p, input, at, frames, ctx, w);
  }

  lemma CallAtHome(home: Thread, force: bool, frames: seq<nat>, ctx: Context, w: World)
    requires Ready(Sync(home), frames, ctx, w) && AtHome(home, Sync(home), frames, ctx, w) && RanAt(home, w.events)
    ensures var x := EnterCall(force, home, frames, ctx, w);
      Ready(Async(x.loop), [|w.executors|] + frames, x.inner, x.world)
      && AtHome(home, Async(x.loop), [|w.executors|] + frames, x.inner, x.world) && RanAt(home, x.world.events)
  {
    var x := EnterCall(force, home, frames, ctx, w);
    CallEntered(force, home, frames, ctx, w);
    FrameAtHome(home, frames, w, x.world);
    assert x.world.events == w.events + [Called(|w.executors|, frames, x.loop)];
  }

  lemma FrameAtHome(home: Thread, frames: seq<nat>, w: World, w': World)
    requires forall k | 0 <= k < |frames| :: frames[k] < |w.executors| && w.executors[frames[k]].thread == home
    requires w.executors <= w'.executors && |w.executors| < |w'.executors| && w'.executors[|w.executors|].thread == home
    ensures var all := [|w.executors|] + frames;
      forall k | 0 <= k < |all| :: all[k] < |w'.executors| && w'.executors[all[k]].thread == home
  {
  }

  lemma HandAtHome(home: Thread, loop: nat, frames: seq<nat>, ctx: Context, w: World)
    requires Ready(Async(loop), frames, ctx, w) && AtHome(home, Async(loop), frames, ctx, w) && RanAt(home, w.events)
    ensures ChooseThread(true, loop, ctx, w).Success? && ChooseThread(true, loop, ctx, w).value.thread == home
    ensures var context := Marked(ctx, ChooseThread(true, loop, ctx, w).value);
      var worker, w1 := Restored(context, context, home), Hand(w, true, home, loop, ctx, frames);
      Ready(Sync(home), frames, worker, w1) && AtHome(home, Sync(home), frames, worker, w1) && RanAt(home, w1.events)
  {
    ChosenAtHome(home, loop, frames, ctx, w);
    Entered(true, loop, frames, ctx, w, ChooseThread(true, loop, ctx, w).value);
  }

  // If every sync_to_async is thread-sensitive, all sync code runs on one thread.
  lemma {:induction false} StaysHome(home: Thread, p: Program, input: Value, at: Place, frames: seq<nat>,
                                     ctx: Context, w: World)
    requires AllSensitive(p) && Ready(at, frames, ctx, w) && AtHome(home, at, frames, ctx, w) && RanAt(home, w.events)
    ensures RanAt(home, RunBridged(p, input, at, frames, ctx, w).world.events)
    decreases p, 1
  {
    match p
    case Then(_, _) => BothStayHome(home, p, input, at, frames, ctx, w);
    case Try(_, _) => BothStayHome(home, p, input, at, frames, ctx, w);
    case If(v, a, b) => StaysHome(home, if Equal(input, v) then a else b, input, at, frames, ctx, w);
    case Task(a) =>
      if at.Async? {
        StaysHome(home, a, input, at, frames, ctx, w);
      }
    case SyncToAsync(_, _) =>
      if at.Async? {
        HandStaysHome(home, p, input, at.loop, frames, ctx, w);
      }
    case AsyncToSync(_, _) =>
      if at.Sync? {
        CallStaysHome(home, p, input, frames, ctx, w);
      }
    case _ =>
  }

  lemma {:induction false} HandStaysHome(home: Thread, p: Program, input: Value, loop: nat, frames: seq<nat>,
                                         ctx: Context, w: World)
    requires p.SyncToAsync? && AllSensitive(p)
    requires Ready(Async(loop), frames, ctx, w) && AtHome(home, Async(loop), frames, ctx, w) && RanAt(home, w.events)
    ensures RanAt(home, RunBridged(p, input, Async(loop), frames, ctx, w).world.events)
    decreases p, 0
  {
    HandAtHome(home, loop, frames, ctx, w);
    var context := Marked(ctx, ChooseThread(true, loop, ctx, w).value);
    StaysHome(home, p.sync, input, Sync(home), frames, Restored(context, context, home),
              Hand(w, true, home, loop, ctx, frames));
    HandUnfolds(true, p.sync, input, loop, frames, ctx, w);
  }

  lemma {:induction false} CallStaysHome(home: Thread, p: Program, input: Value, frames: seq<nat>, ctx: Context,
                                         w: World)
    requires p.AsyncToSync? && AllSensitive(p)
    requires Ready(Sync(home), frames, ctx, w) && AtHome(home, Sync(home), frames, ctx, w) && RanAt(home, w.events)
    ensures RanAt(home, RunBridged(p, input, Sync(home), frames, ctx, w).world.events)
    decreases p, 0
  {
    CallAtHome(home, p.forceNewLoop, frames, ctx, w);
    var x := EnterCall(p.forceNewLoop, home, frames, ctx, w);
    StaysHome(home, p.coro, input, Async(x.loop), [|w.executors|] + frames, x.inner, x.world);
    CallKeepsEvents(p, input, home, frames, ctx, w);
  }

  // A call logs nothing after its coroutine, and only itself if the coroutine never runs.
  lemma CallKeepsEvents(p: Program, input: Value, t: Thread, frames: seq<nat>, ctx: Context, w: World)
    requires p.AsyncToSync?
    ensures var x := EnterCall(p.forceNewLoop, t, frames, ctx, w);
      RunBridged(p, input, Sync(t), frames, ctx, w).world.events ==
        if x.own && Occupied(w) then w.events + [Called(|w.executors|, frames, x.loop)]
        else RunBridged(p.coro, input, Async(x.loop), [|w.executors|] + frames, x.inner, x.world).world.events
  {
    CallUnfolds(p.forceNewLoop, p.coro, input, t, frames, ctx, w);
  }

  lemma {:induction false} BothStayHome(home: Thread, p: Program, input: Value, at: Place, frames: seq<nat>,
                                        ctx: Context, w: World)
    requires p.Then? || p.Try?
    requires AllSensitive(p) && Ready(at, frames, ctx, w) && AtHome(home, at, frames, ctx, w) && RanAt(home, w.events)
    ensures RanAt(home, RunBridged(p, input, at, frames, ctx, w).world.events)
    decreases p, 0
  {
    var a := if p.Then? then p.first else p.body;
    StaysHome(home, a, input, at, frames, ctx, w);
    var r := RunBridged(a, input, at, frames, ctx, w);
    if !r.outcome.Waits? {
      HomeAfter(home, a, input, at, frames, ctx, w);
    }
    if p.Then? && r.outcome.Gave? {
      StaysHome(home, p.second, r.outcome.v, at, frames, r.ctx, r.world);
    }
    if p.Try? && r.outcome.Raised? {
      StaysHome(home, p.handler, input, at, frames, r.ctx, r.world);
    }
  }

  // From a sync start that thread is the starting one, from an async start it is the worker.
  lemma OneSyncThread(p: Program, input: Value, t: Thread, ctx: Context, inherit: bool, workers: Workers)
    requires AllSensitive(p) && SyncStart(t, ctx, inherit, workers)
    ensures RanAt(t, SyncRun(p, input, t, ctx, inherit, workers).world.events)
  {
    SyncStartIsReady(t, ctx, inherit, workers);
    StaysHome(t, p, input, Sync(t), [], ctx, SyncWorld(t, inherit, workers));
  }

  lemma OneWorkerThread(p: Program, input: Value, ctx: Context, inherit: bool, workers: Workers)
    requires AllSensitive(p) && AsyncStart(ctx, inherit, workers)
    ensures RanAt(Worker(Lookup(ctx, Sensitive)), AsyncRun(p, input, ctx, inherit, workers).world.events)
  {
    var w := AsyncWorld(inherit, workers);
    AsyncStartIsReady(ctx, inherit, workers);
    StaysHome(Worker(Lookup(ctx, Sensitive)), p, input, Async(0), [], ctx, w);
  }

  // Async code that sees no executor, such as a task with a context of its own, on a loop that
  // AsyncToSync made: its sensitive code goes to the call that made the loop and, if that has
  // returned, to the closest call around it that has not. It is refused if and only if all have.
  lemma FallbackThread(loop: nat, ctx: Context, w: World)
    requires WorldOk(w) && loop in w.loopExecutors && w.loopExecutors[loop] < |w.executors|
    requires !Current(ctx, LoopWorker(loop)).ExecutorRef? && Worker(Lookup(ctx, Sensitive)) == SingleWorker
    ensures var first, chosen := FirstRunning(w.executors, w.loopExecutors[loop]), ChooseThread(true, loop, ctx, w);
      && (first.Some? ==> chosen == Success(Choice(w.executors[first.value].thread, false)))
      && (first.None? ==> chosen == Failure(QuitOrBroken))
      && (first.None? <==> AllReturned(w.executors, w.loopExecutors[loop]))
  {
    assert HostOk(w.executors[w.loopExecutors[loop]].thread, w);
    NoneRunning(w.executors, w.loopExecutors[loop]);
  }

  // But within a ThreadSensitiveContext it goes to the context's own worker, listed loop or not.
  lemma ContextComesFirst(loop: nat, ctx: Context, w: World)
    requires !Current(ctx, LoopWorker(loop)).ExecutorRef? && Worker(Lookup(ctx, Sensitive)) != SingleWorker
    ensures ChooseThread(true, loop, ctx, w) == Success(Choice(Worker(Lookup(ctx, Sensitive)), false))
  {
  }

  predicate AllReturned(xs: seq<Executor>, e: nat)
    decreases e
  {
    e < |xs| && xs[e].broken
    && (xs[e].parent.Some? ==> xs[e].parent.value < e && AllReturned(xs, xs[e].parent.value))
  }

  lemma {:induction false} NoneRunning(xs: seq<Executor>, e: nat)
    requires Chained(xs) && e < |xs|
    ensures FirstRunning(xs, e).None? <==> AllReturned(xs, e)
    decreases e
  {
    if xs[e].broken && xs[e].parent.Some? {
      NoneRunning(xs, xs[e].parent.value);
    }
  }

  // Every listed loop is that of a call that has not returned.
  ghost predicate ListedRun(w: World) {
    forall l | l in w.loopExecutors ::
      w.loopExecutors[l] < |w.executors| && !w.executors[w.loopExecutors[l]].broken
  }

  // So on a listed loop such code is never refused: a call lists its loop with its own executor,
  // and nothing that runs in between breaks it or takes it off the list.
  lemma ListedStayRunning(p: Program, input: Value, at: Place, frames: seq<nat>, ctx: Context, w: World)
    requires Ready(at, frames, ctx, w) && ListedRun(w)
    requires !RunBridged(p, input, at, frames, ctx, w).outcome.Waits?
    ensures ListedRun(RunBridged(p, input, at, frames, ctx, w).world)
  {
    BridgeIsTransparent(p, input, at, frames, ctx, w);
    var r := RunBridged(p, input, at, frames, ctx, w);
    ListedLater(w, r.world);
  }

  lemma CallLists(force: bool, t: Thread, frames: seq<nat>, ctx: Context, w: World)
    requires Ready(Sync(t), frames, ctx, w) && ListedRun(w)
    ensures ListedRun(EnterCall(force, t, frames, ctx, w).world)
  {
  }

  lemma ListedLater(w: World, w': World)
    requires ListedRun(w) && w.executors <= w'.executors && w.loopExecutors == w'.loopExecutors
    ensures ListedRun(w')
  {
    forall l | l in w'.loopExecutors
      ensures w'.loopExecutors[l] < |w'.executors| && !w'.executors[w'.loopExecutors[l]].broken
    {
      assert w'.executors[w.loopExecutors[l]] == w.executors[w.loopExecutors[l]];
    }
  }

  // ---------------------------------------------------------------------------------------
  // Tasks that run later
  // ---------------------------------------------------------------------------------------

  // A task created in `ctx` may run at any later time: calls that had not been made yet, or have
  // returned since, make no difference to it as long as one enclosing call is still blocked.
  lemma TaskRunsLater(p: Program, input: Value, loop: nat, frames: seq<nat>, ctx: Context, w: World, later: World)
    requires Ready(Async(loop), frames, ctx, w)
    requires WorldOk(later) && WorkersOk(Async(loop), frames, ctx, later) && Grows(w.executors, later.executors)
    requires if frames == [] then loop !in later.loopExecutors else FirstBlocked(later.executors, frames).Some?
    ensures Agrees(p, input, Async(loop), frames, ctx, later)
  {
    StackLater(w.executors, later.executors, frames);
    BridgeIsTransparent(p, input, Async(loop), frames, ctx, later);
  }

  // Once every enclosing call has returned, its sensitive sync code is refused.
  lemma TaskOutlivesItsFrames(p: Program, input: Value, loop: nat, frames: seq<nat>, ctx: Context, w: World,
                              later: World)
    requires Ready(Async(loop), frames, ctx, w) && frames != []
    requires WorldOk(later) && Grows(w.executors, later.executors)
    requires FirstBlocked(later.executors, frames).None?
    ensures RunBridged(SyncToAsync(true, p), input, Async(loop), frames, ctx, later) ==
      Bridged(Raised(QuitOrBroken), ctx, later)
  {
    StackLater(w.executors, later.executors, frames);
    WalkFindsBlocked(later.executors, frames);
  }
}
