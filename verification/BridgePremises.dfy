// Where the premises on the starting context are needed: for each one, what goes wrong without it
// and exactly when.
module BridgePremises {
  import opened Wrappers
  import opened Contexts
  import opened Bridge
  import opened UpToEquality
  import opened BridgeRelation
  import opened BridgeTheorems
  import opened BridgeResults

  // ---------------------------------------------------------------------------------------
  // Storages of other threads, seen from sync code
  // ---------------------------------------------------------------------------------------

  // One crossing puts this thread's tag on whatever storage is in the context.
  lemma CrossingRetags(l: nat, t: Thread, ctx: Context, w: World)
    requires LocalVar(l) in ctx && ctx[LocalVar(l)].Storage?
    ensures var x := EnterCall(false, t, [], ctx, w);
      var r := LeaveCall(x, t, ctx, w, Bridged(Gave(Nothing), x.inner, x.world));
      LocalVar(l) in r.ctx && r.ctx[LocalVar(l)] == Storage(t, ctx[LocalVar(l)].data)
  {
    var x, key := EnterCall(false, t, [], ctx, w), LocalVar(l);
    assert key in x.context && x.context[key] == ctx[key];
    assert key in x.inner && x.inner[key].Storage? && x.inner[key].data == ctx[key].data;
  }

  // Storage that belongs to another thread is invisible until code crosses the bridge once;
  // then the restored context shows it.
  lemma ForeignStorageSurfaces(l: nat, attr: string, t: Thread, ctx: Context, w: World)
    requires LocalVar(l) in ctx && ctx[LocalVar(l)].Storage? && ctx[LocalVar(l)].threadId != t
    requires attr in ctx[LocalVar(l)].data && !Occupied(w)
    ensures var cross := AsyncToSync(false, Give(Input));
      && RunBridged(GetLocal(l, attr), Nothing, Sync(t), [], ctx, w).outcome == Raised(AttributeError)
      && RunBridged(Then(cross, GetLocal(l, attr)), Nothing, Sync(t), [], ctx, w).outcome
         == Gave(ctx[LocalVar(l)].data[attr])
  {
    var x := EnterCall(false, t, [], ctx, w);
    var r := LeaveCall(x, t, ctx, w, Bridged(Gave(Nothing), x.inner, x.world));
    CrossingRetags(l, t, ctx, w);
    EmptyCall(t, ctx, w);
    ThenReads(AsyncToSync(false, Give(Input)), l, attr, Sync(t), ctx, w, r);
  }

  lemma ThenReads(p: Program, l: nat, attr: string, at: Place, ctx: Context, w: World, r: Bridged)
    requires r == RunBridged(p, Nothing, at, [], ctx, w) && r.outcome.Gave?
    ensures RunBridged(Then(p, GetLocal(l, attr)), Nothing, at, [], ctx, w).outcome ==
      OrRaise(GetAttr(r.ctx, LocalVar(l), at.Thread(), attr), AttributeError)
  {
    assert RunBridged(Then(p, GetLocal(l, attr)), Nothing, at, [], ctx, w) ==
      RunBridged(GetLocal(l, attr), r.outcome.v, at, [], r.ctx, r.world);
  }

  lemma EmptyCall(t: Thread, ctx: Context, w: World)
    requires !Occupied(w)
    ensures var x := EnterCall(false, t, [], ctx, w);
      RunBridged(AsyncToSync(false, Give(Input)), Nothing, Sync(t), [], ctx, w) ==
        LeaveCall(x, t, ctx, w, Bridged(Gave(Nothing), x.inner, x.world))
  {
    var x := EnterCall(false, t, [], ctx, w);
    var inner := RunBridged(Give(Input), Nothing, Async(x.loop), [|w.executors|] + [], x.inner, x.world);
    assert inner == Bridged(Gave(Nothing), x.inner, x.world);
    CallUnfolds(false, Give(Input), Nothing, t, [], ctx, w);
  }

  // What the user sees before any crossing: nothing of another thread's.
  function Visible(ctx: Context, t: Thread): Flat {
    Flat(View(ctx).vars, map key | key in ctx && key.LocalVar? && ctx[key].Storage? :: VisibleAt(ctx, key, t))
  }

  function VisibleAt(ctx: Context, key: Key, t: Thread): Data {
    if key.LocalVar? then Attributes(ctx, key, t) else map[]
  }

  ghost predicate LocalsTagged(ctx: Context, t: Thread) {
    forall l | LocalVar(l) in ctx && ctx[LocalVar(l)].Storage? ::
      ctx[LocalVar(l)].threadId == t || ctx[LocalVar(l)].data == map[]
  }

  // Either the storage of the visible executor is this thread's or there is no executor in it.
  predicate ExecutorTagged(ctx: Context, t: Thread) {
    Executors in ctx && ctx[Executors].Storage? ==> ctx[Executors].threadId == t || HoldsNoExecutor(ctx[Executors])
  }

  lemma WellTagged(ctx: Context, t: Thread)
    requires Typed(ctx) && LocalsTagged(ctx, t) && ExecutorTagged(ctx, t)
    ensures Tagged(ctx, t) && Visible(ctx, t) == View(ctx)
  {
    forall key | key in ctx && ctx[key].Storage?
      ensures ctx[key].threadId == t || ctx[key].data == map[] || (key.Executors? && HoldsNoExecutor(ctx[key]))
    {
      assert key.LocalVar? ==> key == LocalVar(key.l);
    }
    forall key | key in ctx && key.LocalVar? && ctx[key].Storage? ensures VisibleAt(ctx, key, t) == LocalAt(ctx, key) {
      assert key == LocalVar(key.l);
    }
    assert Visible(ctx, t).locals == View(ctx).locals;
  }

  ghost predicate SeesTheSame(t: Thread, ctx: Context, inherit: bool) {
    forall p, input :: SameRun(SyncRun(p, input, t, ctx, inherit, PerCall), RunDirect(p, input, false, Visible(ctx, t)))
  }

  // From sync code: every program runs as it does on what the user sees if and only if no Local in
  // the context holds attributes of another thread. Whose executor the context holds is no matter.
  lemma TagsMatter(t: Thread, ctx: Context, inherit: bool)
    requires !t.LoopWorker? && Typed(ctx) && Current(ctx, t) == Nothing
    ensures SeesTheSame(t, ctx, inherit) <==> LocalsTagged(ctx, t)
  {
    if LocalsTagged(ctx, t) {
      TaggedSeesTheSame(t, ctx, inherit);
    }
    if SeesTheSame(t, ctx, inherit) {
      forall l | LocalVar(l) in ctx && ctx[LocalVar(l)].Storage?
        ensures ctx[LocalVar(l)].threadId == t || ctx[LocalVar(l)].data == map[]
      {
        SeenIsTagged(l, t, ctx, inherit);
      }
    }
  }

  // A context whose executor is another thread's, and the same without it.
  predicate Twins(ctx: Context, plain: Context, t: Thread) {
    || ctx == plain
    || (Executors in ctx && ctx[Executors].Storage? && ctx[Executors].threadId != t
        && plain == ctx[Executors := Storage(t, map[])])
  }

  // Sync code cannot see another thread's executor, and its first call replaces it.
  lemma {:induction false} TwinsRunAlike(p: Program, input: Value, t: Thread, ctx: Context, plain: Context, w: World)
    requires Twins(ctx, plain, t)
    ensures var r, r' := RunBridged(p, input, Sync(t), [], ctx, w), RunBridged(p, input, Sync(t), [], plain, w);
      r.outcome == r'.outcome && r.world == r'.world && Twins(r.ctx, r'.ctx, t)
  {
    match p
    case Then(a, b) =>
      TwinsRunAlike(a, input, t, ctx, plain, w);
      var r, r' := RunBridged(a, input, Sync(t), [], ctx, w), RunBridged(a, input, Sync(t), [], plain, w);
      if r.outcome.Gave? {
        TwinsRunAlike(b, r.outcome.v, t, r.ctx, r'.ctx, r.world);
      }
    case Try(a, b) =>
      TwinsRunAlike(a, input, t, ctx, plain, w);
      var r, r' := RunBridged(a, input, Sync(t), [], ctx, w), RunBridged(a, input, Sync(t), [], plain, w);
      if r.outcome.Raised? {
        TwinsRunAlike(b, input, t, r.ctx, r'.ctx, r.world);
      }
    case If(v, a, b) => TwinsRunAlike(if Equal(input, v) then a else b, input, t, ctx, plain, w);
    case AsyncToSync(force, a) => TwinsCallAlike(force, a, input, t, ctx, plain, w);
    case Task(_) =>
    case SyncToAsync(_, _) =>
    case _ => TwinsLeafAlike(p, input, t, ctx, plain, w);
  }

  lemma TwinsCallAlike(force: bool, coro: Program, input: Value, t: Thread, ctx: Context, plain: Context, w: World)
    requires Twins(ctx, plain, t)
    ensures RunBridged(AsyncToSync(force, coro), input, Sync(t), [], ctx, w) ==
      RunBridged(AsyncToSync(force, coro), input, Sync(t), [], plain, w)
  {
    assert SetAttr(ctx, Executors, t, "current", ExecutorRef(|w.executors|)) ==
      SetAttr(plain, Executors, t, "current", ExecutorRef(|w.executors|));
    assert Current(ctx, t) == Current(plain, t);
    CallUnfolds(force, coro, input, t, [], ctx, w);
    CallUnfolds(force, coro, input, t, [], plain, w);
  }

  lemma TwinsLeafAlike(p: Program, input: Value, t: Thread, ctx: Context, plain: Context, w: World)
    requires Leaf(p) && Twins(ctx, plain, t)
    ensures var r, r' := RunBridged(p, input, Sync(t), [], ctx, w), RunBridged(p, input, Sync(t), [], plain, w);
      r.outcome == r'.outcome && r.world == r'.world && Twins(r.ctx, r'.ctx, t)
  {
    if p.GetLocal? || p.SetLocal? || p.DelLocal? {
      assert Attributes(ctx, LocalVar(p.l), t) == Attributes(plain, LocalVar(p.l), t);
      var data := Attributes(ctx, LocalVar(p.l), t);
      if p.SetLocal? {
        TwinsWriteAlike(LocalVar(p.l), Storage(t, data[p.attr := Eval(p.arg, input)]), t, ctx, plain);
      } else if p.DelLocal? {
        TwinsWriteAlike(LocalVar(p.l), Storage(t, data - {p.attr}), t, ctx, plain);
      }
    } else if p.SetVar? {
      TwinsWriteAlike(User(p.x), Plain(Eval(p.arg, input)), t, ctx, plain);
    }
  }

  lemma TwinsWriteAlike(key: Key, c: Cell, t: Thread, ctx: Context, plain: Context)
    requires Twins(ctx, plain, t) && !key.Executors?
    ensures Twins(ctx[key := c], plain[key := c], t)
  {
    if ctx != plain {
      assert ctx[Executors := Storage(t, map[])][key := c] == ctx[key := c][Executors := Storage(t, map[])];
    }
  }

  lemma TwinsLookAlike(ctx: Context, plain: Context, t: Thread)
    requires Twins(ctx, plain, t)
    ensures View(ctx) == View(plain) && Visible(ctx, t) == Visible(plain, t)
  {
    if ctx != plain {
      SetOwnVar(ctx, Executors, Storage(t, map[]));
      assert Visible(ctx, t).locals == Visible(plain, t).locals;
    }
  }

  lemma TaggedSeesTheSame(t: Thread, ctx: Context, inherit: bool)
    requires !t.LoopWorker? && Typed(ctx) && Current(ctx, t) == Nothing && LocalsTagged(ctx, t)
    ensures SeesTheSame(t, ctx, inherit)
  {
    var plain := if ExecutorTagged(ctx, t) then ctx else ctx[Executors := Storage(t, map[])];
    assert Twins(ctx, plain, t) && Typed(plain) && Current(plain, t) == Nothing;
    WellTagged(plain, t);
    TwinsLookAlike(ctx, plain, t);
    forall p, input
      ensures SameRun(SyncRun(p, input, t, ctx, inherit, PerCall), RunDirect(p, input, false, Visible(ctx, t)))
    {
      SyncProgram(p, input, t, plain, inherit, PerCall);
      TwinsRunAlike(p, input, t, ctx, plain, SyncWorld(t, inherit, PerCall));
      TwinsLookAlike(SyncRun(p, input, t, ctx, inherit, PerCall).ctx,
                     SyncRun(p, input, t, plain, inherit, PerCall).ctx, t);
    }
  }

  lemma SeenIsTagged(l: nat, t: Thread, ctx: Context, inherit: bool)
    requires LocalVar(l) in ctx && ctx[LocalVar(l)].Storage? && SeesTheSame(t, ctx, inherit)
    ensures ctx[LocalVar(l)].threadId == t || ctx[LocalVar(l)].data == map[]
  {
    var cell := ctx[LocalVar(l)];
    if cell.threadId != t && cell.data != map[] {
      var attr :| attr in cell.data;
      var p := Then(AsyncToSync(false, Give(Input)), GetLocal(l, attr));
      ForeignStorageSurfaces(l, attr, t, ctx, SyncWorld(t, inherit, PerCall));
      assert p.first == AsyncToSync(false, Give(Input));
      assert SameRun(SyncRun(p, Nothing, t, ctx, inherit, PerCall), RunDirect(p, Nothing, false, Visible(ctx, t)));
      DirectlyUnseen(p.first, l, attr, false, t, ctx);
      assert false;
    }
  }

  lemma DirectlyUnseen(cross: Program, l: nat, attr: string, async: bool, t: Thread, ctx: Context)
    requires cross == if async then SyncToAsync(false, Give(Input)) else AsyncToSync(false, Give(Input))
    requires LocalVar(l) in ctx && ctx[LocalVar(l)].Storage? && ctx[LocalVar(l)].threadId != t
    ensures RunDirect(Then(cross, GetLocal(l, attr)), Nothing, async, Visible(ctx, t)).outcome == Raised(AttributeError)
  {
    var st := Visible(ctx, t);
    assert LocalVar(l) in st.locals && st.locals[LocalVar(l)] == VisibleAt(ctx, LocalVar(l), t) == map[];
    assert RunDirect(Give(Input), Nothing, !async, st) == Direct(Gave(Nothing), st, []);
    assert RunDirect(cross, Nothing, async, st) == Direct(Gave(Nothing), st, []);
  }

  // ---------------------------------------------------------------------------------------
  // The same, seen from async code
  // ---------------------------------------------------------------------------------------

  ghost predicate LoopSeesTheSame(ctx: Context, inherit: bool) {
    forall p, input ::
      SameRun(AsyncRun(p, input, ctx, inherit, PerCall), RunDirect(p, input, true, Visible(ctx, LoopWorker(0))))
  }

  // From async code it takes both: no Local with attributes of another thread, and no executor of
  // another thread. What AsyncToSync stores there is an executor or nothing.
  lemma LoopTagsMatter(ctx: Context, inherit: bool)
    requires Typed(ctx) && Current(ctx, LoopWorker(0)) == Nothing && !IsSet(ctx, Deadlock)
    requires Executors in ctx && "current" in ctx[Executors].data ==>
      ctx[Executors].data["current"].ExecutorRef? || ctx[Executors].data["current"] == Nothing
    ensures LoopSeesTheSame(ctx, inherit) <==> LocalsTagged(ctx, LoopWorker(0)) && ExecutorTagged(ctx, LoopWorker(0))
  {
    if LocalsTagged(ctx, LoopWorker(0)) && ExecutorTagged(ctx, LoopWorker(0)) {
      WellTagged(ctx, LoopWorker(0));
      forall p, input
        ensures SameRun(AsyncRun(p, input, ctx, inherit, PerCall),
                        RunDirect(p, input, true, Visible(ctx, LoopWorker(0))))
      {
        AsyncProgram(p, input, ctx, inherit, PerCall);
      }
    }
    if LoopSeesTheSame(ctx, inherit) {
      forall l | LocalVar(l) in ctx && ctx[LocalVar(l)].Storage?
        ensures ctx[LocalVar(l)].threadId == LoopWorker(0) || ctx[LocalVar(l)].data == map[]
      {
        SeenOnLoopIsTagged(l, ctx, inherit);
      }
      SeenExecutorIsTagged(ctx, inherit);
    }
  }

  // What an awaited call that does nothing does to the context of its loop.
  function AfterHand(choice: Choice, ctx: Context): Context {
    var context := Marked(ctx, choice);
    Restored(context, Restored(context, context, choice.thread), LoopWorker(0))[Deadlock := Plain(Flag(false))]
  }

  lemma EmptyHand(sensitive: bool, ctx: Context, w: World, choice: Choice)
    requires ChooseThread(sensitive, 0, ctx, w) == Success(choice)
    ensures RunBridged(SyncToAsync(sensitive, Give(Input)), Nothing, Async(0), [], ctx, w) ==
      Bridged(Gave(Nothing), AfterHand(choice, ctx), Hand(w, sensitive, choice.thread, 0, ctx, []))
  {
    var context := Marked(ctx, choice);
    var worker, w1 := Restored(context, context, choice.thread), Hand(w, sensitive, choice.thread, 0, ctx, []);
    HandUnfolds(sensitive, Give(Input), Nothing, 0, [], ctx, w);
    assert RunBridged(Give(Input), Nothing, Sync(choice.thread), [], worker, w1) == Bridged(Gave(Nothing), worker, w1);
  }

  // It re-tags every storage, whatever it is for.
  lemma HandRetags(key: Key, choice: Choice, ctx: Context)
    requires key in ctx && ctx[key].Storage? && !key.Deadlock?
    ensures var after := AfterHand(choice, ctx); key in after && after[key] == Storage(LoopWorker(0), ctx[key].data)
  {
    var context := Marked(ctx, choice);
    var worker := Restored(context, context, choice.thread);
    assert context[key] == ctx[key] && worker[key] == Rehome(ctx[key], choice.thread);
    assert Restored(context, worker, LoopWorker(0))[key] == Rehome(worker[key], LoopWorker(0));
  }

  lemma SeenOnLoopIsTagged(l: nat, ctx: Context, inherit: bool)
    requires LocalVar(l) in ctx && ctx[LocalVar(l)].Storage? && LoopSeesTheSame(ctx, inherit)
    ensures ctx[LocalVar(l)].threadId == LoopWorker(0) || ctx[LocalVar(l)].data == map[]
  {
    var cell := ctx[LocalVar(l)];
    if cell.threadId != LoopWorker(0) && cell.data != map[] {
      var attr :| attr in cell.data;
      var cross, w := SyncToAsync(false, Give(Input)), AsyncWorld(inherit, PerCall);
      var choice := Choice(PoolWorker(0), false);
      EmptyHand(false, ctx, w, choice);
      HandRetags(LocalVar(l), choice, ctx);
      ThenReads(cross, l, attr, Async(0), ctx, w, RunBridged(cross, Nothing, Async(0), [], ctx, w));
      var p := Then(cross, GetLocal(l, attr));
      assert SameRun(AsyncRun(p, Nothing, ctx, inherit, PerCall),
                     RunDirect(p, Nothing, true, Visible(ctx, LoopWorker(0))));
      DirectlyUnseen(cross, l, attr, true, LoopWorker(0), ctx);
      assert false;
    }
  }

  // Another thread's executor lets a first sensitive call through. That call's way back puts the
  // loop's tag on it, and the next sensitive call is sent to it.
  lemma ForeignExecutorTakesOver(e: nat, ctx: Context, w: World, choice: Choice)
    requires Executors in ctx && ctx[Executors].Storage? && "current" in ctx[Executors].data
    requires ctx[Executors].data["current"] == ExecutorRef(e)
    requires ChooseThread(true, 0, ctx, w) == Success(choice)
    ensures var first := RunBridged(SyncToAsync(true, Give(Input)), Nothing, Async(0), [], ctx, w);
      && first.outcome == Gave(Nothing) && Current(first.ctx, LoopWorker(0)) == ExecutorRef(e)
      && ChooseThread(true, 0, first.ctx, first.world) == SubmitTo(w, e, LoopWorker(0))
  {
    EmptyHand(true, ctx, w, choice);
    HandRetags(Executors, choice, ctx);
    var first := RunBridged(SyncToAsync(true, Give(Input)), Nothing, Async(0), [], ctx, w);
    assert first.world.executors == w.executors;
    assert SubmitTo(first.world, e, LoopWorker(0)) == SubmitTo(w, e, LoopWorker(0));
  }

  lemma SeenExecutorIsTagged(ctx: Context, inherit: bool)
    requires Typed(ctx) && Current(ctx, LoopWorker(0)) == Nothing && !IsSet(ctx, Deadlock)
    requires Executors in ctx && "current" in ctx[Executors].data ==>
      ctx[Executors].data["current"].ExecutorRef? || ctx[Executors].data["current"] == Nothing
    requires LoopSeesTheSame(ctx, inherit)
    ensures ExecutorTagged(ctx, LoopWorker(0))
  {
    if !ExecutorTagged(ctx, LoopWorker(0)) {
      var cross, w := SyncToAsync(true, Give(Input)), AsyncWorld(inherit, PerCall);
      var p, e := Then(cross, cross), ctx[Executors].data["current"].id;
      ForeignExecutorTakesOver(e, ctx, w, ChooseThread(true, 0, ctx, w).value);
      SecondIsRefused(ctx, w);
      assert SameRun(AsyncRun(p, Nothing, ctx, inherit, PerCall),
                     RunDirect(p, Nothing, true, Visible(ctx, LoopWorker(0))));
      DirectlyBoth(Visible(ctx, LoopWorker(0)));
      assert false;
    }
  }

  lemma SecondIsRefused(ctx: Context, w: World)
    requires var first := RunBridged(SyncToAsync(true, Give(Input)), Nothing, Async(0), [], ctx, w);
      first.outcome == Gave(Nothing) && ChooseThread(true, 0, first.ctx, first.world) == Failure(QuitOrBroken)
    ensures var cross := SyncToAsync(true, Give(Input));
      RunBridged(Then(cross, cross), Nothing, Async(0), [], ctx, w).outcome == Raised(QuitOrBroken)
  {
    var cross := SyncToAsync(true, Give(Input));
    var first := RunBridged(cross, Nothing, Async(0), [], ctx, w);
    HandUnfolds(true, Give(Input), Nothing, 0, [], first.ctx, first.world);
    assert RunBridged(Then(cross, cross), Nothing, Async(0), [], ctx, w) ==
      RunBridged(cross, Nothing, Async(0), [], first.ctx, first.world);
  }

  lemma DirectlyBoth(st: Flat)
    ensures var cross := SyncToAsync(true, Give(Input));
      RunDirect(Then(cross, cross), Nothing, true, st).outcome == Gave(Nothing)
  {
    var cross := SyncToAsync(true, Give(Input));
    assert RunDirect(Give(Input), Nothing, false, st) == Direct(Gave(Nothing), st, []);
    assert RunDirect(cross, Nothing, true, st) == Direct(Gave(Nothing), st, []);
  }

  // ---------------------------------------------------------------------------------------
  // A shared worker thread
  // ---------------------------------------------------------------------------------------

  ghost predicate SharedSeesTheSame(t: Thread, ctx: Context, inherit: bool, base: Context) {
    forall p, input ::
      SameAsFar(SyncRun(p, input, t, ctx, inherit, Shared(base)), RunDirect(p, input, false, View(ctx)))
  }

  ghost predicate UserKeysWithin(base: Context, ctx: Context) {
    forall key | key in base && (key.User? || key.LocalVar?) :: key in ctx
  }

  // Inside an AsyncSingleThreadContext whose thread was started by an earlier caller, with that
  // caller's variables if threads inherit: every program runs as it does directly, as far as it
  // runs, if and only if that thread holds no variable and no Local the present caller lacks.
  lemma SharedWorkerMatters(t: Thread, ctx: Context, inherit: bool, base: Context)
    requires !t.LoopWorker? && Tagged(ctx, t) && Typed(ctx) && Current(ctx, t) == Nothing && Typed(base)
    requires forall key | key in base && (key.Deadlock? || key.Sensitive?) :: key in ctx
    ensures SharedSeesTheSame(t, ctx, inherit, base) <==> UserKeysWithin(base, ctx)
  {
    if UserKeysWithin(base, ctx) {
      forall key | key in base.Keys ensures key in ctx.Keys + {Executors} {
      }
      forall p, input
        ensures SameAsFar(SyncRun(p, input, t, ctx, inherit, Shared(base)), RunDirect(p, input, false, View(ctx)))
      {
        SyncProgram(p, input, t, ctx, inherit, Shared(base));
      }
    }
    if SharedSeesTheSame(t, ctx, inherit, base) {
      forall key | key in base && (key.User? || key.LocalVar?) ensures key in ctx {
        SharedIsWithin(key, t, ctx, inherit, base);
      }
    }
  }

  lemma SharedIsWithin(key: Key, t: Thread, ctx: Context, inherit: bool, base: Context)
    requires key in base && (key.User? || key.LocalVar?) && Typed(base)
    requires SharedSeesTheSame(t, ctx, inherit, base)
    ensures key in ctx
  {
    if key !in ctx {
      var p := AsyncToSync(false, Give(Input));
      assert SameAsFar(SyncRun(p, Nothing, t, ctx, inherit, Shared(base)), RunDirect(p, Nothing, false, View(ctx)));
      BaseShows(key, t, ctx, inherit, base);
    }
  }

  lemma BaseShows(key: Key, t: Thread, ctx: Context, inherit: bool, base: Context)
    requires key in base && (key.User? || key.LocalVar?) && key !in ctx && Typed(base)
    ensures var p := AsyncToSync(false, Give(Input));
      !SameAsFar(SyncRun(p, Nothing, t, ctx, inherit, Shared(base)), RunDirect(p, Nothing, false, View(ctx)))
  {
    var p := AsyncToSync(false, Give(Input));
    var r, d := SyncRun(p, Nothing, t, ctx, inherit, Shared(base)), RunDirect(p, Nothing, false, View(ctx));
    BaseStays(key, t, ctx, inherit, base);
    assert RunDirect(Give(Input), Nothing, true, View(ctx)).state == View(ctx) == d.state;
    if key.User? {
      assert key in Sight(r.ctx).vars && key !in BlurFlat(d.state).vars;
    } else {
      assert key in Sight(r.ctx).locals && key !in BlurFlat(d.state).locals;
    }
  }

  // After one call the thread's own variables are the caller's.
  lemma BaseStays(key: Key, t: Thread, ctx: Context, inherit: bool, base: Context)
    requires key in base && (key.User? || key.LocalVar?) && key !in ctx && Typed(base)
    ensures var r := SyncRun(AsyncToSync(false, Give(Input)), Nothing, t, ctx, inherit, Shared(base));
      !r.outcome.Waits? && key in r.ctx && (key.User? ==> r.ctx[key].Plain?) && (key.LocalVar? ==> r.ctx[key].Storage?)
  {
    var w := SyncWorld(t, inherit, Shared(base));
    var x := EnterCall(false, t, [], ctx, w);
    EmptyCall(t, ctx, w);
    assert x.own && x.inner == Restored(base, x.context, LoopWorker(0));
    assert key !in x.context && key in x.inner && x.inner[key] == base[key];
    assert Restored(x.context, x.inner, t)[key] == Rehome(base[key], t);
  }
}
