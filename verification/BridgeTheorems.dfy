// The bridge changes nothing a program can see, and keeps sync code on its thread.
module BridgeTheorems {
  import opened Wrappers
  import opened Contexts
  import opened Bridge
  import opened UpToEquality
  import opened BridgeRelation

  // ---------------------------------------------------------------------------------------
  // Small facts
  // ---------------------------------------------------------------------------------------

  lemma RestoredCells(current: Context, source: Context, t: Thread)
    requires current.Keys <= source.Keys
    ensures Restored(current, source, t).Keys == source.Keys
    ensures forall key | key in source :: Restored(current, source, t)[key] == RestoredCell(current, source, key, t)
  {
  }

  // Same cells up to the tag, same view.
  predicate SameButTag(a: Cell, b: Cell) {
    a == b || (a.Storage? && b.Storage? && a.data == b.data)
  }

  lemma SameView(a: Context, b: Context)
    requires a.Keys == b.Keys
    requires forall key | key in a :: SameButTag(a[key], b[key])
    ensures View(a) == View(b)
  {
    assert View(a).vars == View(b).vars;
    assert View(a).locals == View(b).locals;
  }

  // Same cells up to the tag and up to ==, same sight.
  predicate SameCell(a: Cell, b: Cell) {
    if a.Storage? then b.Storage? && a.data == b.data else b.Plain? && Equal(a.value, b.value)
  }

  lemma SameSight(a: Context, b: Context)
    requires a.Keys == b.Keys
    requires forall key | key in a :: SameCell(a[key], b[key])
    ensures Sight(a) == Sight(b)
  {
    assert Sight(a).vars == Sight(b).vars;
    assert Sight(a).locals == Sight(b).locals;
  }

  lemma RestoredSight(current: Context, source: Context, t: Thread)
    requires current.Keys <= source.Keys
    ensures Sight(Restored(current, source, t)) == Sight(source)
  {
    RestoredCells(current, source, t);
    var ctx := Restored(current, source, t);
    forall key | key in ctx ensures SameCell(ctx[key], source[key]) {
      assert ctx[key] == RestoredCell(current, source, key, t);
    }
    SameSight(ctx, source);
  }

  lemma RestoredWell(current: Context, source: Context, t: Thread)
    requires current.Keys <= source.Keys && Typed(source) && Typed(current)
    ensures var ctx := Restored(current, source, t);
      Tagged(ctx, t) && Typed(ctx) && Lookup(ctx, Sensitive) == Lookup(source, Sensitive)
  {
    RestoredCells(current, source, t);
  }

  lemma RestoredCurrent(current: Context, source: Context, t: Thread, u: Thread)
    requires current.Keys <= source.Keys && Typed(source) && Tagged(source, u)
    ensures Current(Restored(current, source, t), t) == Current(source, u)
  {
    var ctx := Restored(current, source, t);
    if Executors in source {
      assert ctx[Executors] == RestoredCell(current, source, Executors, t) == Storage(t, source[Executors].data);
    } else {
      assert Executors !in ctx;
    }
  }

  lemma RestoreShows(current: Context, source: Context, t: Thread)
    requires current.Keys <= source.Keys && Typed(source) && Typed(current)
    ensures var ctx := Restored(current, source, t);
      Sight(ctx) == Sight(source) && Tagged(ctx, t) && Typed(ctx) && ctx.Keys == source.Keys
      && Lookup(ctx, Sensitive) == Lookup(source, Sensitive)
      && (forall u | Tagged(source, u) :: Current(ctx, t) == Current(source, u))
  {
    RestoredSight(current, source, t);
    RestoredWell(current, source, t);
    RestoredCells(current, source, t);
    forall u | Tagged(source, u) ensures Current(Restored(current, source, t), t) == Current(source, u) {
      RestoredCurrent(current, source, t, u);
    }
  }

  // Nothing but tags changes when a context is restored into its own copy.
  lemma RestoreItselfShows(source: Context, t: Thread)
    requires Typed(source)
    ensures View(Restored(source, source, t)) == View(source)
  {
    RestoredCells(source, source, t);
    SameView(Restored(source, source, t), source);
  }

  lemma SetUserVar(ctx: Context, x: nat, v: Value)
    ensures View(ctx[User(x) := Plain(v)]) == View(ctx).(vars := View(ctx).vars[User(x) := v])
  {
    var ctx' := ctx[User(x) := Plain(v)];
    assert View(ctx').vars == View(ctx).vars[User(x) := v];
    assert View(ctx').locals == View(ctx).locals;
  }

  lemma SetLocalVar(ctx: Context, l: nat, t: Thread, data: Data)
    ensures View(ctx[LocalVar(l) := Storage(t, data)]) == View(ctx).(locals := View(ctx).locals[LocalVar(l) := data])
  {
    var ctx' := ctx[LocalVar(l) := Storage(t, data)];
    assert View(ctx').vars == View(ctx).vars;
    assert View(ctx').locals == View(ctx).locals[LocalVar(l) := data];
  }

  // The variables the bridge keeps for itself are not in view.
  lemma SetOwnVar(ctx: Context, key: Key, c: Cell)
    requires !key.User? && !key.LocalVar?
    ensures View(ctx[key := c]) == View(ctx)
  {
    var ctx' := ctx[key := c];
    assert View(ctx').vars == View(ctx).vars;
    assert View(ctx').locals == View(ctx).locals;
  }

  lemma AttributesInView(ctx: Context, l: nat, t: Thread)
    requires Tagged(ctx, t)
    ensures Attributes(ctx, LocalVar(l), t) == AttributesOf(View(ctx), l)
  {
  }

  predicate Leaf(p: Program) {
    p.Give? || p.GetVar? || p.SetVar? || p.GetLocal? || p.SetLocal? || p.DelLocal? || p.Throw?
  }

  // Writing one of the user's variables, with the right tag.
  lemma WriteKeeps(at: Place, frames: seq<nat>, ctx: Context, w: World, key: Key, c: Cell)
    requires Ready(at, frames, ctx, w)
    requires (key.User? && c.Plain?) || (key.LocalVar? && c.Storage? && c.threadId == at.Thread())
    ensures Ready(at, frames, ctx[key := c], w) && Framed(ctx, w, ctx[key := c], w)
  {
  }

  // Only the log of reads grows.
  lemma ReadKeeps(at: Place, frames: seq<nat>, ctx: Context, w: World, read: Read)
    requires Ready(at, frames, ctx, w)
    ensures var w' := w.(observed := w.observed + [read]);
      Ready(at, frames, ctx, w') && Framed(ctx, w, ctx, w')
  {
  }

  lemma ReadAgrees(p: Program, input: Value, at: Place, frames: seq<nat>, ctx: Context, w: World)
    requires (p.GetVar? || p.GetLocal?) && Ready(at, frames, ctx, w)
    ensures Agrees(p, input, at, frames, ctx, w)
  {
    if p.GetLocal? {
      AttributesInView(ctx, p.l, at.Thread());
    }
    ReadKeeps(at, frames, ctx, w, RunDirect(p, input, at.Async?, View(ctx)).observed[0]);
    BlurAppend(w.observed, RunDirect(p, input, at.Async?, View(ctx)).observed);
  }

  lemma LocalWriteMatches(l: nat, data: Data, at: Place, frames: seq<nat>, ctx: Context, w: World)
    requires Ready(at, frames, ctx, w)
    ensures var st := View(ctx);
      Matches(Bridged(Gave(Nothing), ctx[LocalVar(l) := Storage(at.Thread(), data)], w),
              Direct(Gave(Nothing), st.(locals := st.locals[LocalVar(l) := data]), []), at, frames, ctx, w)
  {
    SetLocalVar(ctx, l, at.Thread(), data);
    WriteKeeps(at, frames, ctx, w, LocalVar(l), Storage(at.Thread(), data));
    assert w.observed + [] == w.observed;
  }

  lemma LocalWriteAgrees(p: Program, input: Value, at: Place, frames: seq<nat>, ctx: Context, w: World)
    requires (p.SetLocal? || p.DelLocal?) && Ready(at, frames, ctx, w)
    ensures Agrees(p, input, at, frames, ctx, w)
  {
    AttributesInView(ctx, p.l, at.Thread());
    var data := AttributesOf(View(ctx), p.l);
    if p.DelLocal? && p.attr !in data {
      RefusedMatches(AttributeError, at, frames, ctx, w);
    } else {
      var data' := if p.SetLocal? then data[p.attr := Eval(p.arg, input)] else data - {p.attr};
      LocalWriteMatches(p.l, data', at, frames, ctx, w);
    }
  }

  lemma LeafAgrees(p: Program, input: Value, at: Place, frames: seq<nat>, ctx: Context, w: World)
    requires Leaf(p) && Ready(at, frames, ctx, w)
    ensures Agrees(p, input, at, frames, ctx, w)
  {
    if p.GetVar? || p.GetLocal? {
      ReadAgrees(p, input, at, frames, ctx, w);
    } else if p.SetLocal? || p.DelLocal? {
      LocalWriteAgrees(p, input, at, frames, ctx, w);
    } else {
      assert w.observed + [] == w.observed;
      if p.SetVar? {
        SetUserVar(ctx, p.x, Eval(p.arg, input));
        WriteKeeps(at, frames, ctx, w, User(p.x), Plain(Eval(p.arg, input)));
      }
    }
  }

  lemma FramedTwice(ctx: Context, w: World, ctx': Context, w': World, ctx'': Context, w'': World)
    requires Framed(ctx, w, ctx', w') && Framed(ctx', w', ctx'', w'')
    ensures Framed(ctx, w, ctx'', w'')
  {
  }

  // A walk up from the innermost executor finds the closest frame still blocked.
  lemma {:induction false} WalkFindsBlocked(xs: seq<Executor>, frames: seq<nat>)
    requires Chained(xs) && Stack(xs, frames) && frames != []
    ensures FirstRunning(xs, frames[0]) == FirstBlocked(xs, frames)
    decreases |frames|
  {
    if xs[frames[0]].broken && |frames| > 1 {
      assert xs[frames[0]].parent == Some(frames[1]);
      WalkFindsBlocked(xs, frames[1..]);
    }
  }

  lemma {:induction false} BlockedLater(xs: seq<Executor>, ys: seq<Executor>, frames: seq<nat>)
    requires xs <= ys && Stack(xs, frames)
    ensures FirstBlocked(xs, frames) == FirstBlocked(ys, frames) && Stack(ys, frames)
    decreases |frames|
  {
    if frames != [] {
      assert ys[frames[0]] == xs[frames[0]];
      BlockedLater(xs, ys, frames[1..]);
    }
  }

  lemma {:induction false} StackLater(xs: seq<Executor>, ys: seq<Executor>, frames: seq<nat>)
    requires Grows(xs, ys) && Stack(xs, frames)
    ensures Stack(ys, frames)
    decreases |frames|
  {
    if frames != [] {
      StackLater(xs, ys, frames[1..]);
    }
  }

  lemma EventsLater(xs: seq<Executor>, ys: seq<Executor>, events: seq<Event>)
    requires Grows(xs, ys) && GoodEvents(xs, events)
    ensures GoodEvents(ys, events)
  {
    forall k | 0 <= k < |events| ensures GoodEvent(ys, events[k]) {
      if events[k].Called? {
        StackLater(xs, ys, [events[k].executor] + events[k].frames);
      }
    }
  }

  // ---------------------------------------------------------------------------------------
  // SyncToAsync
  // ---------------------------------------------------------------------------------------

  // None of the errors of the thread choice can happen, and the choice is the right one.
  lemma ThreadChosen(sensitive: bool, loop: nat, frames: seq<nat>, ctx: Context, w: World)
    requires Ready(Async(loop), frames, ctx, w)
    ensures var choice := ChooseThread(sensitive, loop, ctx, w);
      && choice.Success? && HostOk(choice.value.thread, Hand(w, sensitive, choice.value.thread, loop, ctx, frames))
      && GoodEvent(w.executors, RanOn(w, sensitive, choice.value.thread, ctx, frames))
  {
    if frames != [] {
      WalkFindsBlocked(w.executors, frames);
    }
  }

  lemma Entered(sensitive: bool, loop: nat, frames: seq<nat>, ctx: Context, w: World, choice: Choice)
    requires Ready(Async(loop), frames, ctx, w) && ChooseThread(sensitive, loop, ctx, w) == Success(choice)
    ensures var context := Marked(ctx, choice);
      var worker := Restored(context, context, choice.thread);
      var w' := Hand(w, sensitive, choice.thread, loop, ctx, frames);
      && Ready(Sync(choice.thread), frames, worker, w')
      && View(worker) == View(ctx) && ctx.Keys <= worker.Keys == context.Keys
      && Framed(ctx, w, worker, w')
  {
    ThreadChosen(sensitive, loop, frames, ctx, w);
    MarkShows(ctx, true, LoopWorker(loop));
    var context := Marked(ctx, choice);
    assert Tagged(context, LoopWorker(loop)) && Typed(context);
    RestoreShows(context, context, choice.thread);
    RestoreItselfShows(context, choice.thread);
  }

  lemma MarkShows(ctx: Context, on: bool, t: Thread)
    requires Tagged(ctx, t) && Typed(ctx)
    ensures var marked := ctx[Deadlock := Plain(Flag(on))];
      Tagged(marked, t) && Typed(marked) && View(marked) == View(ctx) && Current(marked, t) == Current(ctx, t)
      && marked.Keys == ctx.Keys + {Deadlock} && Lookup(marked, Sensitive) == Lookup(ctx, Sensitive)
      && IsSet(marked, Deadlock) == on
  {
    SetOwnVar(ctx, Deadlock, Plain(Flag(on)));
  }

  lemma Back(loop: nat, t: Thread, frames: seq<nat>, ctx: Context, w: World, context: Context, ctx': Context, w': World)
    requires Ready(Async(loop), frames, ctx, w) && Ready(Sync(t), frames, ctx', w')
    requires Framed(ctx, w, ctx', w') && ctx.Keys <= context.Keys <= ctx'.Keys && Typed(context)
    ensures var back := Restored(context, ctx', LoopWorker(loop))[Deadlock := Plain(Flag(false))];
      Ready(Async(loop), frames, back, w') && Sight(back) == Sight(ctx') && Framed(ctx, w, back, w')
  {
    RestoreShows(context, ctx', LoopWorker(loop));
    MarkShows(Restored(context, ctx', LoopWorker(loop)), false, LoopWorker(loop));
    BlockedLater(w.executors, w'.executors, frames);
  }

  // ---------------------------------------------------------------------------------------
  // AsyncToSync
  // ---------------------------------------------------------------------------------------

  // The caller's context with the new executor visible.
  function WithExecutor(ctx: Context, t: Thread, v: Value): Context {
    SetAttr(ctx, Executors, t, "current", v)
  }

  lemma WithExecutorShows(ctx: Context, t: Thread, v: Value)
    requires Tagged(ctx, t) && Typed(ctx)
    ensures var ctx' := WithExecutor(ctx, t, v);
      Tagged(ctx', t) && Typed(ctx') && View(ctx') == View(ctx) && Current(ctx', t) == v
      && ctx'.Keys == ctx.Keys + {Executors} && Lookup(ctx', Sensitive) == Lookup(ctx, Sensitive)
      && Lookup(ctx', Deadlock) == Lookup(ctx, Deadlock)
  {
    SetOwnVar(ctx, Executors, Storage(t, Attributes(ctx, Executors, t)["current" := v]));
  }

  // The new frame's executor is in place, and it is not broken.
  lemma FrameOpened(t: Thread, frames: seq<nat>, ctx: Context, w: World, loop: nat)
    requires Ready(Sync(t), frames, ctx, w)
    ensures var e, w1 := |w.executors|, OpenFrame(w, t, Current(ctx, t), frames, loop);
      && WorldOk(w1) && Stack(w1.executors, [e] + frames) && FirstBlocked(w1.executors, [e] + frames) == Some(e)
      && Framed(ctx, w, ctx, w1)
  {
    var e, w1 := |w.executors|, OpenFrame(w, t, Current(ctx, t), frames, loop);
    assert w.executors <= w1.executors;
    BlockedLater(w.executors, w1.executors, frames);
    assert ([e] + frames)[1..] == frames;
    if GoodEvents(w.executors, w.events) {
      EventsLater(w.executors, w1.executors, w.events);
    }
  }

  // What the coroutine starts with, on a loop of its own or on the parent's.
  lemma CoroutineStarts(t: Thread, frames: seq<nat>, ctx: Context, w: World, start: Context, loop: nat, w2: World)
    requires Ready(Sync(t), frames, ctx, w)
    requires var w1 := OpenFrame(w, t, Current(ctx, t), frames, loop);
      (w2 == w1 && (w.workers.SharedNext? ==> !w.inherit))
      || (loop == w.nextLoop && w2 == OpenLoop(w1, |w.executors|, start))
    requires start.Keys <= ctx.Keys + {Executors} && Typed(start)
    requires w2 != OpenFrame(w, t, Current(ctx, t), frames, loop) && !w.inherit && w.workers.SharedNext? ==>
      start == map[]
    ensures var e, context := |w.executors|, WithExecutor(ctx, t, ExecutorRef(|w.executors|));
      var inner := Restored(start, context, LoopWorker(loop));
      && Ready(Async(loop), [e] + frames, inner, w2) && Sight(inner) == Sight(ctx)
      && inner.Keys == context.Keys && Lookup(inner, Sensitive) == Lookup(ctx, Sensitive)
  {
    var e, context := |w.executors|, WithExecutor(ctx, t, ExecutorRef(|w.executors|));
    FrameOpened(t, frames, ctx, w, loop);
    WithExecutorShows(ctx, t, ExecutorRef(e));
    RestoreShows(start, context, LoopWorker(loop));
  }

  // The thread of a loop of its own holds nothing but what the caller has.
  lemma LoopStarts(t: Thread, frames: seq<nat>, ctx: Context, w: World)
    requires Ready(Sync(t), frames, ctx, w)
    ensures var context := WithExecutor(ctx, t, ExecutorRef(|w.executors|));
      var start := LoopStart(w, context);
      && start.Keys <= ctx.Keys + {Executors} && Typed(start)
      && (!w.inherit && w.workers.SharedNext? ==> start == map[])
  {
    WithExecutorShows(ctx, t, ExecutorRef(|w.executors|));
  }

  // Breaking the executor that was made on top of `w` leaves what was below it alone.
  lemma FrameBroken(frames: seq<nat>, w: World, w': World)
    requires WorldOk(w') && w.executors <= w'.executors && Stack(w.executors, frames)
    ensures var w'' := CloseFrame(w', |w.executors|);
      WorldOk(w'') && w.executors <= w''.executors && Stack(w''.executors, frames)
      && FirstBlocked(w.executors, frames) == FirstBlocked(w''.executors, frames)
      && (GoodEvents(w'.executors, w'.events) ==> GoodEvents(w''.executors, w''.events))
  {
    var w'' := CloseFrame(w', |w.executors|);
    BlockedLater(w.executors, w''.executors, frames);
    if GoodEvents(w'.executors, w'.events) {
      EventsLater(w'.executors, w''.executors, w'.events);
    }
  }

  lemma FrameClosed(t: Thread, frames: seq<nat>, ctx: Context, w: World, context: Context, ctx': Context, w': World,
                    loop: nat)
    requires Ready(Sync(t), frames, ctx, w)
    requires Ready(Async(loop), [|w.executors|] + frames, ctx', w')
    requires Framed(ctx, w, ctx', w') && ctx.Keys <= context.Keys <= ctx'.Keys && Typed(context)
    ensures var back := WithExecutor(Restored(context, ctx', t), t, Current(ctx, t));
      var w'' := CloseFrame(w', |w.executors|);
      Ready(Sync(t), frames, back, w'') && Sight(back) == Sight(ctx') && Framed(ctx, w, back, w'')
      && w''.observed == w'.observed
  {
    RestoreShows(context, ctx', t);
    WithExecutorShows(Restored(context, ctx', t), t, Current(ctx, t));
    FrameBroken(frames, w, w');
  }

  lemma LoopClosed(at: Place, frames: seq<nat>, ctx: Context, w: World, ctx': Context, w': World, e: nat,
                   start: Context)
    requires Ready(at, frames, ctx', w') && frames != [] && WorldOk(w)
    requires Framed(ctx, OpenLoop(w, e, start), ctx', w')
    requires !w.inherit && w.workers.SharedNext? ==> start == map[]
    ensures var w'' := CloseLoop(w', w.nextLoop);
      Ready(at, frames, ctx', w'') && Framed(ctx, w, ctx', w'')
      && w''.executors == w'.executors && w''.observed == w'.observed
  {
    var w'' := CloseLoop(w', w.nextLoop);
    assert w''.loopExecutors == w.loopExecutors;
    assert w''.running == w.running;
  }

  // ---------------------------------------------------------------------------------------
  // The theorem
  // ---------------------------------------------------------------------------------------

  // The sync code of a SyncToAsync did what it does directly; so does the whole call.
  lemma SyncToAsyncMatches(r: Bridged, d: Direct, sensitive: bool, loop: nat, frames: seq<nat>, ctx: Context,
                           w: World, choice: Choice)
    requires Ready(Async(loop), frames, ctx, w) && ChooseThread(sensitive, loop, ctx, w) == Success(choice)
    requires var context := Marked(ctx, choice);
      Matches(r, d, Sync(choice.thread), frames, Restored(context, context, choice.thread),
              Hand(w, sensitive, choice.thread, loop, ctx, frames))
    ensures var back := Restored(Marked(ctx, choice), r.ctx, LoopWorker(loop))[Deadlock := Plain(Flag(false))];
      Matches(Bridged(r.outcome, back, r.world), d, Async(loop), frames, ctx, w)
  {
    var t, context := choice.thread, Marked(ctx, choice);
    var worker, w1 := Restored(context, context, t), Hand(w, sensitive, t, loop, ctx, frames);
    Entered(sensitive, loop, frames, ctx, w, choice);
    FramedTwice(ctx, w, worker, w1, r.ctx, r.world);
    Back(loop, t, frames, ctx, w, context, r.ctx, r.world);
  }

  // What a run does before the part that waits for ever: it makes executors and logs what it does.
  predicate Leads(w: World, w': World) {
    && (w.workers.PerCall? ==> w'.workers.PerCall?)
    && w.executors <= w'.executors && w'.observed == w.observed
    && w.events <= w'.events && (GoodEvents(w.executors, w.events) ==> GoodEvents(w'.executors, w'.events))
  }

  lemma HaltsEarlier(r: Bridged, d: Direct, d': Direct, w: World, w': World)
    requires Halts(r, d, w') && Leads(w, w') && BlurReads(d.observed) == BlurReads(d'.observed)
    ensures Halts(r, d', w)
  {
  }

  lemma {:induction false} SyncToAsyncAgrees(p: Program, input: Value, loop: nat, frames: seq<nat>, ctx: Context,
                                             w: World)
    requires p.SyncToAsync? && Ready(Async(loop), frames, ctx, w)
    ensures Agrees(p, input, Async(loop), frames, ctx, w)
    decreases p, 0, 0
  {
    ThreadChosen(p.sensitive, loop, frames, ctx, w);
    var choice := ChooseThread(p.sensitive, loop, ctx, w).value;
    Entered(p.sensitive, loop, frames, ctx, w, choice);
    var t, context := choice.thread, Marked(ctx, choice);
    var worker, w1 := Restored(context, context, t), Hand(w, p.sensitive, t, loop, ctx, frames);
    BridgeIsTransparent(p.sync, input, Sync(t), frames, worker, w1);
    HandedAgrees(p, input, loop, frames, ctx, w, choice);
  }

  // The call as a whole, once its sync code is known to follow the direct run.
  lemma HandedAgrees(p: Program, input: Value, loop: nat, frames: seq<nat>, ctx: Context, w: World, choice: Choice)
    requires p.SyncToAsync? && Ready(Async(loop), frames, ctx, w)
    requires ChooseThread(p.sensitive, loop, ctx, w) == Success(choice)
    requires var context := Marked(ctx, choice);
      var worker := Restored(context, context, choice.thread);
      var w1 := Hand(w, p.sensitive, choice.thread, loop, ctx, frames);
      View(worker) == View(ctx) && Framed(ctx, w, worker, w1)
      && Agrees(p.sync, input, Sync(choice.thread), frames, worker, w1)
    ensures Agrees(p, input, Async(loop), frames, ctx, w)
  {
    var t, context := choice.thread, Marked(ctx, choice);
    var worker, w1 := Restored(context, context, t), Hand(w, p.sensitive, t, loop, ctx, frames);
    var r, d := RunBridged(p.sync, input, Sync(t), frames, worker, w1), RunDirect(p.sync, input, false, View(ctx));
    var whole := HandResult(choice, loop, ctx, r);
    HandedIs(p, input, loop, frames, ctx, w, choice);
    if r.outcome.Waits? {
      HaltsEarlier(r, d, d, w, w1);
    } else {
      SyncToAsyncMatches(r, d, p.sensitive, loop, frames, ctx, w, choice);
    }
    assert Follows(whole, d, Async(loop), frames, ctx, w);
  }

  lemma HandedIs(p: Program, input: Value, loop: nat, frames: seq<nat>, ctx: Context, w: World, choice: Choice)
    requires p.SyncToAsync? && ChooseThread(p.sensitive, loop, ctx, w) == Success(choice)
    ensures var context := Marked(ctx, choice);
      RunBridged(p, input, Async(loop), frames, ctx, w) == HandResult(choice, loop, ctx,
        RunBridged(p.sync, input, Sync(choice.thread), frames, Restored(context, context, choice.thread),
                   Hand(w, p.sensitive, choice.thread, loop, ctx, frames)))
    ensures RunDirect(p, input, true, View(ctx)) == RunDirect(p.sync, input, false, View(ctx))
  {
    HandUnfolds(p.sensitive, p.sync, input, loop, frames, ctx, w);
  }

  // The coroutine of an AsyncToSync starts well, with what the caller sees.
  lemma CallEntered(force: bool, t: Thread, frames: seq<nat>, ctx: Context, w: World)
    requires Ready(Sync(t), frames, ctx, w)
    ensures var x := EnterCall(force, t, frames, ctx, w);
      Ready(Async(x.loop), [|w.executors|] + frames, x.inner, x.world) && Sight(x.inner) == Sight(ctx)
      && x.world.observed == w.observed && x.inner.Keys == x.context.Keys
      && Lookup(x.inner, Sensitive) == Lookup(ctx, Sensitive)
  {
    var x := EnterCall(force, t, frames, ctx, w);
    LoopStarts(t, frames, ctx, w);
    WithExecutorShows(ctx, t, ExecutorRef(|w.executors|));
    CoroutineStarts(t, frames, ctx, w, if x.own then LoopStart(w, x.context) else x.context, x.loop, x.world);
  }

  lemma CoroutineReady(force: bool, t: Thread, frames: seq<nat>, ctx: Context, w: World, x: Entry)
    requires Ready(Sync(t), frames, ctx, w) && x == EnterCall(force, t, frames, ctx, w)
    ensures Ready(Async(x.loop), [|w.executors|] + frames, x.inner, x.world)
  {
    CallEntered(force, t, frames, ctx, w);
  }

  // The loop the call made is gone again, or there was none.
  lemma LoopLeft(force: bool, t: Thread, frames: seq<nat>, ctx: Context, w: World, r: Bridged)
    requires Ready(Sync(t), frames, ctx, w)
    requires var x := EnterCall(force, t, frames, ctx, w);
      Ready(Async(x.loop), [|w.executors|] + frames, r.ctx, r.world) && Framed(x.inner, x.world, r.ctx, r.world)
    ensures var x := EnterCall(force, t, frames, ctx, w);
      var w3 := if x.own then CloseLoop(r.world, x.loop) else r.world;
      Ready(Async(x.loop), [|w.executors|] + frames, r.ctx, w3) && Framed(ctx, w, r.ctx, w3)
      && w3.observed == r.world.observed
  {
    var x := EnterCall(force, t, frames, ctx, w);
    FrameOpened(t, frames, ctx, w, x.loop);
    WithExecutorShows(ctx, t, ExecutorRef(|w.executors|));
    CallEntered(force, t, frames, ctx, w);
    LoopOf(x, t, frames, ctx, w, r);
    FramedTwice(ctx, w, ctx, OpenFrame(w, t, Current(ctx, t), frames, x.loop), r.ctx,
                if x.own then CloseLoop(r.world, x.loop) else r.world);
  }

  lemma LoopOf(x: Entry, t: Thread, frames: seq<nat>, ctx: Context, w: World, r: Bridged)
    requires Ready(Sync(t), frames, ctx, w)
    requires var w1 := OpenFrame(w, t, Current(ctx, t), frames, x.loop);
      x.world == (if x.own then OpenLoop(w1, |w.executors|, LoopStart(w, x.context)) else w1)
      && (x.own ==> x.loop == w.nextLoop) && WorldOk(w1)
    requires x.context == WithExecutor(ctx, t, ExecutorRef(|w.executors|)) && x.inner.Keys == x.context.Keys
    requires Lookup(x.inner, Sensitive) == Lookup(ctx, Sensitive)
    requires Ready(Async(x.loop), [|w.executors|] + frames, r.ctx, r.world) && Framed(x.inner, x.world, r.ctx, r.world)
    ensures var w3 := if x.own then CloseLoop(r.world, x.loop) else r.world;
      Ready(Async(x.loop), [|w.executors|] + frames, r.ctx, w3)
      && Framed(ctx, OpenFrame(w, t, Current(ctx, t), frames, x.loop), r.ctx, w3)
      && w3.observed == r.world.observed
  {
    var w1 := OpenFrame(w, t, Current(ctx, t), frames, x.loop);
    LoopStarts(t, frames, ctx, w);
    WithExecutorShows(ctx, t, ExecutorRef(|w.executors|));
    if x.own {
      LoopClosed(Async(x.loop), [|w.executors|] + frames, x.inner, w1, r.ctx, r.world, |w.executors|,
                 LoopStart(w, x.context));
    }
  }

  // The coroutine of an AsyncToSync did what it does directly; so does the whole call.
  lemma AsyncToSyncMatches(r: Bridged, d: Direct, force: bool, t: Thread, frames: seq<nat>, ctx: Context, w: World)
    requires Ready(Sync(t), frames, ctx, w)
    requires var x := EnterCall(force, t, frames, ctx, w);
      Matches(r, d, Async(x.loop), [|w.executors|] + frames, x.inner, x.world)
    ensures Matches(LeaveCall(EnterCall(force, t, frames, ctx, w), t, ctx, w, r), d, Sync(t), frames, ctx, w)
  {
    var x := EnterCall(force, t, frames, ctx, w);
    WithExecutorShows(ctx, t, ExecutorRef(|w.executors|));
    CallEntered(force, t, frames, ctx, w);
    LoopLeft(force, t, frames, ctx, w, r);
    var w3 := if x.own then CloseLoop(r.world, x.loop) else r.world;
    FrameClosed(t, frames, ctx, w, x.context, r.ctx, w3, x.loop);
  }

  // A match with one direct run is a match with any run that == cannot tell from it.
  lemma MatchesAlike(r: Bridged, d: Direct, d': Direct, at: Place, frames: seq<nat>, ctx: Context, w: World)
    requires Matches(r, d, at, frames, ctx, w) && Alike(d, d')
    ensures Matches(r, d', at, frames, ctx, w)
  {
  }

  lemma FollowsAlike(r: Bridged, d: Direct, d': Direct, at: Place, frames: seq<nat>, ctx: Context, w: World)
    requires Follows(r, d, at, frames, ctx, w) && Alike(d, d')
    ensures Follows(r, d', at, frames, ctx, w)
  {
    if !r.outcome.Waits? {
      MatchesAlike(r, d, d', at, frames, ctx, w);
    }
  }

  lemma {:induction false} CoroutineAgrees(coro: Program, force: bool, input: Value, t: Thread, frames: seq<nat>,
                                           ctx: Context, w: World)
    requires Ready(Sync(t), frames, ctx, w)
    ensures var x := EnterCall(force, t, frames, ctx, w);
      Follows(RunBridged(coro, input, Async(x.loop), [|w.executors|] + frames, x.inner, x.world),
              RunDirect(coro, input, true, View(ctx)), Async(x.loop), [|w.executors|] + frames, x.inner, x.world)
    decreases coro, 2
  {
    CallEntered(force, t, frames, ctx, w);
    var x := EnterCall(force, t, frames, ctx, w);
    BridgeIsTransparent(coro, input, Async(x.loop), [|w.executors|] + frames, x.inner, x.world);
    DirectRespects(coro, input, input, true, View(x.inner), View(ctx));
    FollowsAlike(RunBridged(coro, input, Async(x.loop), [|w.executors|] + frames, x.inner, x.world),
                 RunDirect(coro, input, true, View(x.inner)), RunDirect(coro, input, true, View(ctx)),
                 Async(x.loop), [|w.executors|] + frames, x.inner, x.world);
  }

  lemma {:induction false} AsyncToSyncAgrees(p: Program, input: Value, t: Thread, frames: seq<nat>, ctx: Context,
                                             w: World)
    requires p.AsyncToSync? && Ready(Sync(t), frames, ctx, w)
    ensures Agrees(p, input, Sync(t), frames, ctx, w)
    decreases p, 0, 0
  {
    CoroutineAgrees(p.coro, p.forceNewLoop, input, t, frames, ctx, w);
    CalledAgrees(p, input, t, frames, ctx, w);
  }

  // The call as a whole, once its coroutine is known to follow the direct run.
  lemma CalledAgrees(p: Program, input: Value, t: Thread, frames: seq<nat>, ctx: Context, w: World)
    requires p.AsyncToSync? && Ready(Sync(t), frames, ctx, w)
    requires var x := EnterCall(p.forceNewLoop, t, frames, ctx, w);
      Follows(RunBridged(p.coro, input, Async(x.loop), [|w.executors|] + frames, x.inner, x.world),
              RunDirect(p.coro, input, true, View(ctx)), Async(x.loop), [|w.executors|] + frames, x.inner, x.world)
    ensures Agrees(p, input, Sync(t), frames, ctx, w)
  {
    var x := EnterCall(p.forceNewLoop, t, frames, ctx, w);
    var r := RunBridged(p.coro, input, Async(x.loop), [|w.executors|] + frames, x.inner, x.world);
    var d := RunDirect(p.coro, input, true, View(ctx));
    var whole := CallResult(x, t, frames, ctx, w, r);
    CalledIs(p, input, t, frames, ctx, w);
    if x.own && Occupied(w) {
      OccupiedHalts(t, frames, ctx, w, x.context, d, x.loop);
    } else if r.outcome.Waits? {
      CallLeads(p.forceNewLoop, t, frames, ctx, w);
      HaltsEarlier(r, d, d, w, x.world);
    } else {
      AsyncToSyncMatches(r, d, p.forceNewLoop, t, frames, ctx, w);
    }
    assert Follows(whole, d, Sync(t), frames, ctx, w);
  }

  lemma CalledIs(p: Program, input: Value, t: Thread, frames: seq<nat>, ctx: Context, w: World)
    requires p.AsyncToSync?
    ensures var x := EnterCall(p.forceNewLoop, t, frames, ctx, w);
      RunBridged(p, input, Sync(t), frames, ctx, w) == CallResult(x, t, frames, ctx, w,
        RunBridged(p.coro, input, Async(x.loop), [|w.executors|] + frames, x.inner, x.world))
    ensures RunDirect(p, input, false, View(ctx)) == RunDirect(p.coro, input, true, View(ctx))
  {
    CallUnfolds(p.forceNewLoop, p.coro, input, t, frames, ctx, w);
  }

  lemma CallLeads(force: bool, t: Thread, frames: seq<nat>, ctx: Context, w: World)
    requires Ready(Sync(t), frames, ctx, w)
    ensures Leads(w, EnterCall(force, t, frames, ctx, w).world)
  {
    FrameOpened(t, frames, ctx, w, EnterCall(force, t, frames, ctx, w).loop);
  }

  lemma OccupiedHalts(t: Thread, frames: seq<nat>, ctx: Context, w: World, context: Context, d: Direct, loop: nat)
    requires Ready(Sync(t), frames, ctx, w) && Occupied(w)
    ensures Halts(Bridged(Waits, context, OpenFrame(w, t, Current(ctx, t), frames, loop)), d, w)
  {
    FrameOpened(t, frames, ctx, w, loop);
    assert BlurReads(w.observed) <= BlurReads(w.observed) + BlurReads(d.observed);
  }

  // Two runs one after the other.
  lemma MatchesTwice(r: Bridged, d: Direct, r': Bridged, d': Direct, at: Place, frames: seq<nat>, ctx: Context,
                     w: World)
    requires Matches(r, d, at, frames, ctx, w) && Matches(r', d', at, frames, r.ctx, r.world)
    ensures Matches(r', d'.(observed := d.observed + d'.observed), at, frames, ctx, w)
  {
    FramedTwice(ctx, w, r.ctx, r.world, r'.ctx, r'.world);
    BlurAppend(d.observed, d'.observed);
  }

  // A run that matches, and one after it that comes to wait; or the wait comes first.
  lemma HaltsAfter(r: Bridged, d: Direct, r': Bridged, d': Direct, at: Place, frames: seq<nat>, ctx: Context, w: World)
    requires Matches(r, d, at, frames, ctx, w) && Halts(r', d', r.world)
    ensures Halts(r', d'.(observed := d.observed + d'.observed), w)
  {
    BlurAppend(d.observed, d'.observed);
  }

  lemma HaltsBefore(r: Bridged, d: Direct, more: seq<Read>, w: World)
    requires Halts(r, d, w)
    ensures Halts(r, d.(observed := d.observed + more), w)
  {
    BlurAppend(d.observed, more);
  }

  // What follows a run that matches runs from the direct run's variables as it does from its own.
  lemma {:induction false} NextAgrees(p: Program, input: Value, input': Value, r: Bridged, d: Direct,
                                      at: Place, frames: seq<nat>, ctx: Context, w: World)
    requires Matches(r, d, at, frames, ctx, w) && Equal(input, input')
    requires Agrees(p, input, at, frames, r.ctx, r.world)
    ensures var d' := RunDirect(p, input', at.Async?, d.state);
      Follows(RunBridged(p, input, at, frames, r.ctx, r.world), d'.(observed := d.observed + d'.observed),
              at, frames, ctx, w)
  {
    DirectRespects(p, input, input', at.Async?, View(r.ctx), d.state);
    var r', d' := RunBridged(p, input, at, frames, r.ctx, r.world), RunDirect(p, input', at.Async?, d.state);
    FollowsAlike(r', RunDirect(p, input, at.Async?, View(r.ctx)), d', at, frames, r.ctx, r.world);
    if r'.outcome.Waits? {
      HaltsAfter(r, d, r', d', at, frames, ctx, w);
    } else {
      MatchesTwice(r, d, r', d', at, frames, ctx, w);
    }
  }

  // Of two parts, the first, what follows it, and whether it does.
  predicate InTwoParts(p: Program) {
    p.Then? || p.Try?
  }

  function First(p: Program): (a: Program)
    requires InTwoParts(p)
    ensures a < p
  {
    if p.Then? then p.first else p.body
  }

  function Rest(p: Program): (b: Program)
    requires InTwoParts(p)
    ensures b < p
  {
    if p.Then? then p.second else p.handler
  }

  predicate GoesOn(p: Program, o: Outcome) {
    if p.Then? then o.Gave? else o.Raised?
  }

  function Passed(p: Program, o: Outcome, input: Value): Value {
    if p.Then? && o.Gave? then o.v else input
  }

  lemma RunInTwo(p: Program, input: Value, at: Place, frames: seq<nat>, ctx: Context, w: World)
    requires InTwoParts(p)
    ensures var r := RunBridged(First(p), input, at, frames, ctx, w);
      RunBridged(p, input, at, frames, ctx, w) ==
      if !GoesOn(p, r.outcome) then r
      else RunBridged(Rest(p), Passed(p, r.outcome, input), at, frames, r.ctx, r.world)
  {
  }

  // The first part settles the whole, in one way or the other.
  lemma FirstSettles(p: Program, a: Program, input: Value, at: Place, frames: seq<nat>, ctx: Context, w: World)
    requires (p.Then? && a == p.first) || (p.Try? && a == p.body)
    requires Agrees(a, input, at, frames, ctx, w)
    requires var o := RunBridged(a, input, at, frames, ctx, w).outcome; if p.Then? then o.Raised? else o.Gave?
    ensures Agrees(p, input, at, frames, ctx, w)
  {
    FirstIsAll(p, a, input, at, frames, ctx, w);
  }

  lemma FirstIsAll(p: Program, a: Program, input: Value, at: Place, frames: seq<nat>, ctx: Context, w: World)
    requires (p.Then? && a == p.first) || (p.Try? && a == p.body)
    ensures var o := RunBridged(a, input, at, frames, ctx, w).outcome;
      (if p.Then? then !o.Gave? else !o.Raised?) ==>
        RunBridged(p, input, at, frames, ctx, w) == RunBridged(a, input, at, frames, ctx, w)
    ensures var d := RunDirect(a, input, at.Async?, View(ctx));
      (if p.Then? then !d.outcome.Gave? else !d.outcome.Raised?) ==> RunDirect(p, input, at.Async?, View(ctx)) == d
  {
  }

  lemma FirstWaits(p: Program, a: Program, input: Value, at: Place, frames: seq<nat>, ctx: Context, w: World)
    requires (p.Then? && a == p.first) || (p.Try? && a == p.body)
    requires Agrees(a, input, at, frames, ctx, w)
    requires RunBridged(a, input, at, frames, ctx, w).outcome.Waits?
    ensures Agrees(p, input, at, frames, ctx, w)
  {
    var r, d := RunBridged(a, input, at, frames, ctx, w), RunDirect(a, input, at.Async?, View(ctx));
    var whole := RunDirect(p, input, at.Async?, View(ctx));
    FirstIsAll(p, a, input, at, frames, ctx, w);
    FirstReadsFirst(p, a, input, at.Async?, View(ctx));
    HaltsBefore(r, d, whole.observed[|d.observed|..], w);
    HaltsByReads(r, d.(observed := whole.observed), whole, w);
  }

  lemma HaltsByReads(r: Bridged, d: Direct, d': Direct, w: World)
    requires Halts(r, d, w) && d.observed == d'.observed
    ensures Halts(r, d', w)
  {
  }

  lemma FirstReadsFirst(p: Program, a: Program, input: Value, async: bool, st: Flat)
    requires (p.Then? && a == p.first) || (p.Try? && a == p.body)
    ensures var d, whole := RunDirect(a, input, async, st), RunDirect(p, input, async, st);
      |d.observed| <= |whole.observed| && whole.observed == d.observed + whole.observed[|d.observed|..]
  {
  }

  lemma {:induction false} ThenAgrees(p: Program, input: Value, at: Place, frames: seq<nat>, ctx: Context, w: World)
    requires p.Then? && Ready(at, frames, ctx, w)
    ensures Agrees(p, input, at, frames, ctx, w)
    decreases p, 0, 0
  {
    BridgeIsTransparent(p.first, input, at, frames, ctx, w);
    var r, d := RunBridged(p.first, input, at, frames, ctx, w), RunDirect(p.first, input, at.Async?, View(ctx));
    if r.outcome.Gave? {
      BridgeIsTransparent(p.second, r.outcome.v, at, frames, r.ctx, r.world);
      NextAgrees(p.second, r.outcome.v, d.outcome.v, r, d, at, frames, ctx, w);
      ThenGoesOn(p, input, at, frames, ctx, w, r, d);
    } else if r.outcome.Raised? {
      FirstSettles(p, p.first, input, at, frames, ctx, w);
    } else {
      FirstWaits(p, p.first, input, at, frames, ctx, w);
    }
  }

  lemma ThenGoesOn(p: Program, input: Value, at: Place, frames: seq<nat>, ctx: Context, w: World, r: Bridged, d: Direct)
    requires p.Then? && r.outcome.Gave? && d.outcome.Gave?
    requires r == RunBridged(p.first, input, at, frames, ctx, w) && d == RunDirect(p.first, input, at.Async?, View(ctx))
    requires var d' := RunDirect(p.second, d.outcome.v, at.Async?, d.state);
      Follows(RunBridged(p.second, r.outcome.v, at, frames, r.ctx, r.world), d'.(observed := d.observed + d'.observed),
              at, frames, ctx, w)
    ensures Agrees(p, input, at, frames, ctx, w)
  {
  }

  lemma {:induction false} TryAgrees(p: Program, input: Value, at: Place, frames: seq<nat>, ctx: Context, w: World)
    requires p.Try? && Ready(at, frames, ctx, w)
    ensures Agrees(p, input, at, frames, ctx, w)
    decreases p, 0, 0
  {
    BridgeIsTransparent(p.body, input, at, frames, ctx, w);
    var r, d := RunBridged(p.body, input, at, frames, ctx, w), RunDirect(p.body, input, at.Async?, View(ctx));
    if r.outcome.Raised? {
      BridgeIsTransparent(p.handler, input, at, frames, r.ctx, r.world);
      NextAgrees(p.handler, input, input, r, d, at, frames, ctx, w);
      TryGoesOn(p, input, at, frames, ctx, w, r, d);
    } else if r.outcome.Gave? {
      FirstSettles(p, p.body, input, at, frames, ctx, w);
    } else {
      FirstWaits(p, p.body, input, at, frames, ctx, w);
    }
  }

  lemma TryGoesOn(p: Program, input: Value, at: Place, frames: seq<nat>, ctx: Context, w: World, r: Bridged, d: Direct)
    requires p.Try? && r.outcome.Raised? && d.outcome.Raised?
    requires r == RunBridged(p.body, input, at, frames, ctx, w) && d == RunDirect(p.body, input, at.Async?, View(ctx))
    requires var d' := RunDirect(p.handler, input, at.Async?, d.state);
      Follows(RunBridged(p.handler, input, at, frames, r.ctx, r.world), d'.(observed := d.observed + d'.observed),
              at, frames, ctx, w)
    ensures Agrees(p, input, at, frames, ctx, w)
  {
  }

  lemma TaskMatches(r: Bridged, d: Direct, at: Place, frames: seq<nat>, ctx: Context, w: World)
    requires at.Async? && Ready(at, frames, ctx, w) && Matches(r, d, at, frames, ctx, w)
    ensures Matches(r.(ctx := ctx), d.(state := View(ctx)), at, frames, ctx, w)
  {
    BlockedLater(w.executors, r.world.executors, frames);
  }

  lemma RefusedMatches(e: Error, at: Place, frames: seq<nat>, ctx: Context, w: World)
    requires Ready(at, frames, ctx, w)
    ensures Matches(Bridged(Raised(e), ctx, w), Direct(Raised(e), View(ctx), []), at, frames, ctx, w)
  {
    assert w.observed + [] == w.observed;
  }

  // Bridge transparency: from any state in which the storages carry the running thread's tag,
  // running a program through the bridge gives the same value or exception, the same reads in
  // the same order and the same variables as running it on one thread, up to ==. The visible
  // executor, the loop table and the executors that were there are as before. A run that comes to
  // wait for ever has read the same up to there; BridgeWaits says which runs do.
  lemma {:induction false} BridgeIsTransparent(p: Program, input: Value, at: Place, frames: seq<nat>, ctx: Context,
                                               w: World)
    requires Ready(at, frames, ctx, w)
    ensures Agrees(p, input, at, frames, ctx, w)
    decreases p, 1
  {
    if Leaf(p) {
      LeafAgrees(p, input, at, frames, ctx, w);
    } else if p.Then? || p.Try? || p.If? {
      SequenceAgrees(p, input, at, frames, ctx, w);
    } else {
      CrossingAgrees(p, input, at, frames, ctx, w);
    }
  }

  lemma {:induction false} SequenceAgrees(p: Program, input: Value, at: Place, frames: seq<nat>, ctx: Context, w: World)
    requires p.Then? || p.Try? || p.If?
    requires Ready(at, frames, ctx, w)
    ensures Agrees(p, input, at, frames, ctx, w)
    decreases p, 0, 1
  {
    if p.Then? {
      ThenAgrees(p, input, at, frames, ctx, w);
    } else if p.Try? {
      TryAgrees(p, input, at, frames, ctx, w);
    } else {
      IfAgrees(p, input, at, frames, ctx, w);
    }
  }

  lemma {:induction false} IfAgrees(p: Program, input: Value, at: Place, frames: seq<nat>, ctx: Context, w: World)
    requires p.If? && Ready(at, frames, ctx, w)
    ensures Agrees(p, input, at, frames, ctx, w)
    decreases p, 0, 0
  {
    BridgeIsTransparent(if Equal(input, p.v) then p.yes else p.no, input, at, frames, ctx, w);
  }

  lemma {:induction false} CrossingAgrees(p: Program, input: Value, at: Place, frames: seq<nat>, ctx: Context, w: World)
    requires p.Task? || p.SyncToAsync? || p.AsyncToSync?
    requires Ready(at, frames, ctx, w)
    ensures Agrees(p, input, at, frames, ctx, w)
    decreases p, 0, 1
  {
    if p.Task? {
      TaskAgrees(p, input, at, frames, ctx, w);
    } else if p.SyncToAsync? && at.Async? {
      SyncToAsyncAgrees(p, input, at.loop, frames, ctx, w);
    } else if p.AsyncToSync? && at.Sync? {
      AsyncToSyncAgrees(p, input, at.t, frames, ctx, w);
    } else {
      RefusedMatches(if at.Sync? then NoLoop else LoopRunning, at, frames, ctx, w);
    }
  }

  lemma {:induction false} TaskAgrees(p: Program, input: Value, at: Place, frames: seq<nat>, ctx: Context, w: World)
    requires p.Task? && Ready(at, frames, ctx, w)
    ensures Agrees(p, input, at, frames, ctx, w)
    decreases p, 0, 0
  {
    if at.Async? {
      BridgeIsTransparent(p.coro, input, at, frames, ctx, w);
      var r := RunBridged(p.coro, input, at, frames, ctx, w);
      if !r.outcome.Waits? {
        TaskMatches(r, RunDirect(p.coro, input, true, View(ctx)), at, frames, ctx, w);
      }
    } else {
      RefusedMatches(NoLoop, at, frames, ctx, w);
    }
  }
}
