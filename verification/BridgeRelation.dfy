// What holds wherever code runs, and what it means that a run through the bridge does what the
// direct run does.
module BridgeRelation {
  import opened Wrappers
  import opened Contexts
  import opened Bridge
  import opened UpToEquality

  // What the user sees in a context whose storages belong to the running thread.
  function View(ctx: Context): Flat {
    Flat(map key | key in ctx && key.User? && ctx[key].Plain? :: VarAt(ctx, key),
         map key | key in ctx && key.LocalVar? && ctx[key].Storage? :: LocalAt(ctx, key))
  }

  function VarAt(ctx: Context, key: Key): Value {
    if key in ctx && key.User? && ctx[key].Plain? then ctx[key].value else Nothing
  }

  function LocalAt(ctx: Context, key: Key): Data {
    if key in ctx && key.LocalVar? && ctx[key].Storage? then ctx[key].data else map[]
  }

  // The same as far as == goes.
  function Sight(ctx: Context): Flat {
    BlurFlat(View(ctx))
  }

  // A ThreadSensitiveContext is equal to itself alone.
  predicate Typed(ctx: Context) {
    forall key | key in ctx ::
      && (key.User? || key.Deadlock? || key.Sensitive? ==> ctx[key].Plain?)
      && (key.LocalVar? || key.Executors? ==> ctx[key].Storage?)
      && (key.Sensitive? ==> ctx[key].value.Int? || ctx[key].value.Nothing?)
  }

  // Each frame's executor was created on top of the next one's.
  predicate Stack(xs: seq<Executor>, frames: seq<nat>) {
    frames == []
    || (frames[0] < |xs|
        && xs[frames[0]].parent == (if |frames| == 1 then None else Some(frames[1]))
        && Stack(xs, frames[1..]))
  }

  function Top(frames: seq<nat>): Value {
    if frames == [] then Nothing else ExecutorRef(frames[0])
  }

  predicate WorldOk(w: World) {
    && Chained(w.executors)
    && (forall e | 0 <= e < |w.executors| :: HostOk(w.executors[e].thread, w))
    && (forall l | l in w.loopExecutors :: l < w.nextLoop)
    && (forall l | l in w.running :: l < w.nextLoop)
  }

  // Sync code runs on no loop's thread, and on a pool's only after the pool gave it out.
  predicate HostOk(t: Thread, w: World) {
    !t.LoopWorker? && (t.PoolWorker? ==> t.n < w.nextWorker)
  }

  // What a shared worker thread's context holds is in the context at hand. One that starts with
  // what the first caller has is started by the next call.
  predicate WorkersOk(at: Place, frames: seq<nat>, ctx: Context, w: World) {
    match w.workers
    case PerCall => true
    case SharedNext => w.inherit ==> at.Sync? && frames == [] && w.running == {}
    case Shared(base) => Typed(base) && base.Keys <= ctx.Keys + {Executors}
  }

  // Storages carry the running thread's tag, the visible executor is the innermost frame's, and
  // async code has a frame to go back to or is free to take the single worker.
  predicate Ready(at: Place, frames: seq<nat>, ctx: Context, w: World) {
    && Tagged(ctx, at.Thread()) && Typed(ctx) && WorldOk(w) && WorkersOk(at, frames, ctx, w)
    && Stack(w.executors, frames) && Current(ctx, at.Thread()) == Top(frames)
    && (at.Sync? ==> HostOk(at.t, w))
    && (at.Async? && frames != [] ==> FirstBlocked(w.executors, frames).Some?)
    && (at.Async? && frames == [] ==> !IsSet(ctx, Deadlock) && at.loop !in w.loopExecutors)
  }

  predicate Grows(xs: seq<Executor>, ys: seq<Executor>) {
    |xs| <= |ys| && forall e | 0 <= e < |xs| :: xs[e].thread == ys[e].thread && xs[e].parent == ys[e].parent
  }

  // The worker for sync code that no AsyncToSync frame waits for.
  function Worker(context: Option<Cell>): Thread {
    match context
    case Some(Plain(Int(n))) => if n >= 0 then ContextWorker(n) else SingleWorker
    case _ => SingleWorker
  }

  // An executor's chain is the frames around its call; sensitive code runs on the thread of the
  // closest frame that is still blocked, or else on the worker; and no code is sent to a thread
  // that waits, unless it waits in that closest frame and so serves what is sent to it.
  predicate GoodEvent(xs: seq<Executor>, ev: Event) {
    match ev
    case Called(e, frames, _) => Stack(xs, [e] + frames)
    case Ran(sensitive, thread, blocked, waiting, context) =>
      var closest := blocked.Some? && blocked.value < |xs| && thread == xs[blocked.value].thread;
      && (sensitive ==> if blocked.Some? then closest else thread == Worker(context))
      && (thread in waiting ==> closest)
  }

  predicate GoodEvents(xs: seq<Executor>, events: seq<Event>) {
    forall k | 0 <= k < |events| :: GoodEvent(xs, events[k])
  }

  // A shared worker thread is started at most once, and empty unless threads inherit.
  predicate WorkersGrow(w: World, w': World) {
    || w'.workers == w.workers
    || (w.workers.SharedNext? && w'.workers.Shared? && (!w.inherit ==> w'.workers.base == map[]))
  }

  // What a run leaves alone: the executors that were there, the loop table, the variables set.
  predicate Framed(ctx: Context, w: World, ctx': Context, w': World) {
    && ctx.Keys <= ctx'.Keys
    && Lookup(ctx, Sensitive) == Lookup(ctx', Sensitive)
    && w.executors <= w'.executors
    && w.loopExecutors == w'.loopExecutors
    && w.running == w'.running
    && w.nextLoop <= w'.nextLoop && w.nextWorker <= w'.nextWorker
    && w.inherit == w'.inherit && WorkersGrow(w, w')
    && w.observed <= w'.observed
    && w.events <= w'.events
    && (GoodEvents(w.executors, w.events) ==> GoodEvents(w'.executors, w'.events))
  }

  // A run through the bridge that started in `ctx` and `w` did what the direct run did.
  predicate Matches(r: Bridged, d: Direct, at: Place, frames: seq<nat>, ctx: Context, w: World) {
    && BlurOutcome(r.outcome) == BlurOutcome(d.outcome)
    && Sight(r.ctx) == BlurFlat(d.state)
    && BlurReads(r.world.observed) == BlurReads(w.observed) + BlurReads(d.observed)
    && Ready(at, frames, r.ctx, r.world)
    && Framed(ctx, w, r.ctx, r.world)
  }

  // A run that came to wait for ever has read what the direct run reads, up to there. It takes a
  // shared worker thread.
  predicate Halts(r: Bridged, d: Direct, w: World) {
    && !w.workers.PerCall?
    && w.executors <= r.world.executors && Chained(r.world.executors)
    && w.events <= r.world.events
    && (GoodEvents(w.executors, w.events) ==> GoodEvents(r.world.executors, r.world.events))
    && BlurReads(r.world.observed) <= BlurReads(w.observed) + BlurReads(d.observed)
  }

  predicate Follows(r: Bridged, d: Direct, at: Place, frames: seq<nat>, ctx: Context, w: World) {
    if r.outcome.Waits? then Halts(r, d, w) else Matches(r, d, at, frames, ctx, w)
  }

  predicate Agrees(p: Program, input: Value, at: Place, frames: seq<nat>, ctx: Context, w: World) {
    Follows(RunBridged(p, input, at, frames, ctx, w), RunDirect(p, input, at.Async?, View(ctx)), at, frames, ctx, w)
  }
}
