/**
 * Programs that cross between sync and async code, and two ways to run them.
 *
 * `Direct` runs a program on one thread, with one set of variables and no bridge at all.
 * `Bridged` follows AsyncToSync.__call__, main_wrap, new_loop_wrap, SyncToAsync.__call__ and
 * thread_handler: contexts are copied, moved between threads, re-homed and restored, executors
 * are created, stacked, looked up and broken. BridgeTheorems shows that the two agree.
 */
module Bridge {
  import opened Wrappers
  import opened Contexts

  datatype Error =
    | LookupError                // ContextVar.get without a value
    | AttributeError             // reading or deleting an attribute a Local does not have
    | LoopRunning                // AsyncToSync called on a thread with a running loop
    | NoLoop                     // a coroutine of SyncToAsync, or a task, without a running loop
    | OwnThread                  // CurrentThreadExecutor.submit from its own thread
    | QuitOrBroken               // ... with no executor of the chain running
    | WouldDeadlock              // the single worker is already waiting for this call
    | UserError(n: int)

  datatype Arg = Lit(v: Value) | Input

  // Every program takes an input and gives a value or raises.
  datatype Program =
    | Give(arg: Arg)
    | GetVar(x: nat)
    | SetVar(x: nat, arg: Arg)
    | GetLocal(l: nat, attr: string)
    | SetLocal(l: nat, attr: string, arg: Arg)
    | DelLocal(l: nat, attr: string)
    | Then(first: Program, second: Program)            // the second takes what the first gives
    | If(v: Value, yes: Program, no: Program)          // input == v
    | Throw(error: Error)
    | Try(body: Program, handler: Program)
    | SyncToAsync(sensitive: bool, sync: Program)      // await sync_to_async(f)(input)
    | AsyncToSync(forceNewLoop: bool, coro: Program)   // async_to_sync(f)(input)
    | Task(coro: Program)                              // await create_task(f(input))

  // `Waits`: the run has come to a call that waits for a thread occupied by what waits for the
  // call. It never returns, and nothing after it happens.
  datatype Outcome = Gave(v: Value) | Raised(error: Error) | Waits

  datatype Read = VarRead(x: nat, found: Option<Value>) | LocalRead(l: nat, attr: string, found: Option<Value>)

  function Eval(arg: Arg, input: Value): Value {
    match arg case Lit(v) => v case Input => input
  }

  function OrRaise(found: Option<Value>, e: Error): Outcome {
    match found case Some(v) => Gave(v) case None => Raised(e)
  }

  // ---------------------------------------------------------------------------------------
  // On one thread
  // ---------------------------------------------------------------------------------------

  // The user's context variables, and the attributes of the user's Locals.
  datatype Flat = Flat(vars: map<Key, Value>, locals: map<Key, Data>)

  datatype Direct = Direct(outcome: Outcome, state: Flat, observed: seq<Read>)

  function AttributesOf(st: Flat, l: nat): Data {
    if LocalVar(l) in st.locals then st.locals[LocalVar(l)] else map[]
  }

  function Lookup<K, V>(m: map<K, V>, k: K): Option<V> {
    if k in m then Some(m[k]) else None
  }

  function RunDirect(p: Program, input: Value, async: bool, st: Flat): Direct {
    match p
    case Give(arg) => Direct(Gave(Eval(arg, input)), st, [])
    case GetVar(x) =>
      var found := Lookup(st.vars, User(x));
      Direct(OrRaise(found, LookupError), st, [VarRead(x, found)])
    case SetVar(x, arg) => Direct(Gave(Nothing), st.(vars := st.vars[User(x) := Eval(arg, input)]), [])
    case GetLocal(l, attr) =>
      var found := Lookup(AttributesOf(st, l), attr);
      Direct(OrRaise(found, AttributeError), st, [LocalRead(l, attr, found)])
    case SetLocal(l, attr, arg) =>
      Direct(Gave(Nothing),
             st.(locals := st.locals[LocalVar(l) := AttributesOf(st, l)[attr := Eval(arg, input)]]), [])
    case DelLocal(l, attr) =>
      if attr in AttributesOf(st, l)
      then Direct(Gave(Nothing), st.(locals := st.locals[LocalVar(l) := AttributesOf(st, l) - {attr}]), [])
      else Direct(Raised(AttributeError), st, [])
    case Then(a, b) =>
      var r := RunDirect(a, input, async, st);
      if !r.outcome.Gave? then r
      else
        var r' := RunDirect(b, r.outcome.v, async, r.state);
        r'.(observed := r.observed + r'.observed)
    case If(v, a, b) => if Equal(input, v) then RunDirect(a, input, async, st) else RunDirect(b, input, async, st)
    case Throw(e) => Direct(Raised(e), st, [])
    case Try(a, b) =>
      var r := RunDirect(a, input, async, st);
      if !r.outcome.Raised? then r
      else
        var r' := RunDirect(b, input, async, r.state);
        r'.(observed := r.observed + r'.observed)
    case SyncToAsync(_, a) =>
      if async then RunDirect(a, input, false, st) else Direct(Raised(NoLoop), st, [])
    case AsyncToSync(_, a) =>
      if async then Direct(Raised(LoopRunning), st, []) else RunDirect(a, input, true, st)
    case Task(a) =>
      // sees everything, changes nothing
      if async then RunDirect(a, input, true, st).(state := st) else Direct(Raised(NoLoop), st, [])
  }

  // ---------------------------------------------------------------------------------------
  // Through the bridge
  // ---------------------------------------------------------------------------------------

  datatype Executor = Executor(thread: Thread, parent: Option<nat>, broken: bool)

  // What is written down about a run: which executor was created on top of which and which loop
  // the coroutine of its call runs on, and where sync code ran.
  // `frames` are the enclosing AsyncToSync calls by program text, innermost first, `blocked` is
  // the closest of them that has not returned, and `waiting` are the threads of all that have not.
  datatype Event =
    | Called(executor: nat, frames: seq<nat>, loop: nat)
    | Ran(sensitive: bool, thread: Thread, blocked: Option<nat>, waiting: set<Thread>, context: Option<Cell>)

  // Where AsyncToSync runs a loop of its own: in a new thread for each call or, inside an
  // AsyncSingleThreadContext, in one thread that the first such call starts. `base` is what that
  // thread's context was when it started; every loop in it starts from a copy.
  datatype Workers = PerCall | SharedNext | Shared(base: Context)

  datatype World = World(
    executors: seq<Executor>,
    loopExecutors: map<nat, nat>,      // AsyncToSync.loop_thread_executors
    running: set<nat>,                 // loops that accept call_soon_threadsafe
    mainLoop: map<Thread, nat>,        // SyncToAsync.threadlocal.main_event_loop
    nextLoop: nat,
    nextWorker: nat,
    inherit: bool,                     // sys.flags.thread_inherit_context
    workers: Workers,
    observed: seq<Read>,
    events: seq<Event>
  )

  // Where code runs: on a thread without a loop, or inside a loop.
  datatype Place = Sync(t: Thread) | Async(loop: nat) {
    function Thread(): Thread {
      match this case Sync(t) => t case Async(n) => LoopWorker(n)
    }
  }

  datatype Bridged = Bridged(outcome: Outcome, ctx: Context, world: World)

  predicate Chained(xs: seq<Executor>) {
    forall e | 0 <= e < |xs| && xs[e].parent.Some? :: xs[e].parent.value < e
  }

  // Where `submit` on `e` ends up (see ExecutorTheorems.SubmitIsLinearizable).
  function FirstRunning(xs: seq<Executor>, e: nat): (first: Option<nat>)
    ensures first.Some? ==> first.value < |xs| && !xs[first.value].broken
    decreases e
  {
    if e >= |xs| then None
    else if !xs[e].broken then Some(e)
    else if xs[e].parent.None? || xs[e].parent.value >= e then None
    else FirstRunning(xs, xs[e].parent.value)
  }

  // The first of these frames that has not returned.
  function FirstBlocked(xs: seq<Executor>, frames: seq<nat>): Option<nat> {
    if frames == [] then None
    else if frames[0] < |xs| && !xs[frames[0]].broken then Some(frames[0])
    else FirstBlocked(xs, frames[1..])
  }

  // The threads that wait in these frames. On the way to async code every thread that runs sync
  // code has made such a call.
  function BlockedThreads(xs: seq<Executor>, frames: seq<nat>): set<Thread> {
    set f | f in frames && f < |xs| && !xs[f].broken :: xs[f].thread
  }

  // getattr(AsyncToSync.executors, "current", None)
  function Current(ctx: Context, t: Thread): Value {
    var found := GetAttr(ctx, Executors, t, "current");
    if found.Some? then found.value else Nothing
  }

  function IsSet(ctx: Context, key: Key): bool {
    key in ctx && ctx[key].Plain? && Equal(ctx[key].value, Flag(true))
  }

  // CurrentThreadExecutor.submit, called on the thread of the loop.
  function SubmitTo(w: World, e: nat, caller: Thread): Result<Choice, Error> {
    if e >= |w.executors| then Failure(QuitOrBroken)
    else if w.executors[e].thread == caller then Failure(OwnThread)
    else match FirstRunning(w.executors, e)
      case None => Failure(QuitOrBroken)
      case Some(h) => Success(Choice(w.executors[h].thread, false))
  }

  // A thread for the sync code, and whether taking it is recorded in deadlock_context.
  datatype Choice = Choice(thread: Thread, marks: bool)

  // The choice of a thread in SyncToAsync.__call__.
  function ChooseThread(sensitive: bool, loop: nat, ctx: Context, w: World): Result<Choice, Error> {
    var current := Current(ctx, LoopWorker(loop));
    if !sensitive then Success(Choice(PoolWorker(w.nextWorker), false))
    else if current.ExecutorRef? then SubmitTo(w, current.id, LoopWorker(loop))
    else if Sensitive in ctx && ctx[Sensitive].Plain? && ctx[Sensitive].value.Int? && ctx[Sensitive].value.n >= 0
      then Success(Choice(ContextWorker(ctx[Sensitive].value.n), false))
    else if loop in w.loopExecutors then SubmitTo(w, w.loopExecutors[loop], LoopWorker(loop))
    else if IsSet(ctx, Deadlock) then Failure(WouldDeadlock)
    else Success(Choice(SingleWorker, true))
  }

  function Marked(ctx: Context, choice: Choice): Context {
    if choice.marks then ctx[Deadlock := Plain(Flag(true))] else ctx
  }

  function RanOn(w: World, sensitive: bool, t: Thread, ctx: Context, frames: seq<nat>): Event {
    Ran(sensitive, t, FirstBlocked(w.executors, frames), BlockedThreads(w.executors, frames), Lookup(ctx, Sensitive))
  }

  // thread_handler, before it runs the function.
  function Hand(w: World, sensitive: bool, t: Thread, loop: nat, ctx: Context, frames: seq<nat>): World {
    w.(mainLoop := w.mainLoop[t := loop],
       nextWorker := if sensitive then w.nextWorker else w.nextWorker + 1,
       events := w.events + [RanOn(w, sensitive, t, ctx, frames)])
  }

  // The loop an AsyncToSync call on thread `t` is handed to, if it does not make its own.
  function ParentLoop(force: bool, t: Thread, w: World): Option<nat> {
    if !force && t in w.mainLoop && w.mainLoop[t] in w.running then Some(w.mainLoop[t]) else None
  }

  // A new executor for the frame, on top of the visible one.
  function OpenFrame(w: World, t: Thread, current: Value, frames: seq<nat>, loop: nat): World {
    var parent := if current.ExecutorRef? then Some(current.id) else None;
    w.(executors := w.executors + [Executor(t, parent, false)],
       events := w.events + [Called(|w.executors|, frames, loop)])
  }

  // The context of the thread in which the call runs its own loop. A new thread starts empty
  // unless threads inherit contexts.
  function LoopStart(w: World, context: Context): Context {
    match w.workers
    case Shared(base) => base
    case _ => if w.inherit then context else map[]
  }

  // The one thread of an AsyncSingleThreadContext already runs a loop. A call that needs that
  // thread waits for the loop, whose coroutine waits for the call.
  predicate Occupied(w: World) {
    !w.workers.PerCall? && w.loopExecutors != map[]
  }

  // asyncio.run(new_loop_wrap()) up to the await, in a thread whose context is `start` ...
  function OpenLoop(w: World, e: nat, start: Context): World {
    w.(nextLoop := w.nextLoop + 1, running := w.running + {w.nextLoop},
       loopExecutors := w.loopExecutors[w.nextLoop := e],
       workers := if w.workers.SharedNext? then Shared(start) else w.workers)
  }

  // ... and after it.
  function CloseLoop(w: World, loop: nat): World {
    w.(running := w.running - {loop}, loopExecutors := w.loopExecutors - {loop})
  }

  // The awaited future is done and its callback has run.
  function CloseFrame(w: World, e: nat): World {
    if e < |w.executors| then w.(executors := w.executors[e := w.executors[e].(broken := true)]) else w
  }

  // An AsyncToSync call up to the first step of its coroutine: whether it makes its own loop,
  // the context it copied, and the context and world the coroutine starts with.
  datatype Entry = Entry(own: bool, loop: nat, context: Context, inner: Context, world: World)

  function EnterCall(force: bool, t: Thread, frames: seq<nat>, ctx: Context, w: World): Entry {
    var e, parent := |w.executors|, ParentLoop(force, t, w);
    var own := parent.None?;
    var loop := if own then w.nextLoop else parent.value;
    var context := SetAttr(ctx, Executors, t, "current", ExecutorRef(e));
    var w1 := OpenFrame(w, t, Current(ctx, t), frames, loop);
    // On the parent's loop, call_soon_threadsafe and create_task both copy the context.
    var start := if own then LoopStart(w, context) else context;
    Entry(own, loop, context, Restored(start, context, LoopWorker(loop)), if own then OpenLoop(w1, e, start) else w1)
  }

  // The same call once its coroutine is through, normally or not.
  function LeaveCall(x: Entry, t: Thread, ctx: Context, w: World, r: Bridged): Bridged {
    Bridged(r.outcome, SetAttr(Restored(x.context, r.ctx, t), Executors, t, "current", Current(ctx, t)),
            CloseFrame(if x.own then CloseLoop(r.world, x.loop) else r.world, |w.executors|))
  }

  // What comes of the call, given what its coroutine comes to if it gets to run.
  function CallResult(x: Entry, t: Thread, frames: seq<nat>, ctx: Context, w: World, r: Bridged): Bridged {
    if x.own && Occupied(w) then Bridged(Waits, x.context, OpenFrame(w, t, Current(ctx, t), frames, x.loop))
    else if r.outcome.Waits? then r
    else LeaveCall(x, t, ctx, w, r)
  }

  // What comes of a SyncToAsync call, given what its sync code comes to.
  function HandResult(choice: Choice, loop: nat, ctx: Context, r: Bridged): Bridged {
    if r.outcome.Waits? then r
    else
      Bridged(r.outcome, Restored(Marked(ctx, choice), r.ctx, LoopWorker(loop))[Deadlock := Plain(Flag(false))],
              r.world)
  }

  function RunBridged(p: Program, input: Value, at: Place, frames: seq<nat>, ctx: Context, w: World): Bridged
    decreases p, 0
  {
    match p
    case Give(arg) => Bridged(Gave(Eval(arg, input)), ctx, w)
    case GetVar(x) =>
      var found := if User(x) in ctx && ctx[User(x)].Plain? then Some(ctx[User(x)].value) else None;
      Bridged(OrRaise(found, LookupError), ctx, w.(observed := w.observed + [VarRead(x, found)]))
    case SetVar(x, arg) => Bridged(Gave(Nothing), ctx[User(x) := Plain(Eval(arg, input))], w)
    case GetLocal(l, attr) =>
      var found := GetAttr(ctx, LocalVar(l), at.Thread(), attr);
      Bridged(OrRaise(found, AttributeError), ctx, w.(observed := w.observed + [LocalRead(l, attr, found)]))
    case SetLocal(l, attr, arg) =>
      Bridged(Gave(Nothing), SetAttr(ctx, LocalVar(l), at.Thread(), attr, Eval(arg, input)), w)
    case DelLocal(l, attr) =>
      (match DelAttr(ctx, LocalVar(l), at.Thread(), attr)
       case Some(ctx') => Bridged(Gave(Nothing), ctx', w)
       case None => Bridged(Raised(AttributeError), ctx, w))
    case Then(a, b) =>
      var r := RunBridged(a, input, at, frames, ctx, w);
      if !r.outcome.Gave? then r else RunBridged(b, r.outcome.v, at, frames, r.ctx, r.world)
    case If(v, a, b) =>
      if Equal(input, v) then RunBridged(a, input, at, frames, ctx, w) else RunBridged(b, input, at, frames, ctx, w)
    case Throw(e) => Bridged(Raised(e), ctx, w)
    case Try(a, b) =>
      var r := RunBridged(a, input, at, frames, ctx, w);
      if !r.outcome.Raised? then r else RunBridged(b, input, at, frames, r.ctx, r.world)
    case Task(a) =>
      // a task runs in a copy of the context; its changes stay there
      if at.Sync? then Bridged(Raised(NoLoop), ctx, w)
      else
        var r := RunBridged(a, input, at, frames, ctx, w);
        if r.outcome.Waits? then r else r.(ctx := ctx)
    case SyncToAsync(sensitive, a) =>
      (match at
       case Sync(_) => Bridged(Raised(NoLoop), ctx, w)
       case Async(loop) => RunHanded(a, sensitive, input, loop, frames, ctx, w))
    case AsyncToSync(force, a) =>
      (match at
       case Async(_) => Bridged(Raised(LoopRunning), ctx, w)
       case Sync(t) => RunCalled(a, force, input, t, frames, ctx, w))
  }

  // SyncToAsync.__call__ on a running loop.
  function RunHanded(sync: Program, sensitive: bool, input: Value, loop: nat, frames: seq<nat>, ctx: Context,
                     w: World): Bridged
    decreases sync, 1
  {
    match ChooseThread(sensitive, loop, ctx, w)
    case Failure(e) => Bridged(Raised(e), ctx, w)
    case Success(choice) =>
      var t, context := choice.thread, Marked(ctx, choice);
      var r := RunBridged(sync, input, Sync(t), frames, Restored(context, context, t),
                          Hand(w, sensitive, t, loop, ctx, frames));
      HandResult(choice, loop, ctx, r)
  }

  // AsyncToSync.__call__ on a thread without one.
  function RunCalled(coro: Program, force: bool, input: Value, t: Thread, frames: seq<nat>, ctx: Context,
                     w: World): Bridged
    decreases coro, 1
  {
    var x := EnterCall(force, t, frames, ctx, w);
    CallResult(x, t, frames, ctx, w,
               RunBridged(coro, input, Async(x.loop), [|w.executors|] + frames, x.inner, x.world))
  }

  // The calls, taken apart one step.
  lemma CallUnfolds(force: bool, coro: Program, input: Value, t: Thread, frames: seq<nat>, ctx: Context, w: World)
    ensures RunBridged(AsyncToSync(force, coro), input, Sync(t), frames, ctx, w) ==
      RunCalled(coro, force, input, t, frames, ctx, w)
  {
  }

  lemma HandUnfolds(sensitive: bool, sync: Program, input: Value, loop: nat, frames: seq<nat>, ctx: Context, w: World)
    ensures RunBridged(SyncToAsync(sensitive, sync), input, Async(loop), frames, ctx, w) ==
      RunHanded(sync, sensitive, input, loop, frames, ctx, w)
  {
  }
}
