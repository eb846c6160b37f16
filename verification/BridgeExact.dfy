/**
 * When the bridge gives the very values a direct run gives, and not only equal ones: exactly when
 * == tells all values in use apart.
 */
module BridgeExact {
  import opened Wrappers
  import opened Contexts
  import opened Bridge
  import opened UpToEquality
  import opened BridgeRelation
  import opened BridgeTheorems
  import opened BridgeResults

  // Values that are equal only to themselves among the values in use.
  ghost predicate ToldApart(use: iset<Value>) {
    forall a, b | a in use && b in use && Equal(a, b) :: a == b
  }

  ghost predicate ArgIn(use: iset<Value>, arg: Arg) {
    arg.Lit? ==> arg.v in use
  }

  // All the values the program brings along.
  ghost predicate LiteralsIn(use: iset<Value>, p: Program) {
    match p
    case Give(arg) => ArgIn(use, arg)
    case SetVar(_, arg) => ArgIn(use, arg)
    case SetLocal(_, _, arg) => ArgIn(use, arg)
    case Then(a, b) => LiteralsIn(use, a) && LiteralsIn(use, b)
    case If(_, a, b) => LiteralsIn(use, a) && LiteralsIn(use, b)
    case Try(a, b) => LiteralsIn(use, a) && LiteralsIn(use, b)
    case SyncToAsync(_, a) => LiteralsIn(use, a)
    case AsyncToSync(_, a) => LiteralsIn(use, a)
    case Task(a) => LiteralsIn(use, a)
    case _ => true
  }

  ghost predicate DataIn(use: iset<Value>, d: Data) {
    forall attr | attr in d :: d[attr] in use
  }

  ghost predicate CellIn(use: iset<Value>, key: Key, c: Cell) {
    && (key.User? && c.Plain? ==> c.value in use)
    && (key.LocalVar? && c.Storage? ==> DataIn(use, c.data))
  }

  ghost predicate ContextIn(use: iset<Value>, ctx: Context) {
    forall key | key in ctx :: CellIn(use, key, ctx[key])
  }

  ghost predicate WorkersIn(use: iset<Value>, w: World) {
    w.workers.Shared? ==> ContextIn(use, w.workers.base)
  }

  ghost predicate ReadIn(use: iset<Value>, read: Read) {
    read.found.Some? ==> read.found.value in use
  }

  ghost predicate ReadsIn(use: iset<Value>, found: seq<Read>) {
    forall i | 0 <= i < |found| :: ReadIn(use, found[i])
  }

  ghost predicate OutcomeIn(use: iset<Value>, o: Outcome) {
    o.Gave? ==> o.v in use
  }

  ghost predicate FlatIn(use: iset<Value>, st: Flat) {
    && (forall key | key in st.vars :: st.vars[key] in use)
    && (forall key | key in st.locals :: DataIn(use, st.locals[key]))
  }

  // ---------------------------------------------------------------------------------------
  // Values only travel
  // ---------------------------------------------------------------------------------------

  ghost predicate DirectIn(use: iset<Value>, d: Direct) {
    OutcomeIn(use, d.outcome) && FlatIn(use, d.state) && ReadsIn(use, d.observed)
  }

  lemma {:induction false} DirectStays(use: iset<Value>, p: Program, input: Value, async: bool, st: Flat)
    requires LiteralsIn(use, p) && input in use && Nothing in use && FlatIn(use, st)
    ensures DirectIn(use, RunDirect(p, input, async, st))
    decreases p, 1
  {
    match p
    case Then(_, _) => TwoDirectStay(use, p, input, async, st);
    case Try(_, _) => TwoDirectStay(use, p, input, async, st);
    case If(v, a, b) => DirectStays(use, if Equal(input, v) then a else b, input, async, st);
    case SyncToAsync(_, a) =>
      if async {
        DirectStays(use, a, input, false, st);
      }
    case AsyncToSync(_, a) =>
      if !async {
        DirectStays(use, a, input, true, st);
      }
    case Task(a) =>
      if async {
        DirectStays(use, a, input, true, st);
      }
    case _ => DirectLeafStays(use, p, input, async, st);
  }

  lemma DirectLeafStays(use: iset<Value>, p: Program, input: Value, async: bool, st: Flat)
    requires Leaf(p) && LiteralsIn(use, p) && input in use && Nothing in use && FlatIn(use, st)
    ensures DirectIn(use, RunDirect(p, input, async, st))
  {
    if p.SetLocal? || p.DelLocal? || p.GetLocal? {
      assert DataIn(use, AttributesOf(st, p.l));
    }
  }

  lemma {:induction false} TwoDirectStay(use: iset<Value>, p: Program, input: Value, async: bool, st: Flat)
    requires p.Then? || p.Try?
    requires LiteralsIn(use, p) && input in use && Nothing in use && FlatIn(use, st)
    ensures DirectIn(use, RunDirect(p, input, async, st))
    decreases p, 0
  {
    var a := if p.Then? then p.first else p.body;
    DirectStays(use, a, input, async, st);
    var d := RunDirect(a, input, async, st);
    if p.Then? && d.outcome.Gave? {
      DirectStays(use, p.second, d.outcome.v, async, d.state);
    } else if p.Try? && d.outcome.Raised? {
      DirectStays(use, p.handler, input, async, d.state);
    }
  }

  ghost predicate StateIn(use: iset<Value>, ctx: Context, w: World) {
    ContextIn(use, ctx) && WorkersIn(use, w) && ReadsIn(use, w.observed)
  }

  ghost predicate BridgedIn(use: iset<Value>, r: Bridged) {
    OutcomeIn(use, r.outcome) && StateIn(use, r.ctx, r.world)
  }

  lemma RestoredIn(use: iset<Value>, current: Context, source: Context, t: Thread)
    requires ContextIn(use, current) && ContextIn(use, source)
    ensures ContextIn(use, Restored(current, source, t))
  {
    forall key | key in Restored(current, source, t) ensures CellIn(use, key, Restored(current, source, t)[key]) {
      assert key in source ==> CellIn(use, key, source[key]);
      assert key in current ==> CellIn(use, key, current[key]);
    }
  }

  lemma {:induction false} BridgedStays(use: iset<Value>, p: Program, input: Value, at: Place, frames: seq<nat>,
                                        ctx: Context, w: World)
    requires LiteralsIn(use, p) && input in use && Nothing in use && StateIn(use, ctx, w)
    ensures BridgedIn(use, RunBridged(p, input, at, frames, ctx, w))
    decreases p, 1
  {
    match p
    case Then(_, _) => TwoBridgedStay(use, p, input, at, frames, ctx, w);
    case Try(_, _) => TwoBridgedStay(use, p, input, at, frames, ctx, w);
    case If(v, a, b) => BridgedStays(use, if Equal(input, v) then a else b, input, at, frames, ctx, w);
    case SyncToAsync(_, _) =>
      if at.Async? {
        HandedStays(use, p, input, at.loop, frames, ctx, w);
      }
    case AsyncToSync(_, _) =>
      if at.Sync? {
        CalledStays(use, p, input, at.t, frames, ctx, w);
      }
    case Task(a) =>
      if at.Async? {
        BridgedStays(use, a, input, at, frames, ctx, w);
      }
    case _ => BridgedLeafStays(use, p, input, at, frames, ctx, w);
  }

  lemma BridgedLeafStays(use: iset<Value>, p: Program, input: Value, at: Place, frames: seq<nat>, ctx: Context,
                         w: World)
    requires Leaf(p) && LiteralsIn(use, p) && input in use && Nothing in use && StateIn(use, ctx, w)
    ensures BridgedIn(use, RunBridged(p, input, at, frames, ctx, w))
  {
    if p.SetLocal? || p.DelLocal? || p.GetLocal? {
      AttributesIn(use, ctx, LocalVar(p.l), at.Thread());
    }
  }

  lemma AttributesIn(use: iset<Value>, ctx: Context, key: Key, t: Thread)
    requires ContextIn(use, ctx) && key.LocalVar?
    ensures DataIn(use, Attributes(ctx, key, t))
  {
    assert key in ctx ==> CellIn(use, key, ctx[key]);
  }

  lemma {:induction false} TwoBridgedStay(use: iset<Value>, p: Program, input: Value, at: Place, frames: seq<nat>,
                                          ctx: Context, w: World)
    requires p.Then? || p.Try?
    requires LiteralsIn(use, p) && input in use && Nothing in use && StateIn(use, ctx, w)
    ensures BridgedIn(use, RunBridged(p, input, at, frames, ctx, w))
    decreases p, 0
  {
    var a := if p.Then? then p.first else p.body;
    BridgedStays(use, a, input, at, frames, ctx, w);
    var r := RunBridged(a, input, at, frames, ctx, w);
    if p.Then? && r.outcome.Gave? {
      BridgedStays(use, p.second, r.outcome.v, at, frames, r.ctx, r.world);
    } else if p.Try? && r.outcome.Raised? {
      BridgedStays(use, p.handler, input, at, frames, r.ctx, r.world);
    }
  }

  lemma {:induction false} HandedStays(use: iset<Value>, p: Program, input: Value, loop: nat, frames: seq<nat>,
                                       ctx: Context, w: World)
    requires p.SyncToAsync?
    requires LiteralsIn(use, p) && input in use && Nothing in use && StateIn(use, ctx, w)
    ensures BridgedIn(use, RunBridged(p, input, Async(loop), frames, ctx, w))
    decreases p, 0
  {
    var chosen := ChooseThread(p.sensitive, loop, ctx, w);
    HandUnfolds(p.sensitive, p.sync, input, loop, frames, ctx, w);
    if chosen.Success? {
      var t, context := chosen.value.thread, Marked(ctx, chosen.value);
      RestoredIn(use, context, context, t);
      var worker, w1 := Restored(context, context, t), Hand(w, p.sensitive, t, loop, ctx, frames);
      BridgedStays(use, p.sync, input, Sync(t), frames, worker, w1);
      var r := RunBridged(p.sync, input, Sync(t), frames, worker, w1);
      RestoredIn(use, context, r.ctx, LoopWorker(loop));
      assert BridgedIn(use, HandResult(chosen.value, loop, ctx, r));
    }
  }

  lemma {:induction false} CalledStays(use: iset<Value>, p: Program, input: Value, t: Thread, frames: seq<nat>,
                                       ctx: Context, w: World)
    requires p.AsyncToSync?
    requires LiteralsIn(use, p) && input in use && Nothing in use && StateIn(use, ctx, w)
    ensures BridgedIn(use, RunBridged(p, input, Sync(t), frames, ctx, w))
    decreases p, 0
  {
    var x := EnterCall(p.forceNewLoop, t, frames, ctx, w);
    CallUnfolds(p.forceNewLoop, p.coro, input, t, frames, ctx, w);
    EnteredIn(use, p.forceNewLoop, t, frames, ctx, w);
    BridgedStays(use, p.coro, input, Async(x.loop), [|w.executors|] + frames, x.inner, x.world);
    CallResultIn(use, x, t, frames, ctx, w,
                 RunBridged(p.coro, input, Async(x.loop), [|w.executors|] + frames, x.inner, x.world));
  }

  lemma CallResultIn(use: iset<Value>, x: Entry, t: Thread, frames: seq<nat>, ctx: Context, w: World, r: Bridged)
    requires StateIn(use, ctx, w) && ContextIn(use, x.context) && BridgedIn(use, r)
    ensures BridgedIn(use, CallResult(x, t, frames, ctx, w, r))
  {
    RestoredIn(use, x.context, r.ctx, t);
  }

  lemma EnteredIn(use: iset<Value>, force: bool, t: Thread, frames: seq<nat>, ctx: Context, w: World)
    requires StateIn(use, ctx, w)
    ensures var x := EnterCall(force, t, frames, ctx, w);
      ContextIn(use, x.context) && StateIn(use, x.inner, x.world)
  {
    var x := EnterCall(force, t, frames, ctx, w);
    assert ContextIn(use, x.context);
    var start := if x.own then LoopStart(w, x.context) else x.context;
    assert ContextIn(use, start);
    RestoredIn(use, start, x.context, LoopWorker(x.loop));
  }

  // ---------------------------------------------------------------------------------------
  // Exactly the same values
  // ---------------------------------------------------------------------------------------

  predicate Exactly(r: Bridged, d: Direct) {
    r.outcome == d.outcome && View(r.ctx) == d.state && r.world.observed == d.observed
  }

  lemma SameData(use: iset<Value>, a: Data, b: Data)
    requires ToldApart(use) && DataIn(use, a) && DataIn(use, b) && BlurData(a) == BlurData(b)
    ensures a == b
  {
    assert a.Keys == BlurData(a).Keys == BlurData(b).Keys == b.Keys;
    forall attr | attr in a ensures a[attr] == b[attr] {
      assert Canonical(a[attr]) == BlurData(a)[attr] == BlurData(b)[attr] == Canonical(b[attr]);
      assert Equal(a[attr], b[attr]);
    }
  }

  lemma SameFlat(use: iset<Value>, a: Flat, b: Flat)
    requires ToldApart(use) && FlatIn(use, a) && FlatIn(use, b) && BlurFlat(a) == BlurFlat(b)
    ensures a == b
  {
    assert a.vars.Keys == BlurFlat(a).vars.Keys == BlurFlat(b).vars.Keys == b.vars.Keys;
    assert a.locals.Keys == BlurFlat(a).locals.Keys == BlurFlat(b).locals.Keys == b.locals.Keys;
    forall key | key in a.vars ensures a.vars[key] == b.vars[key] {
      assert Canonical(a.vars[key]) == BlurFlat(a).vars[key] == BlurFlat(b).vars[key] == Canonical(b.vars[key]);
      assert Equal(a.vars[key], b.vars[key]);
    }
    forall key | key in a.locals ensures a.locals[key] == b.locals[key] {
      assert BlurData(a.locals[key]) == BlurFlat(a).locals[key] == BlurFlat(b).locals[key] == BlurData(b.locals[key]);
      SameData(use, a.locals[key], b.locals[key]);
    }
  }

  lemma SameReads(use: iset<Value>, a: seq<Read>, b: seq<Read>)
    requires ToldApart(use) && ReadsIn(use, a) && ReadsIn(use, b) && BlurReads(a) == BlurReads(b)
    ensures a == b
  {
    assert |a| == |BlurReads(a)| == |BlurReads(b)| == |b|;
    forall i | 0 <= i < |a| ensures a[i] == b[i] {
      assert BlurRead(a[i]) == BlurReads(a)[i] == BlurReads(b)[i] == BlurRead(b[i]);
      assert ReadIn(use, a[i]) && ReadIn(use, b[i]);
      assert a[i].found.Some? ==> Equal(a[i].found.value, b[i].found.value);
    }
  }

  lemma ViewIn(use: iset<Value>, ctx: Context)
    requires ContextIn(use, ctx)
    ensures FlatIn(use, View(ctx))
  {
    forall key | key in View(ctx).vars ensures View(ctx).vars[key] in use {
      assert CellIn(use, key, ctx[key]);
    }
    forall key | key in View(ctx).locals ensures DataIn(use, View(ctx).locals[key]) {
      assert CellIn(use, key, ctx[key]);
    }
  }

  lemma SameIsExact(use: iset<Value>, r: Bridged, d: Direct)
    requires ToldApart(use) && BridgedIn(use, r) && DirectIn(use, d) && SameRun(r, d)
    ensures Exactly(r, d)
  {
    ViewIn(use, r.ctx);
    SameFlat(use, View(r.ctx), d.state);
    SameReads(use, r.world.observed, d.observed);
    assert r.outcome.Gave? ==> Equal(r.outcome.v, d.outcome.v);
  }

  // ---------------------------------------------------------------------------------------
  // If and only if
  // ---------------------------------------------------------------------------------------

  ghost predicate Uses(use: iset<Value>, p: Program, input: Value) {
    LiteralsIn(use, p) && input in use
  }

  // Of a run that returns.
  predicate ExactIfEver(r: Bridged, d: Direct) {
    r.outcome.Waits? || Exactly(r, d)
  }

  ghost predicate AllSyncExact(use: iset<Value>, t: Thread, ctx: Context, inherit: bool, workers: Workers) {
    forall p, input | Uses(use, p, input) ::
      ExactIfEver(SyncRun(p, input, t, ctx, inherit, workers), RunDirect(p, input, false, View(ctx)))
  }

  ghost predicate AllAsyncExact(use: iset<Value>, ctx: Context, inherit: bool, workers: Workers) {
    forall p, input | Uses(use, p, input) ::
      ExactIfEver(AsyncRun(p, input, ctx, inherit, workers), RunDirect(p, input, true, View(ctx)))
  }

  // Set a variable to one value on this side and to the other on that side; then look.
  function SetBoth(a: Value, b: Value, async: bool): Program {
    var there := SetVar(0, Lit(b));
    Then(SetVar(0, Lit(a)), Then(if async then SyncToAsync(true, there) else AsyncToSync(false, there), GetVar(0)))
  }

  lemma ReadsVar(input: Value, at: Place, ctx: Context, w: World, a: Value)
    requires User(0) in ctx && ctx[User(0)] == Plain(a)
    ensures RunBridged(GetVar(0), input, at, [], ctx, w).outcome == Gave(a)
  {
  }

  lemma ReadsBack(p: Program, a: Value, input: Value, at: Place, ctx: Context, w: World, r: Bridged)
    requires r == RunBridged(p, Nothing, at, [], ctx[User(0) := Plain(a)], w) && r.outcome.Gave?
    requires User(0) in r.ctx && r.ctx[User(0)] == Plain(a)
    ensures RunBridged(Then(SetVar(0, Lit(a)), Then(p, GetVar(0))), input, at, [], ctx, w).outcome == Gave(a)
  {
    var ctx' := ctx[User(0) := Plain(a)];
    var first, rest := SetVar(0, Lit(a)), Then(p, GetVar(0));
    assert RunBridged(first, input, at, [], ctx, w) == Bridged(Gave(Nothing), ctx', w);
    RunInTwo(Then(first, rest), input, at, [], ctx, w);
    RunInTwo(rest, Nothing, at, [], ctx', w);
    ReadsVar(r.outcome.v, at, r.ctx, r.world, a);
  }

  lemma DirectlyOverwritten(a: Value, b: Value, input: Value, async: bool, st: Flat)
    ensures RunDirect(SetBoth(a, b, async), input, async, st).outcome == Gave(b)
  {
    var there, p := SetVar(0, Lit(b)), SetBoth(a, b, async);
    var st1 := st.(vars := st.vars[User(0) := a]);
    var st2 := st1.(vars := st1.vars[User(0) := b]);
    assert RunDirect(there, Nothing, !async, st1) == Direct(Gave(Nothing), st2, []);
    assert RunDirect(p.second.first, Nothing, async, st1) == Direct(Gave(Nothing), st2, []);
    assert RunDirect(p.second, Nothing, async, st1).outcome == Gave(b);
  }

  // Coming back from the worker, the loop's context keeps the old of two equal values.
  lemma HandKeepsEqual(a: Value, b: Value, ctx: Context, w: World)
    requires Equal(a, b) && User(0) in ctx && ctx[User(0)] == Plain(a)
    requires ChooseThread(true, 0, ctx, w).Success?
    ensures var r := RunBridged(SyncToAsync(true, SetVar(0, Lit(b))), Nothing, Async(0), [], ctx, w);
      r.outcome.Gave? && User(0) in r.ctx && r.ctx[User(0)] == Plain(a)
  {
    var choice := ChooseThread(true, 0, ctx, w).value;
    var t, context := choice.thread, Marked(ctx, choice);
    var worker := Restored(context, context, t);
    var w1 := Hand(w, true, t, 0, ctx, []);
    var after := worker[User(0) := Plain(b)];
    assert RunBridged(SetVar(0, Lit(b)), Nothing, Sync(t), [], worker, w1) == Bridged(Gave(Nothing), after, w1);
    HandUnfolds(true, SetVar(0, Lit(b)), Nothing, 0, [], ctx, w);
    assert Restored(context, after, LoopWorker(0))[User(0)] == RestoredCell(context, after, User(0), LoopWorker(0)) ==
      Plain(a);
  }

  // Coming back from the coroutine, so does the caller's.
  lemma CallKeepsEqual(a: Value, b: Value, t: Thread, ctx: Context, w: World)
    requires !Occupied(w)
    requires Equal(a, b) && User(0) in ctx && ctx[User(0)] == Plain(a)
    ensures var r := RunBridged(AsyncToSync(false, SetVar(0, Lit(b))), Nothing, Sync(t), [], ctx, w);
      r.outcome.Gave? && User(0) in r.ctx && r.ctx[User(0)] == Plain(a)
  {
    var x := EnterCall(false, t, [], ctx, w);
    var after := x.inner[User(0) := Plain(b)];
    assert RunBridged(SetVar(0, Lit(b)), Nothing, Async(x.loop), [|w.executors|] + [], x.inner, x.world) ==
      Bridged(Gave(Nothing), after, x.world);
    CallUnfolds(false, SetVar(0, Lit(b)), Nothing, t, [], ctx, w);
    assert Restored(x.context, after, t)[User(0)] == RestoredCell(x.context, after, User(0), t) == Plain(a);
  }

  lemma SetBothUses(use: iset<Value>, a: Value, b: Value, async: bool)
    requires a in use && b in use && Nothing in use
    ensures Uses(use, SetBoth(a, b, async), Nothing)
  {
    var p := SetBoth(a, b, async);
    assert LiteralsIn(use, p.second.first) && LiteralsIn(use, p.second);
  }

  lemma SyncIsExact(use: iset<Value>, p: Program, input: Value, t: Thread, ctx: Context, inherit: bool,
                    workers: Workers)
    requires SyncStart(t, ctx, inherit, workers)
    requires Nothing in use && StateIn(use, ctx, FreshWorld(inherit, workers))
    requires ToldApart(use) && Uses(use, p, input)
    ensures ExactIfEver(SyncRun(p, input, t, ctx, inherit, workers), RunDirect(p, input, false, View(ctx)))
  {
    SyncProgram(p, input, t, ctx, inherit, workers);
    BridgedStays(use, p, input, Sync(t), [], ctx, SyncWorld(t, inherit, workers));
    ViewIn(use, ctx);
    DirectStays(use, p, input, false, View(ctx));
    if !SyncRun(p, input, t, ctx, inherit, workers).outcome.Waits? {
      SameIsExact(use, SyncRun(p, input, t, ctx, inherit, workers), RunDirect(p, input, false, View(ctx)));
    }
  }

  lemma SyncSetBoth(a: Value, b: Value, t: Thread, ctx: Context, inherit: bool, workers: Workers)
    requires Equal(a, b)
    ensures SyncRun(SetBoth(a, b, false), Nothing, t, ctx, inherit, workers).outcome == Gave(a)
  {
    var w, ctx' := SyncWorld(t, inherit, workers), ctx[User(0) := Plain(a)];
    CallKeepsEqual(a, b, t, ctx', w);
    ReadsBack(AsyncToSync(false, SetVar(0, Lit(b))), a, Nothing, Sync(t), ctx, w,
              RunBridged(AsyncToSync(false, SetVar(0, Lit(b))), Nothing, Sync(t), [], ctx', w));
  }

  // From sync code: every program that uses these values gets exactly the direct run's values if
  // and only if == tells the values apart.
  lemma SyncExactlyWhen(use: iset<Value>, t: Thread, ctx: Context, inherit: bool, workers: Workers)
    requires SyncStart(t, ctx, inherit, workers)
    requires Nothing in use && StateIn(use, ctx, FreshWorld(inherit, workers))
    ensures AllSyncExact(use, t, ctx, inherit, workers) <==> ToldApart(use)
  {
    if ToldApart(use) {
      forall p, input | Uses(use, p, input)
        ensures ExactIfEver(SyncRun(p, input, t, ctx, inherit, workers), RunDirect(p, input, false, View(ctx)))
      {
        SyncIsExact(use, p, input, t, ctx, inherit, workers);
      }
    }
    if AllSyncExact(use, t, ctx, inherit, workers) {
      forall a, b | a in use && b in use && Equal(a, b) ensures a == b {
        SyncSetBoth(a, b, t, ctx, inherit, workers);
        DirectlyOverwritten(a, b, Nothing, false, View(ctx));
        SetBothUses(use, a, b, false);
      }
    }
  }

  lemma AsyncIsExact(use: iset<Value>, p: Program, input: Value, ctx: Context, inherit: bool, workers: Workers)
    requires AsyncStart(ctx, inherit, workers)
    requires Nothing in use && StateIn(use, ctx, FreshWorld(inherit, workers))
    requires ToldApart(use) && Uses(use, p, input)
    ensures ExactIfEver(AsyncRun(p, input, ctx, inherit, workers), RunDirect(p, input, true, View(ctx)))
  {
    AsyncProgram(p, input, ctx, inherit, workers);
    BridgedStays(use, p, input, Async(0), [], ctx, AsyncWorld(inherit, workers));
    ViewIn(use, ctx);
    DirectStays(use, p, input, true, View(ctx));
    if !AsyncRun(p, input, ctx, inherit, workers).outcome.Waits? {
      SameIsExact(use, AsyncRun(p, input, ctx, inherit, workers), RunDirect(p, input, true, View(ctx)));
    }
  }

  // The same from async code.
  lemma AsyncExactlyWhen(use: iset<Value>, ctx: Context, inherit: bool, workers: Workers)
    requires AsyncStart(ctx, inherit, workers)
    requires Nothing in use && StateIn(use, ctx, FreshWorld(inherit, workers))
    ensures AllAsyncExact(use, ctx, inherit, workers) <==> ToldApart(use)
  {
    if ToldApart(use) {
      forall p, input | Uses(use, p, input)
        ensures ExactIfEver(AsyncRun(p, input, ctx, inherit, workers), RunDirect(p, input, true, View(ctx)))
      {
        AsyncIsExact(use, p, input, ctx, inherit, workers);
      }
    }
    if AllAsyncExact(use, ctx, inherit, workers) {
      forall a, b | a in use && b in use && Equal(a, b) ensures a == b {
        AsyncSetBoth(a, b, ctx, inherit, workers);
        DirectlyOverwritten(a, b, Nothing, true, View(ctx));
        SetBothUses(use, a, b, true);
      }
    }
  }

  lemma AsyncSetBoth(a: Value, b: Value, ctx: Context, inherit: bool, workers: Workers)
    requires Equal(a, b) && AsyncStart(ctx, inherit, workers)
    ensures AsyncRun(SetBoth(a, b, true), Nothing, ctx, inherit, workers).outcome == Gave(a)
  {
    var w, ctx' := AsyncWorld(inherit, workers), ctx[User(0) := Plain(a)];
    AsyncStartIsReady(ctx, inherit, workers);
    WriteKeeps(Async(0), [], ctx, w, User(0), Plain(a));
    ThreadChosen(true, 0, [], ctx', w);
    HandKeepsEqual(a, b, ctx', w);
    ReadsBack(SyncToAsync(true, SetVar(0, Lit(b))), a, Nothing, Async(0), ctx, w,
              RunBridged(SyncToAsync(true, SetVar(0, Lit(b))), Nothing, Async(0), [], ctx', w));
  }

  // It does happen: 1 is set on the loop, True on the worker, and the loop still reads 1.
  lemma TrueBecomesOne(inherit: bool)
    ensures AsyncRun(SetBoth(Int(1), Flag(true), true), Nothing, map[], inherit, PerCall).outcome == Gave(Int(1))
    ensures RunDirect(SetBoth(Int(1), Flag(true), true), Nothing, true, View(map[])).outcome == Gave(Flag(true))
  {
    AsyncSetBoth(Int(1), Flag(true), map[], inherit, PerCall);
    DirectlyOverwritten(Int(1), Flag(true), Nothing, true, View(map[]));
  }
}
