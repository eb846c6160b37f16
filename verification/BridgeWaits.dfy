/**
 * Loops and waiting, for whole programs: which programs wait for ever inside an
 * AsyncSingleThreadContext, which stay on one loop, and what a forced call leaves behind.
 */
module BridgeWaits {
  import opened Wrappers
  import opened Contexts
  import opened Bridge
  import opened UpToEquality
  import opened BridgeRelation
  import opened BridgeTheorems
  import opened BridgeResults
  import opened BridgeTasks
  import opened BridgeLoops

  lemma {:induction false} DirectReturns(p: Program, input: Value, async: bool, st: Flat)
    ensures !RunDirect(p, input, async, st).outcome.Waits?
    decreases p, 1
  {
    match p
    case Then(_, _) => TwoReturn(p, input, async, st);
    case Try(_, _) => TwoReturn(p, input, async, st);
    case If(v, a, b) => DirectReturns(if Equal(input, v) then a else b, input, async, st);
    case Task(a) => DirectReturns(a, input, true, st);
    case SyncToAsync(_, a) => DirectReturns(a, input, false, st);
    case AsyncToSync(_, a) => DirectReturns(a, input, true, st);
    case _ =>
  }

  lemma {:induction false} TwoReturn(p: Program, input: Value, async: bool, st: Flat)
    requires InTwoParts(p)
    ensures !RunDirect(p, input, async, st).outcome.Waits?
    decreases p, 0
  {
    var d := RunDirect(First(p), input, async, st);
    DirectReturns(First(p), input, async, st);
    DirectReturns(Rest(p), Passed(p, d.outcome, input), async, d.state);
  }

  lemma SameUnlessItWaits(r: Bridged, d: Direct)
    requires SameAsFar(r, d) && !d.outcome.Waits?
    ensures SameRun(r, d) <==> !r.outcome.Waits?
  {
  }

  // Where a whole program starts: in sync code that remembers no loop, or on loop 0.
  function SyncStanding(workers: Workers): Standing {
    Standing(None, None, 0, !workers.PerCall?, false)
  }

  function AsyncStanding(workers: Workers): Standing {
    Standing(Some(0), None, 1, !workers.PerCall?, false)
  }

  lemma SyncStartTracks(t: Thread, inherit: bool, workers: Workers)
    ensures Tracks(Sync(t), [], SyncWorld(t, inherit, workers), SyncStanding(workers))
  {
  }

  lemma AsyncStartTracks(inherit: bool, workers: Workers)
    ensures Tracks(Async(0), [], AsyncWorld(inherit, workers), AsyncStanding(workers))
  {
  }

  // The legs of a whole run and the loops it makes, known from the direct run.
  lemma SyncFollowsCourse(p: Program, input: Value, t: Thread, ctx: Context, inherit: bool, workers: Workers)
    requires SyncStart(t, ctx, inherit, workers)
    ensures var r := SyncRun(p, input, t, ctx, inherit, workers);
      var c := CourseOf(p, input, View(ctx), SyncStanding(workers));
      && r.outcome.Waits? == c.waits && Legs(r.world.events) == c.legs
      && (!c.waits ==> r.world.nextLoop == c.next)
  {
    SyncStartIsReady(t, ctx, inherit, workers);
    SyncStartTracks(t, inherit, workers);
    FollowsCourse(p, input, Sync(t), [], ctx, SyncWorld(t, inherit, workers), SyncStanding(workers));
    assert Legs([]) == [];
  }

  lemma AsyncFollowsCourse(p: Program, input: Value, ctx: Context, inherit: bool, workers: Workers)
    requires AsyncStart(ctx, inherit, workers)
    ensures var r := AsyncRun(p, input, ctx, inherit, workers);
      var c := CourseOf(p, input, View(ctx), AsyncStanding(workers));
      && r.outcome.Waits? == c.waits && Legs(r.world.events) == c.legs
      && (!c.waits ==> r.world.nextLoop == c.next)
  {
    AsyncStartIsReady(ctx, inherit, workers);
    AsyncStartTracks(inherit, workers);
    FollowsCourse(p, input, Async(0), [], ctx, AsyncWorld(inherit, workers), AsyncStanding(workers));
    assert Legs([]) == [];
  }

  lemma SyncSameUnlessItWaits(p: Program, input: Value, t: Thread, ctx: Context, inherit: bool, workers: Workers)
    requires SyncStart(t, ctx, inherit, workers)
    ensures var r := SyncRun(p, input, t, ctx, inherit, workers);
      && (SameRun(r, RunDirect(p, input, false, View(ctx))) <==> !r.outcome.Waits?)
      && (workers.PerCall? ==> !r.outcome.Waits?)
  {
    SyncProgram(p, input, t, ctx, inherit, workers);
    DirectReturns(p, input, false, View(ctx));
    SameUnlessItWaits(SyncRun(p, input, t, ctx, inherit, workers), RunDirect(p, input, false, View(ctx)));
  }

  lemma AsyncSameUnlessItWaits(p: Program, input: Value, ctx: Context, inherit: bool, workers: Workers)
    requires AsyncStart(ctx, inherit, workers)
    ensures var r := AsyncRun(p, input, ctx, inherit, workers);
      && (SameRun(r, RunDirect(p, input, true, View(ctx))) <==> !r.outcome.Waits?)
      && (workers.PerCall? ==> !r.outcome.Waits?)
  {
    AsyncProgram(p, input, ctx, inherit, workers);
    DirectReturns(p, input, true, View(ctx));
    SameUnlessItWaits(AsyncRun(p, input, ctx, inherit, workers), RunDirect(p, input, true, View(ctx)));
  }

  // A program waits for ever if and only if its direct run comes to a call that makes a loop of its
  // own within such a call, inside an AsyncSingleThreadContext. Otherwise, and only then, it does
  // what the direct run does.
  lemma SyncWaitsWhen(p: Program, input: Value, t: Thread, ctx: Context, inherit: bool, workers: Workers)
    requires SyncStart(t, ctx, inherit, workers)
    ensures var r := SyncRun(p, input, t, ctx, inherit, workers);
      var waits := CourseOf(p, input, View(ctx), SyncStanding(workers)).waits;
      && (r.outcome.Waits? <==> waits) && (workers.PerCall? ==> !waits)
      && (SameRun(r, RunDirect(p, input, false, View(ctx))) <==> !waits)
  {
    SyncSameUnlessItWaits(p, input, t, ctx, inherit, workers);
    SyncFollowsCourse(p, input, t, ctx, inherit, workers);
  }

  lemma AsyncWaitsWhen(p: Program, input: Value, ctx: Context, inherit: bool, workers: Workers)
    requires AsyncStart(ctx, inherit, workers)
    ensures var r := AsyncRun(p, input, ctx, inherit, workers);
      var waits := CourseOf(p, input, View(ctx), AsyncStanding(workers)).waits;
      && (r.outcome.Waits? <==> waits) && (workers.PerCall? ==> !waits)
      && (SameRun(r, RunDirect(p, input, true, View(ctx))) <==> !waits)
  {
    AsyncSameUnlessItWaits(p, input, ctx, inherit, workers);
    AsyncFollowsCourse(p, input, ctx, inherit, workers);
  }

  // ---------------------------------------------------------------------------------------
  // Programs that force no loop
  // ---------------------------------------------------------------------------------------

  // No call forces a loop of its own.
  predicate Unforced(p: Program) {
    match p
    case Then(a, b) => Unforced(a) && Unforced(b)
    case If(_, a, b) => Unforced(a) && Unforced(b)
    case Try(a, b) => Unforced(a) && Unforced(b)
    case SyncToAsync(_, a) => Unforced(a)
    case AsyncToSync(force, a) => !force && Unforced(a)
    case Task(a) => Unforced(a)
    case _ => true
  }

  // Async code on a loop, or sync code whose thread remembers it: all coroutines run on that loop,
  // none is made, and nothing waits.
  predicate Staying(s: Standing, l: nat) {
    s.loop == Some(l) || (s.loop.None? && s.memory == Some(l))
  }

  predicate StaysOn(c: Course, s: Standing, l: nat) {
    && !c.waits && c.next == s.next
    && (forall k | 0 <= k < |c.legs| && c.legs[k].OnLoop? :: c.legs[k].loop == l)
    && (c.memory == Some(l) || (s.loop.Some? && c.memory == s.memory))
  }

  lemma {:induction false} UnforcedStays(p: Program, input: Value, st: Flat, s: Standing, l: nat)
    requires Unforced(p) && Staying(s, l)
    ensures StaysOn(CourseOf(p, input, st, s), s, l)
    decreases p, 1
  {
    match p
    case Then(_, _) => TwoStay(p, input, st, s, l);
    case Try(_, _) => TwoStay(p, input, st, s, l);
    case If(v, a, b) => UnforcedStays(if Equal(input, v) then a else b, input, st, s, l);
    case Task(a) =>
      if s.loop.Some? {
        UnforcedStays(a, input, st, s, l);
      }
    case SyncToAsync(_, _) =>
      if s.loop.Some? {
        HandStays(p, input, st, s, l);
      }
    case AsyncToSync(_, _) =>
      if s.loop.None? {
        CallStays(p, input, st, s, l);
      }
    case _ =>
  }

  lemma {:induction false} TwoStay(p: Program, input: Value, st: Flat, s: Standing, l: nat)
    requires InTwoParts(p) && Unforced(p) && Staying(s, l)
    ensures StaysOn(CourseOf(p, input, st, s), s, l)
    decreases p, 0
  {
    CourseInTwo(p, input, st, s);
    UnforcedStays(First(p), input, st, s, l);
    var c, d := CourseOf(First(p), input, st, s), RunDirect(First(p), input, s.loop.Some?, st);
    if GoesOn(p, d.outcome) {
      UnforcedStays(Rest(p), Passed(p, d.outcome, input), d.state, Onward(s, c), l);
    }
  }

  lemma {:induction false} HandStays(p: Program, input: Value, st: Flat, s: Standing, l: nat)
    requires p.SyncToAsync? && Unforced(p) && s.loop == Some(l)
    ensures StaysOn(CourseOf(p, input, st, s), s, l)
    decreases p, 0
  {
    HandCourse(p, input, st, s);
    UnforcedStays(p.sync, input, st, InHand(s), l);
  }

  lemma {:induction false} CallStays(p: Program, input: Value, st: Flat, s: Standing, l: nat)
    requires p.AsyncToSync? && Unforced(p) && s.loop.None? && s.memory == Some(l)
    ensures StaysOn(CourseOf(p, input, st, s), s, l)
    decreases p, 0
  {
    CallCourse(p, input, st, s, false, l);
    UnforcedStays(p.coro, input, st, InCall(s, false, l), l);
  }

  // Sync code whose thread remembers no loop: every call makes one for its coroutine, which stays
  // on it; outside any loop that a call made, none of them waits.
  lemma {:induction false} UnforcedNeverWaits(p: Program, input: Value, st: Flat, s: Standing)
    requires Unforced(p) && s.loop.None? && s.memory.None? && !(s.shared && s.inside)
    ensures !CourseOf(p, input, st, s).waits && CourseOf(p, input, st, s).memory.None?
    decreases p, 1
  {
    match p
    case Then(_, _) => TwoNeverWait(p, input, st, s);
    case Try(_, _) => TwoNeverWait(p, input, st, s);
    case If(v, a, b) => UnforcedNeverWaits(if Equal(input, v) then a else b, input, st, s);
    case AsyncToSync(_, a) =>
      CallCourse(p, input, st, s, true, s.next);
      UnforcedStays(a, input, st, InCall(s, true, s.next), s.next);
    case _ =>
  }

  lemma {:induction false} TwoNeverWait(p: Program, input: Value, st: Flat, s: Standing)
    requires InTwoParts(p) && Unforced(p) && s.loop.None? && s.memory.None? && !(s.shared && s.inside)
    ensures !CourseOf(p, input, st, s).waits && CourseOf(p, input, st, s).memory.None?
    decreases p, 0
  {
    CourseInTwo(p, input, st, s);
    UnforcedNeverWaits(First(p), input, st, s);
    var c, d := CourseOf(First(p), input, st, s), RunDirect(First(p), input, s.loop.Some?, st);
    if GoesOn(p, d.outcome) {
      UnforcedNeverWaits(Rest(p), Passed(p, d.outcome, input), d.state, Onward(s, c));
    }
  }

  // A program from async code that forces no loop runs every coroutine on the loop it started on,
  // makes no loop and never waits, whatever thread its sync code is in.
  lemma AsyncStaysOnItsLoop(p: Program, input: Value, ctx: Context, inherit: bool, workers: Workers)
    requires Unforced(p) && AsyncStart(ctx, inherit, workers)
    ensures var r := AsyncRun(p, input, ctx, inherit, workers);
      && !r.outcome.Waits? && r.world.nextLoop == 1
      && forall k | 0 <= k < |r.world.events| && r.world.events[k].Called? :: r.world.events[k].loop == 0
  {
    AsyncFollowsCourse(p, input, ctx, inherit, workers);
    UnforcedStays(p, input, View(ctx), AsyncStanding(workers), 0);
    var r := AsyncRun(p, input, ctx, inherit, workers);
    forall k | 0 <= k < |r.world.events| && r.world.events[k].Called? ensures r.world.events[k].loop == 0 {
      assert Legs(r.world.events)[k] == OnLoop(r.world.events[k].loop);
    }
  }

  // From sync code it never waits either.
  lemma SyncNeverWaits(p: Program, input: Value, t: Thread, ctx: Context, inherit: bool, workers: Workers)
    requires Unforced(p) && SyncStart(t, ctx, inherit, workers)
    ensures !SyncRun(p, input, t, ctx, inherit, workers).outcome.Waits?
  {
    SyncFollowsCourse(p, input, t, ctx, inherit, workers);
    UnforcedNeverWaits(p, input, View(ctx), SyncStanding(workers));
  }

  // ---------------------------------------------------------------------------------------
  // Programs that do
  // ---------------------------------------------------------------------------------------

  // A call, sync code in it, and a forced call in that.
  function ForcedInside(): Program {
    AsyncToSync(false, SyncToAsync(true, AsyncToSync(true, Give(Input))))
  }

  lemma ForcedInsideRuns(v: Value, st: Flat)
    ensures RunDirect(ForcedInside(), v, false, st) == Direct(Gave(v), st, [])
    ensures CourseOf(ForcedInside(), v, st, SyncStanding(Shared(map[]))).waits
  {
    var inner := AsyncToSync(true, Give(Input));
    assert RunDirect(inner, v, false, st) == RunDirect(Give(Input), v, true, st);
    assert RunDirect(SyncToAsync(true, inner), v, true, st) == Direct(Gave(v), st, []);
    var s := InCall(SyncStanding(Shared(map[])), true, 0);
    assert CourseOf(inner, v, st, InHand(s)).waits;
    assert CourseOf(SyncToAsync(true, inner), v, st, s).waits;
  }

  lemma ForcedCallWaits(t: Thread, v: Value)
    requires !t.LoopWorker?
    ensures SyncRun(ForcedInside(), v, t, map[], false, Shared(map[])).outcome.Waits?
    ensures RunDirect(ForcedInside(), v, false, View(map[])).outcome == Gave(v)
    ensures SyncRun(ForcedInside(), v, t, map[], false, PerCall).outcome.Gave?
  {
    ForcedInsideRuns(v, View(map[]));
    SyncWaitsWhen(ForcedInside(), v, t, map[], false, Shared(map[]));
    SyncProgram(ForcedInside(), v, t, map[], false, PerCall);
  }

  // Sync code that a loop handed out makes a forced call with sensitive code in it, and then an
  // unforced one.
  function ForcedThenNot(): Program {
    SyncToAsync(true, Then(AsyncToSync(true, SyncToAsync(true, Give(Input))), AsyncToSync(false, Give(Input))))
  }

  // The forced call leaves the thread with a loop that is gone. So the unforced call does not find
  // the loop the code works for, which still runs, and makes loop 2; without the forced call's
  // sensitive code it runs on loop 0.
  lemma ForcedCallForgets(v: Value, ctx: Context, inherit: bool)
    requires AsyncStart(ctx, inherit, PerCall)
    ensures Legs(AsyncRun(ForcedThenNot(), v, ctx, inherit, PerCall).world.events) ==
      [InThread(true), OnLoop(1), InThread(true), OnLoop(2)]
    ensures var p := SyncToAsync(true, Then(AsyncToSync(true, Give(Input)), AsyncToSync(false, Give(Input))));
      Legs(AsyncRun(p, v, ctx, inherit, PerCall).world.events) == [InThread(true), OnLoop(1), OnLoop(0)]
  {
    AsyncFollowsCourse(ForcedThenNot(), v, ctx, inherit, PerCall);
    AsyncFollowsCourse(SyncToAsync(true, Then(AsyncToSync(true, Give(Input)), AsyncToSync(false, Give(Input)))),
                       v, ctx, inherit, PerCall);
    ForcedCourse(v, View(ctx));
    PlainForcedCourse(v, View(ctx));
  }

  lemma ForcedCourse(v: Value, st: Flat)
    ensures CourseOf(ForcedThenNot(), v, st, AsyncStanding(PerCall)).legs ==
      [InThread(true), OnLoop(1), InThread(true), OnLoop(2)]
  {
    var s, give := AsyncStanding(PerCall), Give(Input);
    var hand := SyncToAsync(true, give);
    var forced, free := AsyncToSync(true, hand), AsyncToSync(false, give);
    var s1 := InHand(s);
    var s2 := InCall(s1, true, 1);
    assert CourseOf(give, v, st, InHand(s2)) == Stay(InHand(s2));
    HandCourse(hand, v, st, s2);
    CallCourse(forced, v, st, s1, true, 1);
    var c := CourseOf(forced, v, st, s1);
    assert c == Course(false, [OnLoop(1), InThread(true)], None, 2);
    assert RunDirect(hand, v, true, st) == RunDirect(give, v, false, st) == Direct(Gave(v), st, []);
    assert RunDirect(forced, v, false, st) == Direct(Gave(v), st, []);
    CourseInTwo(Then(forced, free), v, st, s1);
    CallCourse(free, v, st, Onward(s1, c), true, 2);
    HandCourse(ForcedThenNot(), v, st, s);
  }

  lemma PlainForcedCourse(v: Value, st: Flat)
    ensures var p := SyncToAsync(true, Then(AsyncToSync(true, Give(Input)), AsyncToSync(false, Give(Input))));
      CourseOf(p, v, st, AsyncStanding(PerCall)).legs == [InThread(true), OnLoop(1), OnLoop(0)]
  {
    var s, give := AsyncStanding(PerCall), Give(Input);
    var forced, free := AsyncToSync(true, give), AsyncToSync(false, give);
    var s1 := InHand(s);
    CallCourse(forced, v, st, s1, true, 1);
    var c := CourseOf(forced, v, st, s1);
    assert c == Course(false, [OnLoop(1)], Some(0), 2);
    assert RunDirect(give, v, true, st) == Direct(Gave(v), st, []) == RunDirect(forced, v, false, st);
    CourseInTwo(Then(forced, free), v, st, s1);
    CallCourse(free, v, st, Onward(s1, c), false, 0);
    HandCourse(SyncToAsync(true, Then(forced, free)), v, st, s);
  }

  // ---------------------------------------------------------------------------------------
  // Tasks that take turns
  // ---------------------------------------------------------------------------------------

  predicate NoneForced(body: seq<Program>) {
    forall i | 0 <= i < |body| :: Unforced(body[i])
  }

  // A task that forces no loop, in a state of the bridge that the lemmas above speak of.
  predicate Unhindered(t: Running, w: World) {
    NoneForced(t.rest) && Steady(Async(t.loop), t.frames, w)
  }

  predicate AllUnhindered(s: Tasks) {
    !s.stuck && forall i | 0 <= i < |s.all| :: Unhindered(s.all[i], s.world)
  }

  lemma PieceReturns(t: Running, w: World)
    requires Ready(Async(t.loop), t.frames, t.ctx, w) && Unhindered(t, w) && CanRun(t.rest, t.last)
    ensures var r := RunPiece(t, w);
      !r.outcome.Waits? && Unhindered(After(t, r), r.world) && Framed(t.ctx, w.(observed := []), r.ctx, r.world)
  {
    var at := Async(t.loop);
    var memory := if HasHost(at, t.frames, w) then Memory(Host(at, t.frames, w), w) else None;
    var s := Standing(Some(t.loop), memory, w.nextLoop, !w.workers.PerCall?, w.loopExecutors != map[]);
    var p, v, w0, r := t.rest[0], t.last.v, w.(observed := []), RunPiece(t, w);
    SameTracks(at, t.frames, w, [], s);
    ReadyAnyLog(Async(t.loop), t.frames, t.ctx, w, []);
    FollowsCourse(p, v, at, t.frames, t.ctx, w0, s);
    UnforcedStays(p, v, View(t.ctx), s, t.loop);
    BridgeIsTransparent(p, v, Async(t.loop), t.frames, t.ctx, w0);
  }

  // The piece of one task hinders no other.
  lemma OthersUnhindered(t: Running, o: Running, w: World, r: Bridged)
    requires t.rest != [] && Unhindered(o, w) && Unhindered(After(t, r), r.world)
    requires Framed(t.ctx, w.(observed := []), r.ctx, r.world)
    ensures Unhindered(o, r.world)
  {
    HostStays(Async(o.loop), o.frames, t.ctx, w.(observed := []), r.ctx, r.world);
  }

  lemma TurnUnhindered(s: Tasks, i: nat)
    requires AllReady(s) && AllUnhindered(s) && i < |s.all| && CanRun(s.all[i].rest, s.all[i].last)
    ensures AllUnhindered(Advance(s, Turn(i)))
  {
    var t, r, s' := s.all[i], RunPiece(s.all[i], s.world), Advance(s, Turn(i));
    PieceReturns(t, s.world);
    forall j | 0 <= j < |s'.all| ensures Unhindered(s'.all[j], s'.world) {
      if j != i {
        OthersUnhindered(t, s.all[j], s.world, r);
      }
    }
  }

  lemma CreateUnhindered(s: Tasks, i: nat, body: seq<Program>, input: Value)
    requires AllUnhindered(s) && i < |s.all| && NoneForced(body)
    ensures AllUnhindered(Advance(s, Create(i, body, input)))
  {
    var s' := Advance(s, Create(i, body, input));
    assert Unhindered(s.all[i], s.world) && Unhindered(s'.all[|s.all|], s'.world);
    forall j | 0 <= j < |s'.all| ensures Unhindered(s'.all[j], s'.world) {
      assert j < |s.all| ==> Unhindered(s.all[j], s.world);
    }
  }

  // Tasks that force no loop never get stuck, however they take turns.
  lemma {:induction false} NeverStuckUnforced(s: Tasks, ts: seq<Alone>, acts: seq<Action>)
    requires AllReady(s) && AlikeTasks(s, ts) && AllUnhindered(s)
    requires forall k | 0 <= k < |acts| && acts[k].Create? :: NoneForced(acts[k].body)
    ensures !AdvanceAll(s, acts).stuck
    decreases |acts|
  {
    if acts != [] {
      var a, s' := acts[0], Advance(s, acts[0]);
      ActionKeeps(s, ts, a);
      if a.Turn? && a.i < |s.all| && CanRun(s.all[a.i].rest, s.all[a.i].last) {
        TurnUnhindered(s, a.i);
      } else if a.Create? && a.i < |s.all| {
        CreateUnhindered(s, a.i, a.body, a.input);
      }
      NeverStuckUnforced(s', Directly(ts, a), acts[1..]);
    }
  }
}
