// Awaited code never waits for itself: sync code is sent to no thread that runs other sync code,
// unless that thread is blocked in the very call whose executor the code is sent to.
module BridgeDeadlock {
  import opened Wrappers
  import opened Contexts
  import opened Bridge
  import opened BridgeRelation
  import opened BridgeTheorems

  // The thread waits in the closest frame that has not returned, and so serves that executor.
  predicate Serves(t: Thread, xs: seq<Executor>, frames: seq<nat>) {
    var f := FirstBlocked(xs, frames);
    f.Some? && f.value < |xs| && xs[f.value].thread == t
  }

  // Along the run of `p`, while the threads in `busy` run sync code further out: every thread that
  // is given to sync code is free, or serves the executor it was chosen for.
  predicate NeverSentToBusy(p: Program, input: Value, at: Place, frames: seq<nat>, ctx: Context, w: World,
                            busy: set<Thread>)
    decreases p, 0
  {
    match p
    case Then(a, b) =>
      var r := RunBridged(a, input, at, frames, ctx, w);
      NeverSentToBusy(a, input, at, frames, ctx, w, busy)
      && (r.outcome.Gave? ==> NeverSentToBusy(b, r.outcome.v, at, frames, r.ctx, r.world, busy))
    case Try(a, b) =>
      var r := RunBridged(a, input, at, frames, ctx, w);
      NeverSentToBusy(a, input, at, frames, ctx, w, busy)
      && (r.outcome.Raised? ==> NeverSentToBusy(b, input, at, frames, r.ctx, r.world, busy))
    case If(v, a, b) =>
      if Equal(input, v) then NeverSentToBusy(a, input, at, frames, ctx, w, busy)
      else NeverSentToBusy(b, input, at, frames, ctx, w, busy)
    case Task(a) => at.Async? ==> NeverSentToBusy(a, input, at, frames, ctx, w, busy)
    case SyncToAsync(sensitive, a) => at.Async? ==> HandedToFree(a, sensitive, input, at.loop, frames, ctx, w, busy)
    case AsyncToSync(force, a) => at.Sync? ==> CalledToFree(a, force, input, at.t, frames, ctx, w, busy)
    case _ => true
  }

  // The chosen thread, and from then on it is busy as well.
  predicate HandedToFree(sync: Program, sensitive: bool, input: Value, loop: nat, frames: seq<nat>, ctx: Context,
                         w: World, busy: set<Thread>)
    decreases sync, 1
  {
    match ChooseThread(sensitive, loop, ctx, w)
    case Failure(_) => true
    case Success(choice) =>
      var t, context := choice.thread, Marked(ctx, choice);
      && (t in busy ==> Serves(t, w.executors, frames))
      && NeverSentToBusy(sync, input, Sync(t), frames, Restored(context, context, t),
                         Hand(w, sensitive, t, loop, ctx, frames), busy + {t})
  }

  predicate CalledToFree(coro: Program, force: bool, input: Value, t: Thread, frames: seq<nat>, ctx: Context, w: World,
                         busy: set<Thread>)
    decreases coro, 1
  {
    var x := EnterCall(force, t, frames, ctx, w);
    (x.own && Occupied(w))
    || NeverSentToBusy(coro, input, Async(x.loop), [|w.executors|] + frames, x.inner, x.world, busy)
  }

  // Every busy thread but the running one waits in one of the frames around.
  predicate Accounted(busy: set<Thread>, at: Place, frames: seq<nat>, w: World) {
    busy <= BlockedThreads(w.executors, frames) + (if at.Sync? then {at.t} else {})
  }

  lemma AccountedLater(busy: set<Thread>, at: Place, frames: seq<nat>, w: World, w': World)
    requires Accounted(busy, at, frames, w) && w.executors <= w'.executors
    ensures Accounted(busy, at, frames, w')
  {
    forall t | t in BlockedThreads(w.executors, frames) ensures t in BlockedThreads(w'.executors, frames) {
      var f :| f in frames && f < |w.executors| && !w.executors[f].broken && w.executors[f].thread == t;
      assert w'.executors[f] == w.executors[f];
    }
  }

  // A thread that makes a call waits in the call's frame.
  lemma AccountedInCall(busy: set<Thread>, t: Thread, frames: seq<nat>, w: World, loop: nat, w': World)
    requires Accounted(busy, Sync(t), frames, w)
    requires w.executors <= w'.executors && |w.executors| < |w'.executors|
    requires w'.executors[|w.executors|].thread == t && !w'.executors[|w.executors|].broken
    ensures Accounted(busy, Async(loop), [|w.executors|] + frames, w')
  {
    var all := [|w.executors|] + frames;
    AccountedLater(busy, Sync(t), frames, w, w');
    forall u | u in BlockedThreads(w'.executors, frames) ensures u in BlockedThreads(w'.executors, all) {
      var f :| f in frames && f < |w'.executors| && !w'.executors[f].broken && w'.executors[f].thread == u;
      assert f in all;
    }
    assert all[0] in all && t in BlockedThreads(w'.executors, all);
  }

  lemma CallAccounted(force: bool, t: Thread, frames: seq<nat>, ctx: Context, w: World, busy: set<Thread>, x: Entry)
    requires Ready(Sync(t), frames, ctx, w) && Accounted(busy, Sync(t), frames, w)
    requires x == EnterCall(force, t, frames, ctx, w)
    ensures Ready(Async(x.loop), [|w.executors|] + frames, x.inner, x.world)
    ensures Accounted(busy, Async(x.loop), [|w.executors|] + frames, x.world)
  {
    CallEntered(force, t, frames, ctx, w);
    AccountedInCall(busy, t, frames, w, x.loop, x.world);
  }

  // A chosen thread that waits does so in the closest frame.
  lemma ChosenIsFree(sensitive: bool, loop: nat, frames: seq<nat>, ctx: Context, w: World, busy: set<Thread>)
    requires Ready(Async(loop), frames, ctx, w) && Accounted(busy, Async(loop), frames, w)
    ensures var choice := ChooseThread(sensitive, loop, ctx, w);
      choice.Success? && (choice.value.thread in busy ==> Serves(choice.value.thread, w.executors, frames))
  {
    ThreadChosen(sensitive, loop, frames, ctx, w);
  }

  lemma {:induction false} NoSelfDeadlock(p: Program, input: Value, at: Place, frames: seq<nat>, ctx: Context, w: World,
                                          busy: set<Thread>)
    requires Ready(at, frames, ctx, w) && Accounted(busy, at, frames, w)
    ensures NeverSentToBusy(p, input, at, frames, ctx, w, busy)
    decreases p, 1
  {
    match p
    case Then(_, _) => BothAreFree(p, input, at, frames, ctx, w, busy);
    case Try(_, _) => BothAreFree(p, input, at, frames, ctx, w, busy);
    case If(v, a, b) => NoSelfDeadlock(if Equal(input, v) then a else b, input, at, frames, ctx, w, busy);
    case Task(a) =>
      if at.Async? {
        NoSelfDeadlock(a, input, at, frames, ctx, w, busy);
      }
    case SyncToAsync(_, _) =>
      if at.Async? {
        HandIsFree(p, input, at.loop, frames, ctx, w, busy);
      }
    case AsyncToSync(_, _) =>
      if at.Sync? {
        CallIsFree(p, input, at.t, frames, ctx, w, busy);
      }
    case _ =>
  }

  lemma {:induction false} BothAreFree(p: Program, input: Value, at: Place, frames: seq<nat>, ctx: Context, w: World,
                                       busy: set<Thread>)
    requires InTwoParts(p)
    requires Ready(at, frames, ctx, w) && Accounted(busy, at, frames, w)
    ensures NeverSentToBusy(p, input, at, frames, ctx, w, busy)
    decreases p, 0
  {
    NoSelfDeadlock(First(p), input, at, frames, ctx, w, busy);
    BridgeIsTransparent(First(p), input, at, frames, ctx, w);
    var r := RunBridged(First(p), input, at, frames, ctx, w);
    if GoesOn(p, r.outcome) {
      AccountedLater(busy, at, frames, w, r.world);
      NoSelfDeadlock(Rest(p), Passed(p, r.outcome, input), at, frames, r.ctx, r.world, busy);
    }
    InTwoAreFree(p, input, at, frames, ctx, w, busy);
  }

  lemma InTwoAreFree(p: Program, input: Value, at: Place, frames: seq<nat>, ctx: Context, w: World, busy: set<Thread>)
    requires InTwoParts(p) && NeverSentToBusy(First(p), input, at, frames, ctx, w, busy)
    requires var r := RunBridged(First(p), input, at, frames, ctx, w);
      GoesOn(p, r.outcome) ==>
        NeverSentToBusy(Rest(p), Passed(p, r.outcome, input), at, frames, r.ctx, r.world, busy)
    ensures NeverSentToBusy(p, input, at, frames, ctx, w, busy)
  {
  }

  lemma {:induction false} HandIsFree(p: Program, input: Value, loop: nat, frames: seq<nat>, ctx: Context, w: World,
                                      busy: set<Thread>)
    requires p.SyncToAsync?
    requires Ready(Async(loop), frames, ctx, w) && Accounted(busy, Async(loop), frames, w)
    ensures HandedToFree(p.sync, p.sensitive, input, loop, frames, ctx, w, busy)
    decreases p, 0
  {
    ChosenIsFree(p.sensitive, loop, frames, ctx, w, busy);
    var choice := ChooseThread(p.sensitive, loop, ctx, w).value;
    var t, context := choice.thread, Marked(ctx, choice);
    Entered(p.sensitive, loop, frames, ctx, w, choice);
    NoSelfDeadlock(p.sync, input, Sync(t), frames, Restored(context, context, t),
                   Hand(w, p.sensitive, t, loop, ctx, frames), busy + {t});
  }

  lemma {:induction false} CallIsFree(p: Program, input: Value, t: Thread, frames: seq<nat>, ctx: Context, w: World,
                                      busy: set<Thread>)
    requires p.AsyncToSync?
    requires Ready(Sync(t), frames, ctx, w) && Accounted(busy, Sync(t), frames, w)
    ensures CalledToFree(p.coro, p.forceNewLoop, input, t, frames, ctx, w, busy)
    decreases p, 0
  {
    var x := EnterCall(p.forceNewLoop, t, frames, ctx, w);
    CallAccounted(p.forceNewLoop, t, frames, ctx, w, busy, x);
    NoSelfDeadlock(p.coro, input, Async(x.loop), [|w.executors|] + frames, x.inner, x.world, busy);
  }
}
