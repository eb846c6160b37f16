/**
 * What the executor protocol promises over whole runs: `submit` is atomic, every accepted item
 * is served exactly once, no runner sleeps through work, and nothing is left behind.
 */
module ExecutorTheorems {
  import opened Wrappers
  import opened ExecutorProtocol
  import opened ExecutorInvariant

  // ---------------------------------------------------------------------------------------
  // submit is atomic
  // ---------------------------------------------------------------------------------------

  ghost predicate Chained(xs: seq<Executor>) {
    forall e | 0 <= e < |xs| && xs[e].parent.Some? :: xs[e].parent.value < e
  }

  // The closest executor, from `e` up its chain, that is still running.
  function FirstRunning(xs: seq<Executor>, e: ExecutorId): (first: Option<ExecutorId>)
    requires Chained(xs) && e < |xs|
    ensures first.Some? ==> first.value <= e && !xs[first.value].broken
    decreases e
  {
    if !xs[e].broken then Some(e)
    else if xs[e].parent.None? then None
    else FirstRunning(xs, xs[e].parent.value)
  }

  // The whole of `submit` in one step.
  function SubmitAtOnce(s: State, i: ItemId): State
    requires Chained(s.executors) && i < |s.items| && s.items[i].start < |s.executors|
  {
    match FirstRunning(s.executors, s.items[i].start)
    case Some(e) => PutItem(Put(s, e, Offer(s.executors[e], i)), i, s.items[i].(phase := Accepted(e)))
    case None => PutItem(s, i, s.items[i].(phase := Refused))
  }

  // The atomic protocol: the same actions, except that an item is submitted in one step.
  datatype AtomicAction = Other(action: Action) | Submit(i: ItemId)

  ghost predicate AtomicEnabled(s: State, a: AtomicAction) {
    match a
    case Other(b) => !b.Visit? && Enabled(s, b)
    case Submit(i) =>
      Chained(s.executors) && i < |s.items| && s.items[i].start < |s.executors|
      && s.items[i].phase == Walking(s.items[i].start)
  }

  ghost function AtomicApply(s: State, a: AtomicAction): State
    requires AtomicEnabled(s, a)
  {
    match a
    case Other(b) => Apply(s, b)
    case Submit(i) => SubmitAtOnce(s, i)
  }

  ghost predicate IsAtomicRun(s: State, acts: seq<AtomicAction>)
    decreases |acts|
  {
    acts == [] || (AtomicEnabled(s, acts[0]) && IsAtomicRun(AtomicApply(s, acts[0]), acts[1..]))
  }

  ghost function AtomicRun(s: State, acts: seq<AtomicAction>): State
    requires IsAtomicRun(s, acts)
    decreases |acts|
  {
    if acts == [] then s else AtomicRun(AtomicApply(s, acts[0]), acts[1..])
  }

  // How the atomic protocol sees an item: one on its way has not been looked at yet.
  function Unmoved(it: Item): Item {
    if it.phase.Walking? then it.(phase := Walking(it.start)) else it
  }

  function Abstract(s: State): (t: State)
    ensures t.executors == s.executors && |t.items| == |s.items|
    ensures forall i | 0 <= i < |s.items| :: t.items[i] == Unmoved(s.items[i])
  {
    s.(items := seq(|s.items|, i requires 0 <= i < |s.items| => Unmoved(s.items[i])))
  }

  // What an action is to the atomic protocol; climbing past a broken executor is nothing.
  function Seen(s: State, a: Action): seq<AtomicAction>
    requires Enabled(s, a)
  {
    if !a.Visit? then [Other(a)]
    else
      var x := s.executors[s.items[a.i].phase.at];
      if x.broken && x.parent.Some? then [] else [Submit(a.i)]
  }

  function Linearize(s: State, acts: seq<Action>): seq<AtomicAction>
    requires IsRun(s, acts)
    decreases |acts|
  {
    if acts == [] then [] else Seen(s, acts[0]) + Linearize(Apply(s, acts[0]), acts[1..])
  }

  // The walk from `start` reaches `at`, so both find the same running executor.
  lemma {:induction false} WalkFindsFirst(xs: seq<Executor>, start: ExecutorId, at: ExecutorId)
    requires Chained(xs) && Passed(xs, start, at)
    ensures at < |xs| && FirstRunning(xs, start) == FirstRunning(xs, at)
    decreases start
  {
    if start != at {
      WalkFindsFirst(xs, xs[start].parent.value, at);
    }
  }

  lemma {:induction false} NoneRunning(xs: seq<Executor>, e: ExecutorId)
    requires Chained(xs) && e < |xs|
    ensures FirstRunning(xs, e).None? <==> AllBroken(xs, e)
    ensures FirstRunning(xs, e).Some? ==>
      FirstRunning(xs, e).value < |xs| && !xs[FirstRunning(xs, e).value].broken
        && Passed(xs, e, FirstRunning(xs, e).value)
    decreases e
  {
    if xs[e].broken && xs[e].parent.Some? {
      NoneRunning(xs, xs[e].parent.value);
    }
  }

  // The step of the walk that settles the matter does what `submit` at once would have done,
  // whatever the other threads did during the walk.
  lemma VisitIsSubmit(s: State, i: ItemId)
    requires Invariant(s) && Enabled(s, Visit(i)) && Seen(s, Visit(i)) != []
    ensures AtomicEnabled(Abstract(s), Submit(i))
    ensures Abstract(Apply(s, Visit(i))) == AtomicApply(Abstract(s), Submit(i))
  {
    var it := s.items[i];
    assert WalkOf(s.executors, it);
    WalkFindsFirst(s.executors, it.start, it.phase.at);
    var t, u := Apply(s, Visit(i)), SubmitAtOnce(Abstract(s), i);
    assert Abstract(t).items == u.items by {
      forall j | 0 <= j < |s.items| ensures Abstract(t).items[j] == u.items[j] {
      }
    }
  }

  lemma ClimbIsNothing(s: State, i: ItemId)
    requires Enabled(s, Visit(i)) && Seen(s, Visit(i)) == []
    ensures Abstract(Apply(s, Visit(i))) == Abstract(s)
  {
    assert Abstract(Apply(s, Visit(i))).items == Abstract(s).items;
  }

  lemma OthersAreThemselves(s: State, a: Action)
    requires Enabled(s, a) && !a.Visit?
    ensures Enabled(Abstract(s), a)
    ensures Abstract(Apply(s, a)) == Apply(Abstract(s), a)
  {
    assert Abstract(Apply(s, a)).items == Apply(Abstract(s), a).items;
  }

  // Linearizability: any run, with walks interleaved in any way, is a run of the atomic protocol.
  lemma {:induction false} SubmitIsLinearizable(s: State, acts: seq<Action>)
    requires Invariant(s) && IsRun(s, acts)
    ensures IsAtomicRun(Abstract(s), Linearize(s, acts))
    ensures AtomicRun(Abstract(s), Linearize(s, acts)) == Abstract(Run(s, acts))
    decreases |acts|
  {
    if acts != [] {
      var a := acts[0];
      KeepsInvariant(s, a);
      SubmitIsLinearizable(Apply(s, a), acts[1..]);
      var rest := Linearize(Apply(s, a), acts[1..]);
      if !a.Visit? {
        OthersAreThemselves(s, a);
        assert ([Other(a)] + rest)[1..] == rest;
      } else if Seen(s, a) == [] {
        ClimbIsNothing(s, a.i);
        assert [] + rest == rest;
      } else {
        VisitIsSubmit(s, a.i);
        assert ([Submit(a.i)] + rest)[1..] == rest;
      }
    }
  }

  // At the append the receiver is the first running executor of the caller's chain, and it is an
  // ancestor the walk has reached; at the RuntimeError every executor of the chain is broken.
  lemma SubmitOutcome(s: State, i: ItemId)
    requires Invariant(s) && Enabled(s, Visit(i))
    ensures var t := Apply(s, Visit(i));
      var first := FirstRunning(s.executors, s.items[i].start);
      && (t.items[i].phase.Accepted? ==>
            first == Some(t.items[i].phase.host)
            && Passed(s.executors, s.items[i].start, t.items[i].phase.host)
            && t.executors[t.items[i].phase.host].queue == s.executors[t.items[i].phase.host].queue + [i])
      && (t.items[i].phase.Refused? ==>
            first.None? && AllBroken(s.executors, s.items[i].start) && t.executors == s.executors)
      && (t.items[i].phase.Walking? ==>
            t.items[i].phase.at < s.items[i].phase.at && t.executors == s.executors)
  {
    assert WalkOf(s.executors, s.items[i]);
    WalkFindsFirst(s.executors, s.items[i].start, s.items[i].phase.at);
    NoneRunning(s.executors, s.items[i].start);
  }

  // ---------------------------------------------------------------------------------------
  // Conservation: accepted once, served once, in order
  // ---------------------------------------------------------------------------------------

  lemma Conservation(acts: seq<Action>, e: ExecutorId)
    requires IsRun(INITIAL, acts) && e < |Run(INITIAL, acts).executors|
    ensures var s := Run(INITIAL, acts);
      var x := s.executors[e];
      && x.accepted == x.served + InHand(x.runner) + x.queue
      && NoRepeats(x.accepted)
      && (forall d | 0 <= d < |s.executors| && d != e :: forall i | i in x.accepted :: i !in s.executors[d].accepted)
  {
    ReachableStates(acts);
  }

  // A served item was either run once and settled once, or skipped once because it had been
  // cancelled; nothing is settled or run before its turn.
  lemma ServedExactlyOnce(acts: seq<Action>, i: ItemId)
    requires IsRun(INITIAL, acts) && i < |Run(INITIAL, acts).items|
    ensures var s := Run(INITIAL, acts);
      var h := s.history;
      && Occurs(h, Started(i)) + Occurs(h, Skipped(i)) <= 1
      && Occurs(h, Settled(i)) + Occurs(h, CancelledBy(i)) <= 1
      && Occurs(h, Settled(i)) <= Occurs(h, Started(i))
      && Occurs(h, Skipped(i)) <= Occurs(h, CancelledBy(i))
      && (forall e | 0 <= e < |s.executors| && i in s.executors[e].served ::
            Occurs(h, Settled(i)) + Occurs(h, Skipped(i)) == 1
            && Occurs(h, Started(i)) == Occurs(h, Settled(i)))
      && (forall e | 0 <= e < |s.executors| && i in s.executors[e].queue ::
            Occurs(h, Started(i)) + Occurs(h, Skipped(i)) + Occurs(h, Settled(i)) == 0)
  {
    var s := Run(INITIAL, acts);
    ReachableStates(acts);
    assert HistoryOf(s.history, i, s.items[i].future);
    forall e | 0 <= e < |s.executors|
      ensures i in s.executors[e].served ==> Over(s.items[i].future)
      ensures i in s.executors[e].queue ==> Waiting(s.items[i].future)
    {
      assert FuturesOf(s.executors[e], s.items);
    }
  }

  // ---------------------------------------------------------------------------------------
  // Returning, waking, draining
  // ---------------------------------------------------------------------------------------

  // run_until_future returns only after its future is done, with everything accepted served.
  lemma ReturnsServed(s: State, e: ExecutorId)
    requires Invariant(s) && e < |s.executors| && s.executors[e].runner.Returned?
    ensures s.executors[e].futureDone && s.executors[e].broken && s.executors[e].queue == []
    ensures s.executors[e].served == s.executors[e].accepted
    ensures forall i | 0 <= i < |s.items| && s.items[i].phase == Accepted(e) :: Over(s.items[i].future)
  {
    var x := s.executors[e];
    assert ExecutorOk(x);
    assert x.accepted == x.served + [] + [] == x.served;
    forall i | 0 <= i < |s.items| && s.items[i].phase == Accepted(e) ensures Over(s.items[i].future) {
      assert i in x.served;
      var k :| 0 <= k < |x.served| && x.served[k] == i;
      assert FuturesOf(x, s.items);
    }
  }

  // A broken executor accepts nothing more and stays broken; a returned one stays as it is.
  lemma BrokenStep(s: State, a: Action, e: ExecutorId)
    requires Executors(s) && Enabled(s, a) && e < |s.executors| && s.executors[e].broken
    ensures e < |Apply(s, a).executors|
    ensures var x, y := s.executors[e], Apply(s, a).executors[e];
      && y.broken && y.accepted == x.accepted
      && (x.runner.Returned? ==> y.runner.Returned? && y.queue == x.queue)
  {
    assert ExecutorOk(s.executors[e]);
    if Appends(s, a) {
      assert s.items[a.i].phase.at != e;
    } else {
      OthersPlaceNothing(s, a);
    }
  }

  lemma {:induction false} BrokenForGood(s: State, acts: seq<Action>, e: ExecutorId)
    requires Executors(s) && IsRun(s, acts) && e < |s.executors| && s.executors[e].broken
    ensures e < |Run(s, acts).executors|
    ensures var x, y := s.executors[e], Run(s, acts).executors[e];
      && y.broken && y.accepted == x.accepted
      && (x.runner.Returned? ==> y.runner.Returned? && y.queue == x.queue)
    decreases |acts|
  {
    if acts != [] {
      BrokenStep(s, acts[0], e);
      KeepsExecutors(s, acts[0]);
      BrokenForGood(Apply(s, acts[0]), acts[1..], e);
    }
  }

  // No stranded work: after the return the queue is empty for ever, whichever walks are under way.
  lemma NothingStranded(s: State, acts: seq<Action>, e: ExecutorId)
    requires Invariant(s) && IsRun(s, acts)
    requires e < |s.executors| && s.executors[e].runner.Returned?
    ensures e < |Run(s, acts).executors|
    ensures var y := Run(s, acts).executors[e];
      y.queue == [] && y.runner.Returned? && y.accepted == y.served == s.executors[e].served
  {
    BrokenForGood(s, acts, e);
    RunKeepsInvariant(s, acts);
    ReturnsServed(s, e);
    ReturnsServed(Run(s, acts), e);
  }

  // Drain and return: what is served after the flag was set is exactly what was then in hand or
  // queued, in that order.
  lemma DrainsExactlyTheQueue(s: State, acts: seq<Action>, e: ExecutorId)
    requires Invariant(s) && IsRun(s, acts)
    requires e < |s.executors| && s.executors[e].broken
    requires e < |Run(s, acts).executors| && Run(s, acts).executors[e].runner.Returned?
    ensures var x, y := s.executors[e], Run(s, acts).executors[e];
      y.served == x.served + InHand(x.runner) + x.queue
  {
    assert ExecutorOk(s.executors[e]);
    BrokenForGood(s, acts, e);
    RunKeepsInvariant(s, acts);
    ReturnsServed(Run(s, acts), e);
  }

  // What the owner of executor `e` does next, if it can do anything.
  function OwnersTurn(x: Executor, e: ExecutorId): Option<Action> {
    match x.runner
    case AtLock => Some(Take(e))
    case Parked(notified) => if notified then Some(Take(e)) else None
    case Popped(_) => Some(Start(e))
    case Executing(_) => Some(Finish(e))
    case Inline => Some(Done(e))
    case Idle => None
    case Returned => None
  }

  // No lost wakeup: with work queued or the flag set, the owner is not asleep. It can step as
  // soon as it is inside run_until_future.
  lemma NoLostWakeup(acts: seq<Action>, e: ExecutorId)
    requires IsRun(INITIAL, acts) && e < |Run(INITIAL, acts).executors|
    ensures var s := Run(INITIAL, acts);
      var x := s.executors[e];
      x.queue != [] || x.broken ==>
        && x.runner != Parked(false)
        && (!x.runner.Idle? && !x.runner.Returned? ==>
              OwnersTurn(x, e).Some? && Enabled(s, OwnersTurn(x, e).value))
  {
    var s := Run(INITIAL, acts);
    ReachableStates(acts);
    assert ExecutorOk(s.executors[e]) && FuturesOf(s.executors[e], s.items);
  }

  // A finished future always gets the flag set: its callback has run or can run now.
  lemma FinishedFutureBreaks(acts: seq<Action>, e: ExecutorId)
    requires IsRun(INITIAL, acts) && e < |Run(INITIAL, acts).executors|
    requires Run(INITIAL, acts).executors[e].futureDone && !Run(INITIAL, acts).executors[e].runner.Idle?
    ensures Run(INITIAL, acts).executors[e].broken || Enabled(Run(INITIAL, acts), Done(e))
  {
    ReachableStates(acts);
    assert ExecutorOk(Run(INITIAL, acts).executors[e]);
  }

  // Steps the owner of a broken executor still has to take before run_until_future returns.
  function StepsLeft(x: Executor): nat {
    3 * |x.queue| + match x.runner
                    case Returned => 0
                    case Popped(_) => 3
                    case Executing(_) => 2
                    case _ => 1
  }

  // No other thread touches the runner or the queue of a broken executor.
  lemma OthersLeaveOwnerAlone(s: State, a: Action, e: ExecutorId)
    requires Executors(s) && Enabled(s, a) && e < |s.executors| && s.executors[e].broken
    requires OwnersTurn(s.executors[e], e) != Some(a)
    ensures e < |Apply(s, a).executors|
    ensures Apply(s, a).executors[e].runner == s.executors[e].runner
    ensures Apply(s, a).executors[e].queue == s.executors[e].queue
  {
    assert ExecutorOk(s.executors[e]);
    match a
    case Create(_, _, _) =>
    case EnterRun(d) => assert d != e;
    case SettleFuture(d) =>
    case Done(d) => assert d != e;
    case Take(d) => assert d != e;
    case Start(d) => assert d != e;
    case Finish(d) => assert d != e;
    case Call(_, _) =>
    case Visit(i) =>
    case Cancel(_) =>
    case EnterLoop(d) =>
    case LeaveLoop(d) =>
  }

  // Each step of the owner brings the return closer.
  lemma OwnersStepCounts(s: State, a: Action, e: ExecutorId)
    requires Executors(s) && Enabled(s, a) && e < |s.executors| && s.executors[e].broken
    requires OwnersTurn(s.executors[e], e) == Some(a)
    ensures e < |Apply(s, a).executors|
    ensures StepsLeft(Apply(s, a).executors[e]) < StepsLeft(s.executors[e])
  {
    assert ExecutorOk(s.executors[e]);
  }

  // Left to itself, the owner of a broken executor returns within that many steps.
  lemma {:induction false} OwnerReturns(s: State, e: ExecutorId) returns (acts: seq<Action>)
    requires Invariant(s) && e < |s.executors| && s.executors[e].broken
    ensures IsRun(s, acts) && |acts| <= StepsLeft(s.executors[e])
    ensures e < |Run(s, acts).executors| && Run(s, acts).executors[e].runner.Returned?
    decreases StepsLeft(s.executors[e])
  {
    acts := [];
    var x := s.executors[e];
    assert ExecutorOk(x) && FuturesOf(x, s.items);
    if !x.runner.Returned? {
      var a := OwnersTurn(x, e).value;
      OwnersStepCounts(s, a, e);
      KeepsInvariant(s, a);
      BrokenStep(s, a, e);
      var rest := OwnerReturns(Apply(s, a), e);
      acts := [a] + rest;
      assert acts[1..] == rest;
    }
  }

  // ---------------------------------------------------------------------------------------
  // The loop table
  // ---------------------------------------------------------------------------------------

  // A loop is listed exactly while its wrapper is inside the body, under the executor of the
  // call that made it, and that executor still takes work.
  lemma LoopTableIsExact(acts: seq<Action>, l: LoopId)
    requires IsRun(INITIAL, acts)
    ensures var s := Run(INITIAL, acts);
      && (l in s.loops <==> exists e :: 0 <= e < |s.executors| && s.executors[e].loopPhase == Inside(l))
      && (l in s.loops ==>
            s.loops[l] < |s.executors| && s.executors[s.loops[l]].loopPhase == Inside(l)
            && !s.executors[s.loops[l]].broken)
      && (forall e | 0 <= e < |s.executors| && s.executors[e].loopPhase == Inside(l) :: e == s.loops[l])
  {
    ReachableStates(acts);
  }
}
