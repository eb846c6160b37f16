// What every reachable state of the executor protocol satisfies.
module ExecutorInvariant {
  import opened Wrappers
  import opened ExecutorProtocol

  // What the runner has taken out of the queue and is not through with.
  function InHand(r: Runner): (items: seq<ItemId>) {
    if r.Popped? || r.Executing? then [r.item] else []
  }

  // An executor on its own: its flag, its callback, its runner and its queue agree.
  ghost predicate ExecutorOk(x: Executor) {
    && (x.broken <==> x.callback.Fired?)
    && (x.callback.Firing? || x.callback.Fired? ==> x.futureDone)
    && (x.callback.Armed? ==> !x.futureDone)
    && (x.runner.Idle? <==> x.callback.Unregistered?)
    && (x.runner.Inline? ==> x.callback.Firing?)
    && (x.runner == Parked(false) ==> x.queue == [] && !x.broken)
    && (x.runner.Returned? ==> x.queue == [] && x.broken)
    && (x.loopPhase.Inside? ==> !x.futureDone)
    && x.accepted == x.served + InHand(x.runner) + x.queue
  }

  ghost predicate Executors(s: State) {
    forall e | 0 <= e < |s.executors| ::
      ExecutorOk(s.executors[e])
      && (s.executors[e].parent.Some? ==> s.executors[e].parent.value < e)
  }

  ghost predicate NoRepeats<T>(q: seq<T>) {
    forall j, k | 0 <= j < k < |q| :: q[j] != q[k]
  }

  // An item is in the history of exactly the executor that accepted it, once.
  ghost predicate Placement(s: State) {
    && (forall e, k | 0 <= e < |s.executors| && 0 <= k < |s.executors[e].accepted| ::
          s.executors[e].accepted[k] < |s.items|
          && s.items[s.executors[e].accepted[k]].phase == Accepted(e))
    && (forall i | 0 <= i < |s.items| && s.items[i].phase.Accepted? ::
          s.items[i].phase.host < |s.executors| && i in s.executors[s.items[i].phase.host].accepted)
    && (forall e | 0 <= e < |s.executors| :: NoRepeats(s.executors[e].accepted))
  }

  // The future of an item tells how far its executor has got with it.
  ghost predicate Futures(s: State) {
    && (forall e | 0 <= e < |s.executors| :: FuturesOf(s.executors[e], s.items))
    && (forall i | 0 <= i < |s.items| && !s.items[i].phase.Accepted? :: s.items[i].future.Pending?)
  }

  ghost predicate FuturesOf(x: Executor, items: seq<Item>) {
    && (forall k | 0 <= k < |x.served| :: x.served[k] < |items| && Over(items[x.served[k]].future))
    && (forall k | 0 <= k < |x.queue| :: x.queue[k] < |items| && Waiting(items[x.queue[k]].future))
    && (x.runner.Popped? ==> x.runner.item < |items| && Waiting(items[x.runner.item].future))
    && (x.runner.Executing? ==> x.runner.item < |items| && items[x.runner.item].future.Running?)
  }

  predicate Waiting(f: FutureState) { f.Pending? || f.Cancelled? }

  predicate Over(f: FutureState) { f.Finished? || f.Dropped? }

  function Occurs(h: seq<Event>, ev: Event): nat {
    multiset(h)[ev]
  }

  // The history mentions an item exactly as often as its future's state allows.
  ghost predicate HistoryOf(h: seq<Event>, i: ItemId, f: FutureState) {
    && Occurs(h, Started(i)) == (if f.Running? || f.Finished? then 1 else 0)
    && Occurs(h, Settled(i)) == (if f.Finished? then 1 else 0)
    && Occurs(h, Skipped(i)) == (if f.Dropped? then 1 else 0)
    && Occurs(h, CancelledBy(i)) == (if f.Cancelled? || f.Dropped? then 1 else 0)
  }

  ghost predicate History(s: State) {
    && (forall i | 0 <= i < |s.items| :: HistoryOf(s.history, i, s.items[i].future))
    && (forall ev | ev in s.history :: ev.item < |s.items|)
  }

  // `at` is on the chain from `start`, and every executor before it is broken.
  ghost predicate Passed(xs: seq<Executor>, start: ExecutorId, at: ExecutorId)
    decreases start
  {
    && start < |xs|
    && (start == at
        || (xs[start].broken && xs[start].parent.Some? && xs[start].parent.value < start
            && Passed(xs, xs[start].parent.value, at)))
  }

  ghost predicate AllBroken(xs: seq<Executor>, start: ExecutorId)
    decreases start
  {
    && start < |xs| && xs[start].broken
    && (xs[start].parent.Some? ==>
          xs[start].parent.value < start && AllBroken(xs, xs[start].parent.value))
  }

  ghost predicate Walks(s: State) {
    forall i | 0 <= i < |s.items| :: WalkOf(s.executors, s.items[i])
  }

  // An item on its way has only broken executors behind it; one turned away, on all sides.
  ghost predicate WalkOf(xs: seq<Executor>, it: Item) {
    && it.start < |xs|
    && it.submitter != xs[it.start].thread
    && (it.phase.Walking? ==> Passed(xs, it.start, it.phase.at))
    && (it.phase.Refused? ==> AllBroken(xs, it.start))
  }

  ghost predicate LoopTable(s: State) {
    && (forall l | l in s.loops ::
          l < s.nextLoop && s.loops[l] < |s.executors| && s.executors[s.loops[l]].loopPhase == Inside(l))
    && (forall e | 0 <= e < |s.executors| && s.executors[e].loopPhase.Inside? ::
          s.executors[e].loopPhase.loop in s.loops && s.loops[s.executors[e].loopPhase.loop] == e)
  }

  ghost predicate Invariant(s: State) {
    Executors(s) && Placement(s) && Futures(s) && History(s) && Walks(s) && LoopTable(s)
  }

  // ---------------------------------------------------------------------------------------
  // Every action keeps every part
  // ---------------------------------------------------------------------------------------

  lemma RegionsKeepExecutorOk(x: Executor, i: ItemId)
    requires ExecutorOk(x)
    ensures !x.broken ==> ExecutorOk(Offer(x, i))
    ensures x.callback.Firing? ==> ExecutorOk(Break(x))
    ensures x.runner.Idle? ==> ExecutorOk(Register(x))
    ensures !x.futureDone && !x.loopPhase.Inside? ==> ExecutorOk(FutureResolved(x))
    ensures ReadyToTake(x.runner) ==> ExecutorOk(TakeNext(x))
    ensures InHand(x.runner) == [i] ==> ExecutorOk(Serve(x, i)) && ExecutorOk(x.(runner := Executing(i)))
  {
    if InHand(x.runner) == [i] {
      assert x.served + [i] + x.queue == (x.served + [i]) + [] + x.queue;
    }
    if ReadyToTake(x.runner) && x.queue != [] {
      assert x.queue == [x.queue[0]] + x.queue[1..];
    }
  }

  lemma PutKeepsExecutors(s: State, e: ExecutorId, x: Executor)
    requires Executors(s) && e < |s.executors| && ExecutorOk(x) && x.parent == s.executors[e].parent
    ensures Executors(Put(s, e, x))
  {
  }

  lemma KeepsExecutors(s: State, a: Action)
    requires Executors(s) && Enabled(s, a)
    ensures Executors(Apply(s, a))
  {
    match a
    case Create(_, _, _) =>
    case EnterRun(e) =>
      RegionsKeepExecutorOk(s.executors[e], 0);
      PutKeepsExecutors(s, e, Register(s.executors[e]));
    case SettleFuture(e) =>
      RegionsKeepExecutorOk(s.executors[e], 0);
      PutKeepsExecutors(s, e, FutureResolved(s.executors[e]));
    case Done(e) =>
      RegionsKeepExecutorOk(s.executors[e], 0);
      PutKeepsExecutors(s, e, Break(s.executors[e]));
    case Take(e) =>
      RegionsKeepExecutorOk(s.executors[e], 0);
      PutKeepsExecutors(s, e, TakeNext(s.executors[e]));
    case Start(e) =>
      var i := s.executors[e].runner.item;
      RegionsKeepExecutorOk(s.executors[e], i);
      PutKeepsExecutors(s, e, Serve(s.executors[e], i));
      PutKeepsExecutors(s, e, s.executors[e].(runner := Executing(i)));
    case Finish(e) =>
      var i := s.executors[e].runner.item;
      RegionsKeepExecutorOk(s.executors[e], i);
      PutKeepsExecutors(s, e, Serve(s.executors[e], i));
    case Call(_, _) =>
    case Visit(i) =>
      var at := s.items[i].phase.at;
      if !s.executors[at].broken {
        RegionsKeepExecutorOk(s.executors[at], i);
        PutKeepsExecutors(s, at, Offer(s.executors[at], i));
      }
    case Cancel(_) =>
    case EnterLoop(e) => PutKeepsExecutors(s, e, s.executors[e].(loopPhase := Inside(s.nextLoop)));
    case LeaveLoop(e) => PutKeepsExecutors(s, e, s.executors[e].(loopPhase := Left));
  }

  predicate Appends(s: State, a: Action) {
    a.Visit? && Enabled(s, a) && !s.executors[s.items[a.i].phase.at].broken
  }

  // Nothing was accepted, and nothing accepted was moved.
  ghost predicate SamePlacement(s: State, t: State) {
    && |s.executors| <= |t.executors| && |s.items| <= |t.items|
    && (forall e | 0 <= e < |s.executors| :: t.executors[e].accepted == s.executors[e].accepted)
    && (forall e | |s.executors| <= e < |t.executors| :: t.executors[e].accepted == [])
    && (forall i | 0 <= i < |s.items| ::
          t.items[i].phase == s.items[i].phase || !(s.items[i].phase.Accepted? || t.items[i].phase.Accepted?))
    && (forall i | |s.items| <= i < |t.items| :: !t.items[i].phase.Accepted?)
  }

  lemma OthersPlaceNothing(s: State, a: Action)
    requires Enabled(s, a) && !Appends(s, a)
    ensures SamePlacement(s, Apply(s, a))
  {
  }

  lemma KeepsPlacement(s: State, a: Action)
    requires Placement(s) && Enabled(s, a)
    ensures Placement(Apply(s, a))
  {
    if Appends(s, a) {
      OfferKeepsPlacement(s, a.i, s.items[a.i].phase.at);
    } else {
      OthersPlaceNothing(s, a);
      SamePlacementKeeps(s, Apply(s, a));
    }
  }

  lemma SamePlacementKeeps(s: State, t: State)
    requires Placement(s) && SamePlacement(s, t)
    ensures Placement(t)
  {
    forall i | 0 <= i < |t.items| && t.items[i].phase.Accepted?
      ensures t.items[i].phase.host < |t.executors| && i in t.executors[t.items[i].phase.host].accepted
    {
      assert t.items[i].phase == s.items[i].phase;
    }
  }

  lemma OfferKeepsPlacement(s: State, i: ItemId, at: ExecutorId)
    requires Placement(s) && i < |s.items| && at < |s.executors| && !s.items[i].phase.Accepted?
    ensures Placement(PutItem(Put(s, at, Offer(s.executors[at], i)), i, s.items[i].(phase := Accepted(at))))
  {
    var t := PutItem(Put(s, at, Offer(s.executors[at], i)), i, s.items[i].(phase := Accepted(at)));
    var x, y := s.executors[at], t.executors[at];
    assert i !in x.accepted;
    assert y.accepted[|x.accepted|] == i;
    forall j | 0 <= j < |t.items| && t.items[j].phase.Accepted?
      ensures t.items[j].phase.host < |t.executors| && j in t.executors[t.items[j].phase.host].accepted
    {
      if j != i && t.items[j].phase.host == at {
        assert j in x.accepted;
      }
    }
  }

  lemma KeepsLoopTable(s: State, a: Action)
    requires LoopTable(s) && Enabled(s, a)
    ensures LoopTable(Apply(s, a))
  {
    if !a.EnterLoop? && !a.LeaveLoop? {
      OthersKeepPhases(s, a);
    }
  }

  lemma OthersKeepPhases(s: State, a: Action)
    requires Enabled(s, a) && !a.EnterLoop? && !a.LeaveLoop?
    ensures Apply(s, a).loops == s.loops && Apply(s, a).nextLoop == s.nextLoop
    ensures |s.executors| <= |Apply(s, a).executors|
    ensures forall e | 0 <= e < |s.executors| :: Apply(s, a).executors[e].loopPhase == s.executors[e].loopPhase
    ensures forall e | |s.executors| <= e < |Apply(s, a).executors| :: !Apply(s, a).executors[e].loopPhase.Inside?
  {
  }

  // One event about item `i` is written down, and its future moves accordingly.
  lemma LogKeepsHistory(s: State, i: ItemId, f: FutureState, ev: Event)
    requires History(s) && i < |s.items| && ev.item == i
    requires
      || (ev.Started? && Waiting(s.items[i].future) && !s.items[i].future.Cancelled? && f.Running?)
      || (ev.Skipped? && s.items[i].future.Cancelled? && f.Dropped?)
      || (ev.Settled? && s.items[i].future.Running? && f.Finished?)
      || (ev.CancelledBy? && s.items[i].future.Pending? && f.Cancelled?)
    ensures History(Log(PutItem(s, i, s.items[i].(future := f)), ev))
  {
    var t := Log(PutItem(s, i, s.items[i].(future := f)), ev);
    assert multiset(t.history) == multiset(s.history) + multiset{ev};
    assert HistoryOf(s.history, i, s.items[i].future);
    forall j | 0 <= j < |t.items| ensures HistoryOf(t.history, j, t.items[j].future) {
      assert HistoryOf(s.history, j, s.items[j].future);
    }
  }

  lemma NewItemKeepsHistory(s: State, it: Item)
    requires History(s) && it.future.Pending?
    ensures History(s.(items := s.items + [it]))
  {
    forall ev: Event | ev.item == |s.items| ensures Occurs(s.history, ev) == 0 {
      assert ev !in s.history;
    }
  }

  lemma KeepsHistory(s: State, a: Action)
    requires Futures(s) && History(s) && Enabled(s, a)
    ensures History(Apply(s, a))
  {
    match a
    case Start(e) =>
      var i := s.executors[e].runner.item;
      var x := if s.items[i].future.Cancelled? then Serve(s.executors[e], i)
               else s.executors[e].(runner := Executing(i));
      var (f, ev) := if s.items[i].future.Cancelled? then (Dropped, Skipped(i)) else (Running, Started(i));
      LogKeepsHistory(Put(s, e, x), i, f, ev);
    case Finish(e) =>
      var i := s.executors[e].runner.item;
      LogKeepsHistory(Put(s, e, Serve(s.executors[e], i)), i, Finished, Settled(i));
    case Cancel(i) => LogKeepsHistory(s, i, Cancelled, CancelledBy(i));
    case Call(thread, e) => NewItemKeepsHistory(s, Item(thread, e, Walking(e), Pending));
    case Visit(i) =>
      assert Apply(s, a).history == s.history;
      assert forall j | 0 <= j < |s.items| :: Apply(s, a).items[j].future == s.items[j].future;
    case _ =>
      assert Apply(s, a).history == s.history && Apply(s, a).items == s.items;
  }

  // An item that is not among an executor's accepted ones may change at will.
  lemma ForeignItem(x: Executor, items: seq<Item>, i: ItemId, it: Item)
    requires ExecutorOk(x) && FuturesOf(x, items) && i < |items| && i !in x.accepted
    ensures FuturesOf(x, items[i := it])
  {
    assert forall k | 0 <= k < |x.served| :: x.served[k] in x.accepted by {
      assert forall k | 0 <= k < |x.served| :: x.accepted[k] == x.served[k];
    }
    var d := |x.served| + |InHand(x.runner)|;
    assert forall k | 0 <= k < |x.queue| :: x.queue[k] in x.accepted by {
      assert forall k | 0 <= k < |x.queue| :: x.accepted[d + k] == x.queue[k];
    }
    if InHand(x.runner) != [] {
      assert x.accepted[|x.served|] == x.runner.item;
    }
  }

  // The item in the runner's hand may move on, being nowhere else.
  lemma ItemInHand(x: Executor, items: seq<Item>, i: ItemId, f: FutureState)
    requires ExecutorOk(x) && NoRepeats(x.accepted) && FuturesOf(x, items)
    requires InHand(x.runner) == [i] && i < |items|
    ensures Over(f) ==> FuturesOf(Serve(x, i), items[i := items[i].(future := f)])
    ensures f.Running? ==> FuturesOf(x.(runner := Executing(i)), items[i := items[i].(future := f)])
  {
    var n := |x.served|;
    assert x.accepted[n] == i;
    assert forall k | 0 <= k < n :: x.accepted[k] == x.served[k] && x.served[k] != i;
    assert forall k | 0 <= k < |x.queue| :: x.accepted[n + 1 + k] == x.queue[k] && x.queue[k] != i;
  }

  // A queued item that is cancelled keeps waiting for its turn.
  lemma CancelledInPlace(x: Executor, items: seq<Item>, i: ItemId)
    requires FuturesOf(x, items) && i < |items| && items[i].future.Pending?
    ensures FuturesOf(x, items[i := items[i].(future := Cancelled)])
  {
  }

  // Executor `e` and one item it has accepted change together.
  lemma PairKeepsFutures(s: State, e: ExecutorId, x: Executor, i: ItemId, it: Item)
    requires Executors(s) && Placement(s) && Futures(s)
    requires e < |s.executors| && i < |s.items| && s.items[i].phase == Accepted(e) == it.phase
    requires FuturesOf(x, s.items[i := it])
    ensures Futures(PutItem(Put(s, e, x), i, it))
  {
    var t := PutItem(Put(s, e, x), i, it);
    forall d | 0 <= d < |t.executors| ensures FuturesOf(t.executors[d], t.items) {
      if d != e {
        assert i !in s.executors[d].accepted;
        ForeignItem(s.executors[d], s.items, i, it);
      }
    }
  }

  lemma HandedItem(s: State, e: ExecutorId)
    requires Executors(s) && Placement(s) && e < |s.executors| && InHand(s.executors[e].runner) != []
    ensures var i := s.executors[e].runner.item; i < |s.items| && s.items[i].phase == Accepted(e)
  {
    var x := s.executors[e];
    assert x.accepted[|x.served|] == x.runner.item;
  }

  // No future moves; executor `e` alone changes.
  lemma RegionKeepsFutures(s: State, e: ExecutorId, x: Executor)
    requires Futures(s) && e < |s.executors| && FuturesOf(x, s.items)
    ensures Futures(Put(s, e, x))
  {
  }

  lemma OfferKeepsFutures(s: State, i: ItemId, at: ExecutorId)
    requires Futures(s) && i < |s.items| && at < |s.executors| && !s.items[i].phase.Accepted?
    ensures Futures(PutItem(Put(s, at, Offer(s.executors[at], i)), i, s.items[i].(phase := Accepted(at))))
  {
    var x := s.executors[at];
    RegionKeepsFutures(s, at, Offer(x, i));
    PhaseKeepsFutures(Put(s, at, Offer(x, i)), i, Accepted(at));
  }

  lemma PhaseKeepsFutures(s: State, i: ItemId, phase: Phase)
    requires Futures(s) && i < |s.items| && s.items[i].future.Pending?
    ensures Futures(PutItem(s, i, s.items[i].(phase := phase)))
  {
    var t := PutItem(s, i, s.items[i].(phase := phase));
    assert forall j | 0 <= j < |s.items| :: t.items[j].future == s.items[j].future;
    forall e | 0 <= e < |t.executors| ensures FuturesOf(t.executors[e], t.items) {
      assert FuturesOf(s.executors[e], s.items);
    }
  }

  lemma StartKeepsFutures(s: State, e: ExecutorId)
    requires Executors(s) && Placement(s) && Futures(s) && Enabled(s, Start(e))
    ensures Futures(Apply(s, Start(e)))
  {
    HandedItem(s, e);
    var x, i := s.executors[e], s.executors[e].runner.item;
    if s.items[i].future.Cancelled? {
      ItemInHand(x, s.items, i, Dropped);
      PairKeepsFutures(s, e, Serve(x, i), i, s.items[i].(future := Dropped));
    } else {
      ItemInHand(x, s.items, i, Running);
      PairKeepsFutures(s, e, x.(runner := Executing(i)), i, s.items[i].(future := Running));
    }
  }

  lemma FinishKeepsFutures(s: State, e: ExecutorId)
    requires Executors(s) && Placement(s) && Futures(s) && Enabled(s, Finish(e))
    ensures Futures(Apply(s, Finish(e)))
  {
    HandedItem(s, e);
    var i := s.executors[e].runner.item;
    ItemInHand(s.executors[e], s.items, i, Finished);
    PairKeepsFutures(s, e, Serve(s.executors[e], i), i, s.items[i].(future := Finished));
  }

  lemma VisitKeepsFutures(s: State, i: ItemId)
    requires Futures(s) && Enabled(s, Visit(i))
    ensures Futures(Apply(s, Visit(i)))
  {
    if Appends(s, Visit(i)) {
      OfferKeepsFutures(s, i, s.items[i].phase.at);
    } else {
      PhaseKeepsFutures(s, i, Apply(s, Visit(i)).items[i].phase);
    }
  }

  lemma CancelKeepsFutures(s: State, i: ItemId)
    requires Executors(s) && Placement(s) && Futures(s) && Enabled(s, Cancel(i))
    ensures Futures(Apply(s, Cancel(i)))
  {
    var e := s.items[i].phase.host;
    CancelledInPlace(s.executors[e], s.items, i);
    PairKeepsFutures(s, e, s.executors[e], i, s.items[i].(future := Cancelled));
    assert Put(s, e, s.executors[e]) == s;
  }

  lemma CallbackKeepsFutures(s: State, a: Action)
    requires a.EnterRun? || a.SettleFuture? || a.Done?
    requires Futures(s) && Enabled(s, a)
    ensures Futures(Apply(s, a))
  {
    var x := s.executors[a.e];
    RegionKeepsFutures(s, a.e, if a.EnterRun? then Register(x) else if a.Done? then Break(x) else FutureResolved(x));
  }

  lemma TakeKeepsFutures(s: State, e: ExecutorId)
    requires Futures(s) && Enabled(s, Take(e))
    ensures Futures(Apply(s, Take(e)))
  {
    RegionKeepsFutures(s, e, TakeNext(s.executors[e]));
  }

  lemma LoopKeepsFutures(s: State, a: Action)
    requires a.EnterLoop? || a.LeaveLoop?
    requires Futures(s) && Enabled(s, a)
    ensures Futures(Apply(s, a))
  {
    RegionKeepsFutures(s, a.e, s.executors[a.e].(loopPhase := if a.EnterLoop? then Inside(s.nextLoop) else Left));
  }

  // Nothing has happened yet to a new executor or a new item.
  lemma NewKeepsFutures(s: State, a: Action)
    requires a.Create? || a.Call?
    requires Futures(s) && Enabled(s, a)
    ensures Futures(Apply(s, a))
  {
    var t := Apply(s, a);
    forall e | 0 <= e < |t.executors| ensures FuturesOf(t.executors[e], t.items) {
      assert e < |s.executors| ==> FuturesOf(s.executors[e], s.items);
    }
  }

  lemma KeepsFutures(s: State, a: Action)
    requires Executors(s) && Placement(s) && Futures(s) && Enabled(s, a)
    ensures Futures(Apply(s, a))
  {
    match a
    case Create(_, _, _) => NewKeepsFutures(s, a);
    case Call(_, _) => NewKeepsFutures(s, a);
    case Take(e) => TakeKeepsFutures(s, e);
    case Start(e) => StartKeepsFutures(s, e);
    case Finish(e) => FinishKeepsFutures(s, e);
    case Visit(i) => VisitKeepsFutures(s, i);
    case Cancel(i) => CancelKeepsFutures(s, i);
    case EnterLoop(_) => LoopKeepsFutures(s, a);
    case LeaveLoop(_) => LoopKeepsFutures(s, a);
    case _ => CallbackKeepsFutures(s, a);
  }

  lemma {:induction false} PassedLater(xs: seq<Executor>, ys: seq<Executor>, start: ExecutorId, at: ExecutorId)
    requires Extends(xs, ys) && Passed(xs, start, at)
    ensures Passed(ys, start, at)
    decreases start
  {
    if start != at {
      PassedLater(xs, ys, xs[start].parent.value, at);
    }
  }

  lemma {:induction false} AllBrokenLater(xs: seq<Executor>, ys: seq<Executor>, start: ExecutorId)
    requires Extends(xs, ys) && AllBroken(xs, start)
    ensures AllBroken(ys, start)
    decreases start
  {
    if xs[start].parent.Some? {
      AllBrokenLater(xs, ys, xs[start].parent.value);
    }
  }

  // Executors are only added, keep thread and parent, and once broken stay broken.
  ghost predicate Extends(xs: seq<Executor>, ys: seq<Executor>) {
    && |xs| <= |ys|
    && (forall e | 0 <= e < |xs| ::
          xs[e].thread == ys[e].thread && xs[e].parent == ys[e].parent && (xs[e].broken ==> ys[e].broken))
  }

  lemma ExtendsByStep(s: State, a: Action)
    requires Enabled(s, a)
    ensures Extends(s.executors, Apply(s, a).executors)
  {
  }

  // One more broken executor passed.
  lemma {:induction false} PassOneMore(xs: seq<Executor>, start: ExecutorId, at: ExecutorId)
    requires Passed(xs, start, at) && at < |xs| && xs[at].broken
    requires forall e | 0 <= e < |xs| && xs[e].parent.Some? :: xs[e].parent.value < e
    ensures xs[at].parent.Some? ==> Passed(xs, start, xs[at].parent.value)
    ensures xs[at].parent.None? ==> AllBroken(xs, start)
    decreases start
  {
    if start != at {
      PassOneMore(xs, xs[start].parent.value, at);
    }
  }

  lemma WalkLater(xs: seq<Executor>, ys: seq<Executor>, it: Item)
    requires Extends(xs, ys) && WalkOf(xs, it)
    ensures WalkOf(ys, it)
  {
    if it.phase.Walking? {
      PassedLater(xs, ys, it.start, it.phase.at);
    } else if it.phase.Refused? {
      AllBrokenLater(xs, ys, it.start);
    }
  }

  // Outside `Visit` an old item keeps its place on its walk.
  lemma OthersWalkNowhere(s: State, a: Action, i: ItemId)
    requires Enabled(s, a) && i < |s.items| && a != Visit(i)
    ensures |s.items| <= |Apply(s, a).items|
    ensures Apply(s, a).items[i].(future := s.items[i].future) == s.items[i]
  {
  }

  lemma KeepsWalks(s: State, a: Action)
    requires Executors(s) && Walks(s) && Enabled(s, a)
    ensures Walks(Apply(s, a))
  {
    var t := Apply(s, a);
    ExtendsByStep(s, a);
    forall i | 0 <= i < |t.items| ensures WalkOf(t.executors, t.items[i]) {
      if i < |s.items| {
        WalkLater(s.executors, t.executors, s.items[i]);
        if a == Visit(i) {
          if s.executors[s.items[i].phase.at].broken {
            PassOneMore(s.executors, s.items[i].start, s.items[i].phase.at);
          }
        } else {
          OthersWalkNowhere(s, a, i);
        }
      }
    }
  }

  lemma KeepsInvariant(s: State, a: Action)
    requires Invariant(s) && Enabled(s, a)
    ensures Invariant(Apply(s, a))
  {
    KeepsExecutors(s, a);
    KeepsPlacement(s, a);
    KeepsFutures(s, a);
    KeepsHistory(s, a);
    KeepsWalks(s, a);
    KeepsLoopTable(s, a);
  }

  // Every state of every run.
  lemma {:induction false} RunKeepsInvariant(s: State, acts: seq<Action>)
    requires Invariant(s) && IsRun(s, acts)
    ensures Invariant(Run(s, acts))
    decreases |acts|
  {
    if acts != [] {
      KeepsInvariant(s, acts[0]);
      RunKeepsInvariant(Apply(s, acts[0]), acts[1..]);
    }
  }

  lemma ReachableStates(acts: seq<Action>)
    requires IsRun(INITIAL, acts)
    ensures Invariant(Run(INITIAL, acts))
  {
    RunKeepsInvariant(INITIAL, acts);
  }
}
