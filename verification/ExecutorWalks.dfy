// submit ends: in every reachable state a walk can go on, and it is as short as its chain.
module ExecutorWalks {
  import opened Wrappers
  import opened ExecutorProtocol
  import opened ExecutorInvariant
  import opened ExecutorTheorems

  // How many executors there are from `e` up its chain.
  ghost function ChainLength(xs: seq<Executor>, e: ExecutorId): (n: nat)
    requires Chained(xs) && e < |xs|
    ensures 1 <= n <= e + 1
    decreases e
  {
    1 + if xs[e].parent.None? then 0 else ChainLength(xs, xs[e].parent.value)
  }

  lemma {:induction false} ChainLengthLater(xs: seq<Executor>, ys: seq<Executor>, e: ExecutorId)
    requires Chained(xs) && Chained(ys) && Extends(xs, ys) && e < |xs|
    ensures ChainLength(ys, e) == ChainLength(xs, e)
    decreases e
  {
    if xs[e].parent.Some? {
      ChainLengthLater(xs, ys, xs[e].parent.value);
    }
  }

  // In every reachable state the next turn of every submit that is on its way can be taken.
  lemma VisitIsEnabled(acts: seq<Action>, i: ItemId)
    requires IsRun(INITIAL, acts) && i < |Run(INITIAL, acts).items|
    requires Run(INITIAL, acts).items[i].phase.Walking?
    ensures Enabled(Run(INITIAL, acts), Visit(i))
  {
    var s := Run(INITIAL, acts);
    ReachableStates(acts);
    assert WalkOf(s.executors, s.items[i]);
    WalkFindsFirst(s.executors, s.items[i].start, s.items[i].phase.at);
  }

  // What is left of the walk of an item.
  ghost function Ahead(s: State, i: ItemId): nat
    requires Invariant(s) && i < |s.items|
  {
    if !s.items[i].phase.Walking? then 0
    else
      assert WalkOf(s.executors, s.items[i]);
      if s.items[i].phase.at < |s.executors| then ChainLength(s.executors, s.items[i].phase.at) else 0
  }

  lemma AheadByStep(s: State, a: Action, i: ItemId)
    requires Invariant(s) && Enabled(s, a) && i < |s.items|
    ensures Invariant(Apply(s, a)) && i < |Apply(s, a).items|
    ensures a == Visit(i) ==> Ahead(Apply(s, a), i) < Ahead(s, i)
    ensures a != Visit(i) ==> Ahead(Apply(s, a), i) == Ahead(s, i)
  {
    KeepsInvariant(s, a);
    ExtendsByStep(s, a);
    var t := Apply(s, a);
    assert WalkOf(s.executors, s.items[i]);
    if s.items[i].phase.Walking? {
      WalkFindsFirst(s.executors, s.items[i].start, s.items[i].phase.at);
      ChainLengthLater(s.executors, t.executors, s.items[i].phase.at);
    }
    if a != Visit(i) {
      OthersWalkNowhere(s, a, i);
    } else if t.items[i].phase.Walking? {
      ChainLengthLater(s.executors, t.executors, t.items[i].phase.at);
    }
  }

  function Visits(acts: seq<Action>, i: ItemId): nat {
    if acts == [] then 0 else (if acts[0] == Visit(i) then 1 else 0) + Visits(acts[1..], i)
  }

  // Whatever happens in between, a submit takes at most as many turns as its chain is long.
  lemma {:induction false} WalkIsShort(s: State, acts: seq<Action>, i: ItemId)
    requires Invariant(s) && IsRun(s, acts) && i < |s.items|
    ensures Visits(acts, i) <= Ahead(s, i)
    decreases |acts|
  {
    if acts != [] {
      AheadByStep(s, acts[0], i);
      WalkIsShort(Apply(s, acts[0]), acts[1..], i);
    }
  }

  // And its own turns alone bring it to its end, an executor or a refusal.
  lemma {:induction false} WalkEnds(s: State, i: ItemId) returns (acts: seq<Action>)
    requires Invariant(s) && i < |s.items|
    ensures IsRun(s, acts) && i < |Run(s, acts).items| && !Run(s, acts).items[i].phase.Walking?
    ensures (forall a | a in acts :: a == Visit(i)) && |acts| <= Ahead(s, i)
    decreases Ahead(s, i)
  {
    if !s.items[i].phase.Walking? {
      acts := [];
    } else {
      assert WalkOf(s.executors, s.items[i]);
      WalkFindsFirst(s.executors, s.items[i].start, s.items[i].phase.at);
      AheadByStep(s, Visit(i), i);
      var rest := WalkEnds(Apply(s, Visit(i)), i);
      acts := [Visit(i)] + rest;
      assert acts[1..] == rest;
    }
  }
}
