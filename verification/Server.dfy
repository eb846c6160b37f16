/**
 * The instance pool of StatelessServer: a dictionary with timestamps that acts as a bounded list
 * in order of last use.
 */
module Server {
  import opened Wrappers

  // A scope id; only equality matters.
  type Id = nat

  datatype Error = KeyError | ValueError

  // ---------------------------------------------------------------------------------------
  // The list it acts as
  // ---------------------------------------------------------------------------------------

  function Without(s: seq<Id>, x: Id): seq<Id> {
    if s == [] then [] else
    var rest, last := Without(s[..|s| - 1], x), s[|s| - 1];
    if last == x then rest else rest + [last]
  }

  function Last(s: seq<Id>, n: nat): seq<Id> {
    if |s| <= n then s else s[|s| - n..]
  }

  // Least recently used first. A new id makes room only while there are more than `max`.
  function Use(lru: seq<Id>, id: Id, max: nat): seq<Id> {
    if id in lru then Without(lru, id) + [id] else Last(lru, max) + [id]
  }

  // `Finish`: the application of that instance ends by itself, which the pool does not notice.
  datatype Op = Get(id: Id) | Delete(id: Id) | Finish(id: Id)

  function Apply(lru: seq<Id>, op: Op, max: nat): seq<Id> {
    match op
    case Get(id) => Use(lru, id, max)
    case Delete(id) => Without(lru, id)
    case Finish(_) => lru
  }

  function Run(lru: seq<Id>, ops: seq<Op>, max: nat): seq<Id>
    decreases |ops|
  {
    if ops == [] then lru else Run(Apply(lru, ops[0], max), ops[1..], max)
  }

  // The same without any bound: all ids in use, by last use.
  function Recent(order: seq<Id>, ops: seq<Op>): seq<Id>
    decreases |ops|
  {
    if ops == [] then order else Recent(Latest(order, ops[0]), ops[1..])
  }

  function Latest(order: seq<Id>, op: Op): seq<Id> {
    match op
    case Get(id) => Without(order, id) + [id]
    case Delete(id) => Without(order, id)
    case Finish(_) => order
  }

  predicate IsSuffix(s: seq<Id>, t: seq<Id>) {
    |s| <= |t| && t[|t| - |s|..] == s
  }

  lemma {:induction false} WithoutMembers(s: seq<Id>, x: Id)
    ensures forall y :: y in Without(s, x) <==> y in s && y != x
    ensures x !in s ==> Without(s, x) == s
  {
    if s != [] {
      WithoutMembers(s[..|s| - 1], x);
      assert s == s[..|s| - 1] + [s[|s| - 1]];
    }
  }

  lemma {:induction false} WithoutConcat(s: seq<Id>, t: seq<Id>, x: Id)
    ensures Without(s + t, x) == Without(s, x) + Without(t, x)
  {
    if t == [] {
      assert s + t == s;
    } else {
      WithoutConcat(s, t[..|t| - 1], x);
      assert (s + t)[..|s + t| - 1] == s + t[..|t| - 1];
    }
  }

  lemma {:induction false} WithoutShrinks(s: seq<Id>, x: Id)
    ensures |Without(s, x)| <= |s|
    ensures x in s ==> |Without(s, x)| < |s|
  {
    if s != [] {
      WithoutShrinks(s[..|s| - 1], x);
    }
  }

  // It never holds more than max + 1 ids.
  lemma {:induction false} NeverMoreThanOneAbove(lru: seq<Id>, ops: seq<Op>, max: nat)
    requires |lru| <= max + 1
    ensures |Run(lru, ops, max)| <= max + 1
    decreases |ops|
  {
    if ops != [] {
      WithoutShrinks(lru, ops[0].id);
      NeverMoreThanOneAbove(Apply(lru, ops[0], max), ops[1..], max);
    }
  }

  lemma AppendedIsSuffix(s: seq<Id>, t: seq<Id>)
    ensures IsSuffix(t, s + t)
  {
  }

  lemma EvictKeepsSuffix(before: seq<Id>, lru: seq<Id>, max: nat, id: Id)
    ensures IsSuffix(Last(lru, max) + [id], (before + lru) + [id])
  {
    var kept := Last(lru, max);
    var dropped := lru[..|lru| - |kept|];
    assert (before + lru) + [id] == (before + dropped) + (kept + [id]);
    AppendedIsSuffix(before + dropped, kept + [id]);
  }

  lemma StepKeepsSuffix(lru: seq<Id>, all: seq<Id>, op: Op, max: nat)
    requires IsSuffix(lru, all)
    ensures IsSuffix(Apply(lru, op, max), Recent(all, [op]))
  {
    var older := all[..|all| - |lru|];
    assert all == older + lru && [op][1..] == [];
    WithoutConcat(older, lru, op.id);
    WithoutMembers(lru, op.id);
    var before, kept := Without(older, op.id), Without(lru, op.id);
    AppendedIsSuffix(before, kept);
    AppendedIsSuffix(before, kept + [op.id]);
    assert (before + kept) + [op.id] == before + (kept + [op.id]);
    if op.id !in lru {
      EvictKeepsSuffix(before, lru, max, op.id);
    }
  }

  lemma {:induction false} RecentInTwo(all: seq<Id>, op: Op, ops: seq<Op>)
    ensures Recent(all, [op] + ops) == Recent(Recent(all, [op]), ops)
  {
    assert ([op] + ops)[1..] == ops && [op][1..] == [];
  }

  // Survivors are the most recently used: the pool is always the end of the unbounded list.
  lemma {:induction false} SurvivorsAreMostRecent(lru: seq<Id>, all: seq<Id>, ops: seq<Op>, max: nat)
    requires IsSuffix(lru, all)
    ensures IsSuffix(Run(lru, ops, max), Recent(all, ops))
    decreases |ops|
  {
    if ops != [] {
      StepKeepsSuffix(lru, all, ops[0], max);
      RecentInTwo(all, ops[0], ops[1..]);
      assert ops == [ops[0]] + ops[1..];
      SurvivorsAreMostRecent(Apply(lru, ops[0], max), Recent(all, [ops[0]]), ops[1..], max);
    }
  }

  // ---------------------------------------------------------------------------------------
  // The pool
  // ---------------------------------------------------------------------------------------

  class Future {
    var done: bool
    var cancelled: bool
    ghost const queue: nat             // what its application reads from

    constructor (queue: nat)
      ensures !done && !cancelled && this.queue == queue
    {
      done, cancelled, this.queue := false, false, queue;
    }

    // The application ends.
    method Finish()
      modifies this`done
      ensures done
    {
      done := true;
    }

    method Cancel()
      modifies this`cancelled
      ensures cancelled
    {
      cancelled := true;
    }
  }

  datatype Details = Details(inputQueue: nat, future: Future, lastUsed: int)

  // By time of last use, all of them no later than `clock`.
  ghost predicate Rising(instances: map<Id, Details>, order: seq<Id>, clock: int) {
    order == [] ||
    var last := order[|order| - 1];
    && last in instances && instances[last].lastUsed <= clock
    && Rising(instances, order[..|order| - 1], instances[last].lastUsed - 1)
  }

  ghost predicate Ordered(instances: map<Id, Details>, order: seq<Id>, clock: int) {
    (forall id :: id in order <==> id in instances) && Rising(instances, order, clock)
  }

  lemma {:induction false} RisingMembers(instances: map<Id, Details>, order: seq<Id>, clock: int)
    requires Rising(instances, order, clock)
    ensures forall id | id in order :: id in instances && instances[id].lastUsed <= clock
  {
    if order != [] {
      var rest := order[..|order| - 1];
      RisingMembers(instances, rest, instances[order[|order| - 1]].lastUsed - 1);
      assert order == rest + [order[|order| - 1]];
    }
  }

  lemma {:induction false} RisingFrame(a: map<Id, Details>, b: map<Id, Details>, order: seq<Id>, early: int, late: int)
    requires Rising(a, order, early) && early <= late
    requires forall id | id in order && id in a :: id in b && a[id].lastUsed == b[id].lastUsed
    ensures Rising(b, order, late)
  {
    if order != [] {
      var last := order[|order| - 1];
      RisingFrame(a, b, order[..|order| - 1], a[last].lastUsed - 1, a[last].lastUsed - 1);
    }
  }

  lemma {:induction false} HeadFirst(instances: map<Id, Details>, order: seq<Id>, clock: int)
    requires Rising(instances, order, clock) && order != []
    ensures order[0] in instances && Rising(instances, order[1..], clock)
    ensures forall id | id in order[1..] :: id in instances && instances[order[0]].lastUsed < instances[id].lastUsed
  {
    var last, rest := order[|order| - 1], order[..|order| - 1];
    if rest != [] {
      HeadFirst(instances, rest, instances[last].lastUsed - 1);
      RisingMembers(instances, rest, instances[last].lastUsed - 1);
      assert rest[0] in rest;
      assert order[1..] == rest[1..] + [last];
      assert order[1..][..|order[1..]| - 1] == rest[1..];
    }
  }

  lemma {:induction false} WithoutRises(instances: map<Id, Details>, order: seq<Id>, clock: int, id: Id)
    requires Rising(instances, order, clock)
    ensures Rising(instances, Without(order, id), clock)
  {
    if order != [] {
      var last, rest := order[|order| - 1], order[..|order| - 1];
      WithoutRises(instances, rest, instances[last].lastUsed - 1, id);
      var kept := Without(rest, id);
      if last == id {
        RisingFrame(instances, instances, kept, instances[last].lastUsed - 1, clock);
      } else {
        RisingThen(instances, kept, last, clock);
      }
    }
  }

  lemma RisingThen(instances: map<Id, Details>, order: seq<Id>, last: Id, clock: int)
    requires last in instances && instances[last].lastUsed <= clock
    requires Rising(instances, order, instances[last].lastUsed - 1)
    ensures Rising(instances, order + [last], clock)
  {
    assert (order + [last])[..|order|] == order;
  }

  lemma WithoutOrdered(instances: map<Id, Details>, order: seq<Id>, clock: int, id: Id)
    requires Ordered(instances, order, clock)
    ensures Ordered(instances - {id}, Without(order, id), clock)
  {
    WithoutMembers(order, id);
    WithoutRises(instances, order, clock, id);
    RisingFrame(instances, instances - {id}, Without(order, id), clock, clock);
  }

  lemma UsedLast(instances: map<Id, Details>, order: seq<Id>, clock: int, id: Id, details: Details)
    requires Ordered(instances, order, clock) && clock < details.lastUsed
    ensures Ordered(instances[id := details], Without(order, id) + [id], details.lastUsed)
  {
    var rest, all := Without(order, id), instances[id := details];
    WithoutMembers(order, id);
    WithoutRises(instances, order, clock, id);
    RisingFrame(instances, all, rest, clock, details.lastUsed - 1);
    RisingThen(all, rest, id, details.lastUsed);
  }

  lemma HeadIsOldest(instances: map<Id, Details>, order: seq<Id>, clock: int, id: Id)
    requires Ordered(instances, order, clock) && id in instances
    ensures order != [] && order[0] in instances
    ensures id == order[0] || instances[order[0]].lastUsed < instances[id].lastUsed
  {
    HeadFirst(instances, order, clock);
    assert order == [order[0]] + order[1..];
  }

  lemma {:induction false} WithoutHead(s: seq<Id>)
    requires s != [] && s[0] !in s[1..]
    ensures Without(s, s[0]) == s[1..]
  {
    WithoutConcat([s[0]], s[1..], s[0]);
    WithoutMembers(s[1..], s[0]);
    assert s == [s[0]] + s[1..];
  }

  lemma TailOrdered(instances: map<Id, Details>, order: seq<Id>, clock: int)
    requires Ordered(instances, order, clock) && order != []
    ensures Ordered(instances - {order[0]}, order[1..], clock) && Without(order, order[0]) == order[1..]
  {
    HeadFirst(instances, order, clock);
    WithoutHead(order);
    WithoutOrdered(instances, order, clock, order[0]);
  }

  // There is only one such list.
  lemma {:induction false} OrderIsUnique(instances: map<Id, Details>, a: seq<Id>, b: seq<Id>, clock: int)
    requires Ordered(instances, a, clock) && Ordered(instances, b, clock)
    ensures a == b
    decreases |a|
  {
    if a != [] {
      assert a[0] in instances;
      HeadIsOldest(instances, b, clock, a[0]);
      HeadIsOldest(instances, a, clock, b[0]);
      TailOrdered(instances, a, clock);
      TailOrdered(instances, b, clock);
      OrderIsUnique(instances - {a[0]}, a[1..], b[1..], clock);
      assert a == [a[0]] + a[1..] && b == [b[0]] + b[1..];
    } else if b != [] {
      HeadIsOldest(instances, a, clock, b[0]);
    }
  }

  lemma {:induction false} SizeIs(instances: map<Id, Details>, order: seq<Id>, clock: int)
    requires Ordered(instances, order, clock)
    ensures |instances| == |order|
    decreases |order|
  {
    if order == [] {
      assert instances == map[];
    } else {
      TailOrdered(instances, order, clock);
      SizeIs(instances - {order[0]}, order[1..], clock);
      assert order[0] in instances;
      assert instances.Keys == (instances - {order[0]}).Keys + {order[0]};
    }
  }

  ghost predicate PartOf(some: map<Id, Details>, all: map<Id, Details>) {
    forall id | id in some :: id in all && some[id] == all[id]
  }

  // Every queue was made for one id and is read by one future.
  ghost predicate Private(instances: map<Id, Details>, made: seq<Id>) {
    forall id | id in instances :: BelongsTo(instances[id], id, made)
  }

  ghost predicate BelongsTo(details: Details, id: Id, made: seq<Id>) {
    details.inputQueue < |made| && made[details.inputQueue] == id && details.future.queue == details.inputQueue
  }

  // So no two instances share a queue or a future.
  lemma NothingShared(instances: map<Id, Details>, made: seq<Id>, a: Id, b: Id)
    requires Private(instances, made) && a in instances && b in instances && a != b
    ensures instances[a].inputQueue != instances[b].inputQueue && instances[a].future != instances[b].future
  {
    assert BelongsTo(instances[a], a, made) && BelongsTo(instances[b], b, made);
  }

  ghost function FuturesOf(instances: map<Id, Details>): set<Future> {
    set id | id in instances :: instances[id].future
  }

  lemma FutureIn(instances: map<Id, Details>, id: Id)
    requires id in instances
    ensures instances[id].future in FuturesOf(instances)
  {
  }

  lemma FutureRemoved(instances: map<Id, Details>, made: seq<Id>, id: Id)
    requires Private(instances, made)
    ensures Private(instances - {id}, made)
    ensures FuturesOf(instances - {id}) ==
      FuturesOf(instances) - (if id in instances then {instances[id].future} else {})
  {
    var rest := instances - {id};
    forall f | f in FuturesOf(rest)
      ensures f in FuturesOf(instances) && !(id in instances && instances[id].future == f) {
      var k :| k in rest && rest[k].future == f;
      FutureIn(instances, k);
      if id in instances {
        NothingShared(instances, made, k, id);
      }
    }
    forall f | f in FuturesOf(instances) && !(id in instances && instances[id].future == f)
      ensures f in FuturesOf(rest) {
      var k :| k in instances && instances[k].future == f;
      FutureIn(rest, k);
    }
  }

  lemma FutureAdded(instances: map<Id, Details>, made: seq<Id>, id: Id, details: Details)
    requires Private(instances, made) && id !in instances
    requires BelongsTo(details, id, made + [id]) && details.future !in FuturesOf(instances)
    ensures Private(instances[id := details], made + [id])
    ensures FuturesOf(instances[id := details]) == FuturesOf(instances) + {details.future}
  {
    var all := instances[id := details];
    FutureIn(all, id);
    forall k | k in instances
      ensures all[k] == instances[k] && BelongsTo(all[k], k, made + [id])
      ensures instances[k].future in FuturesOf(instances) && instances[k].future in FuturesOf(all)
    {
      FutureIn(instances, k);
      assert all[k] == instances[k] && BelongsTo(instances[k], k, made);
      FutureIn(all, k);
    }
  }

  lemma FutureKept(instances: map<Id, Details>, made: seq<Id>, id: Id, now: int)
    requires Private(instances, made) && id in instances
    ensures Private(instances[id := instances[id].(lastUsed := now)], made)
    ensures FuturesOf(instances[id := instances[id].(lastUsed := now)]) == FuturesOf(instances)
  {
    var all := instances[id := instances[id].(lastUsed := now)];
    forall k | k in instances
      ensures k in all && all[k].future == instances[k].future && BelongsTo(all[k], k, made)
    {
      assert BelongsTo(instances[k], k, made);
    }
    assert FuturesOf(all) == FuturesOf(instances);
  }

  lemma LastIs(all: seq<Id>, gone: nat, max: nat)
    requires gone <= |all| && |all| - gone <= max
    requires gone > 0 ==> |all| - gone == max
    ensures all[gone..] == Last(all, max)
  {
  }

  class StatelessServer {
    const maxApplications: int
    var applicationInstances: map<Id, Details>
    var inserted: seq<Id>              // the order in which the dictionary iterates
    var nextQueue: nat                 // queues made so far
    ghost var made: seq<Id>            // for whom
    ghost var lru: seq<Id>
    ghost var clock: int               // the last time looked at
    ghost var removed: set<Future>     // futures of instances that are gone

    constructor (max: int)
      ensures Valid() && maxApplications == max && applicationInstances == map[] && lru == [] && removed == {}
    {
      maxApplications, applicationInstances, inserted, nextQueue := max, map[], [], 0;
      made, lru, clock, removed := [], [], 0, {};
    }

    ghost predicate Valid()
      reads this, removed, Futures()
    {
      && PoolOk()
      && Private(applicationInstances, made)
      && Futures() !! removed
      && (forall f | f in Futures() :: !f.cancelled)
      && (forall f | f in removed :: f.done || f.cancelled)
    }

    ghost predicate PoolOk()
      reads this
    {
      && |made| == nextQueue
      && (forall id :: id in inserted <==> id in applicationInstances)
      && Ordered(applicationInstances, lru, clock)
    }

    ghost function Futures(): set<Future>
      reads this
    {
      FuturesOf(applicationInstances)
    }

    // del self.application_instances[scope_id]
    method Remove(id: Id)
      requires PoolOk() && Private(applicationInstances, made)
      modifies this`applicationInstances, this`inserted, this`lru
      ensures PoolOk() && Private(applicationInstances, made)
      ensures Futures() == old(Futures())
        - (if id in old(applicationInstances) then {old(applicationInstances)[id].future} else {})
      ensures applicationInstances == old(applicationInstances) - {id}
      ensures lru == Without(old(lru), id) && inserted == Without(old(inserted), id)
    {
      FutureRemoved(applicationInstances, made, id);
      WithoutMembers(inserted, id);
      WithoutOrdered(applicationInstances, lru, clock, id);
      applicationInstances := applicationInstances - {id};
      lru, inserted := Without(lru, id), Without(inserted, id);
    }

    method DeleteApplicationInstance(id: Id) returns (r: Result<(), Error>)
      requires Valid()
      modifies this`applicationInstances, this`inserted, this`lru, this`removed, Futures()`cancelled
      ensures Valid()
      ensures r == if id in old(applicationInstances) then Success(()) else Failure(KeyError)
      ensures applicationInstances == old(applicationInstances) - {id}
      ensures lru == Without(old(lru), id) && inserted == Without(old(inserted), id)
      ensures old(removed) <= removed && removed + Futures() == old(removed + Futures())
      ensures id in old(applicationInstances) ==>
        var future := old(applicationInstances)[id].future;
        future in removed && future.cancelled == !future.done
    {
      if id !in applicationInstances {
        WithoutMembers(lru, id);
        WithoutMembers(inserted, id);
        return Failure(KeyError);
      }
      var details := applicationInstances[id];
      FutureIn(applicationInstances, id);
      Remove(id);
      Retire(details.future);
      return Success(());
    }

    method Retire(future: Future)
      requires !future.cancelled
      modifies this`removed, future`cancelled
      ensures removed == old(removed) + {future}
      ensures future.cancelled == !future.done
    {
      if !future.done {
        future.Cancel();
      }
      removed := removed + {future};
    }

    // min() over the timestamps, then the first entry that has it.
    method OldestEntry() returns (oldest: Id)
      requires PoolOk() && applicationInstances != map[]
      ensures oldest in applicationInstances && lru != [] && oldest == lru[0]
    {
      var someId :| someId in applicationInstances;
      assert someId in inserted && someId in lru;
      var oldestTime := applicationInstances[inserted[0]].lastUsed;
      ghost var w := 0;
      for i := 0 to |inserted|
        invariant w < |inserted| && oldestTime == applicationInstances[inserted[w]].lastUsed
        invariant forall k | 0 <= k < i :: oldestTime <= applicationInstances[inserted[k]].lastUsed
      {
        assert inserted[i] in inserted;
        if applicationInstances[inserted[i]].lastUsed < oldestTime {
          oldestTime := applicationInstances[inserted[i]].lastUsed;
          w := i;
        }
      }
      var i := 0;
      while applicationInstances[inserted[i]].lastUsed != oldestTime
        invariant i <= w
        decreases w - i
      {
        i := i + 1;
      }
      oldest := inserted[i];
      assert oldest in inserted && lru[0] in lru;
      HeadIsOldest(applicationInstances, lru, clock, oldest);
    }

    method DeleteOldestApplicationInstance() returns (r: Result<(), Error>)
      requires Valid()
      modifies this`applicationInstances, this`inserted, this`lru, this`removed, Futures()`cancelled
      ensures Valid()
      ensures old(lru) == [] ==> r == Failure(ValueError) && unchanged(this)
      ensures old(lru) != [] ==>
        && r == Success(())
        && lru == old(lru)[1..]
        && applicationInstances == old(applicationInstances) - {old(lru)[0]}
      ensures old(removed) <= removed && removed + Futures() == old(removed + Futures())
    {
      SizeIs(applicationInstances, lru, clock);
      if applicationInstances == map[] {
        return Failure(ValueError);
      }
      var oldest := OldestEntry();
      TailOrdered(applicationInstances, lru, clock);
      r := DeleteApplicationInstance(oldest);
    }

    // The eviction loop: it ends, and it takes from the old end of the list.
    method MakeRoom() returns (r: Result<(), Error>)
      requires Valid()
      modifies this`applicationInstances, this`inserted, this`lru, this`removed, Futures()`cancelled
      ensures Valid()
      ensures r == if maxApplications >= 0 then Success(()) else Failure(ValueError)
      ensures lru == if maxApplications >= 0 then Last(old(lru), maxApplications) else []
      ensures PartOf(applicationInstances, old(applicationInstances))
      ensures |old(applicationInstances)| <= maxApplications ==>
        PartOf(old(applicationInstances), applicationInstances)
      ensures old(removed) <= removed && removed + Futures() == old(removed + Futures())
    {
      ghost var gone, was, instances, all := 0, lru, applicationInstances, removed + Futures();
      ghost var removedBefore := removed;
      SizeIs(applicationInstances, lru, clock);
      while |applicationInstances| > maxApplications
        invariant Valid()
        invariant |applicationInstances| == |lru| && (|applicationInstances| == 0 <==> lru == [])
        invariant gone <= |was| && lru == was[gone..]
        invariant gone > 0 ==> |lru| >= maxApplications
        invariant PartOf(applicationInstances, instances)
        invariant |instances| <= maxApplications ==> PartOf(instances, applicationInstances)
        invariant removedBefore <= removed && removed + Futures() == all
        decreases |lru| + (if lru == [] then 0 else 1)
      {
        r := DeleteOldestApplicationInstance();
        if r.Failure? {
          return;
        }
        gone := gone + 1;
        assert lru == was[gone..];
        assert PartOf(applicationInstances, instances);
        SizeIs(applicationInstances, lru, clock);
      }
      LastIs(was, gone, maxApplications);
      return Success(());
    }

    method Touch(id: Id, now: int) returns (queue: nat)
      requires Valid() && id in applicationInstances && clock < now
      modifies this`applicationInstances, this`lru, this`clock
      ensures Valid() && clock == now
      ensures applicationInstances == old(applicationInstances)[id := old(applicationInstances)[id].(lastUsed := now)]
      ensures lru == Without(old(lru), id) + [id] && queue == old(applicationInstances)[id].inputQueue
      ensures Futures() == old(Futures())
    {
      UsedLast(applicationInstances, lru, clock, id, applicationInstances[id].(lastUsed := now));
      FutureKept(applicationInstances, made, id, now);
      applicationInstances := applicationInstances[id := applicationInstances[id].(lastUsed := now)];
      lru, clock := Without(lru, id) + [id], now;
      queue := applicationInstances[id].inputQueue;
    }

    method Insert(id: Id, now: int) returns (queue: nat)
      requires Valid() && id !in applicationInstances && clock < now
      modifies this`applicationInstances, this`inserted, this`nextQueue, this`made, this`lru, this`clock
      ensures Valid() && clock == now && queue == old(nextQueue) && nextQueue == queue + 1
      ensures id in applicationInstances && fresh(applicationInstances[id].future)
      ensures !applicationInstances[id].future.done && !applicationInstances[id].future.cancelled
      ensures applicationInstances ==
        old(applicationInstances)[id := Details(queue, applicationInstances[id].future, now)]
      ensures lru == old(lru) + [id] && inserted == old(inserted) + [id]
      ensures Futures() == old(Futures()) + {applicationInstances[id].future}
    {
      queue := nextQueue;
      var future := new Future(queue);
      FutureAdded(applicationInstances, made, id, Details(queue, future, now));
      WithoutMembers(lru, id);
      UsedLast(applicationInstances, lru, clock, id, Details(queue, future, now));
      applicationInstances := applicationInstances[id := Details(queue, future, now)];
      inserted, nextQueue, made := inserted + [id], queue + 1, made + [id];
      lru, clock := lru + [id], now;
    }

    // The rest of it, for an id that is not there: room, and a new instance.
    method Create(id: Id, now: int) returns (r: Result<nat, Error>)
      requires Valid() && clock < now && id !in applicationInstances
      modifies this, Futures()`cancelled
      ensures Valid()
      ensures r == if maxApplications >= 0 then Success(old(nextQueue)) else Failure(ValueError)
      ensures r.Failure? ==> lru == [] && clock == old(clock)
      ensures r.Success? ==> lru == Last(old(lru), maxApplications) + [id]
      ensures r.Success? ==> clock == now && id in applicationInstances
      ensures r.Success? ==> fresh(applicationInstances[id].future)
      ensures r.Success? ==> applicationInstances[id] == Details(r.value, applicationInstances[id].future, now)
      ensures r.Success? ==> !applicationInstances[id].future.done
      ensures PartOf(applicationInstances - {id}, old(applicationInstances))
      ensures |old(applicationInstances)| <= maxApplications ==>
        PartOf(old(applicationInstances), applicationInstances)
      ensures old(removed) <= removed && removed + Futures() == old(removed + Futures())
        + (if r.Success? then {applicationInstances[id].future} else {})
    {
      assert id !in lru;
      var room := MakeRoom();
      if room.Failure? {
        return Failure(room.error);
      }
      var queue := Insert(id, now);
      return Success(queue);
    }

    method GetOrCreateApplicationInstance(id: Id, now: int) returns (r: Result<nat, Error>)
      requires Valid() && clock < now
      modifies this, Futures()`cancelled
      ensures Valid()
      ensures r.Failure? <==> id !in old(applicationInstances) && maxApplications < 0
      ensures r.Failure? ==> r.error == ValueError && lru == [] && clock == old(clock)
      ensures r.Success? && maxApplications >= 0 ==> lru == Use(old(lru), id, maxApplications)
      ensures old(removed) <= removed
      ensures r.Success? ==>
        && clock == now && id in applicationInstances
        && applicationInstances[id].lastUsed == now && applicationInstances[id].inputQueue == r.value
      ensures id in old(applicationInstances) ==>
        && r == Success(old(applicationInstances)[id].inputQueue) && lru == Without(old(lru), id) + [id]
        && applicationInstances == old(applicationInstances)[id := old(applicationInstances)[id].(lastUsed := now)]
      ensures r.Success? && id !in old(applicationInstances) ==>
        && r.value == old(nextQueue)
        && fresh(applicationInstances[id].future) && !applicationInstances[id].future.done
      ensures PartOf(applicationInstances - {id}, old(applicationInstances))
      ensures |old(applicationInstances)| == |old(lru)|
      ensures id !in old(applicationInstances) && |old(applicationInstances)| <= maxApplications ==>
        PartOf(old(applicationInstances), applicationInstances)
      ensures id !in old(applicationInstances) && 0 <= maxApplications < |old(lru)| ==>
        lru == old(lru)[|old(lru)| - maxApplications..] + [id]
      ensures old(removed) <= removed && removed + Futures() == old(removed + Futures())
        + (if r.Success? && id !in old(applicationInstances) then {applicationInstances[id].future} else {})
    {
      SizeIs(applicationInstances, lru, clock);
      if id in applicationInstances {
        assert id in lru;
        var queue := Touch(id, now);
        return Success(queue);
      }
      r := Create(id, now);
    }

    method FinishApplication(id: Id)
      requires Valid()
      modifies Futures()`done
      ensures Valid()
      ensures id in applicationInstances ==> applicationInstances[id].future.done
    {
      if id in applicationInstances {
        FutureIn(applicationInstances, id);
        applicationInstances[id].future.Finish();
      }
    }

    method Do(op: Op, now: int)
      requires Valid() && maxApplications >= 0 && clock < now
      modifies this, Futures()
      ensures Valid() && clock <= now && lru == Apply(old(lru), op, maxApplications)
      ensures forall f | f in Futures() :: f in old(Futures()) || fresh(f)
      ensures old(removed) <= removed && old(removed + Futures()) <= removed + Futures()
    {
      match op
      case Get(id) => var _ := GetOrCreateApplicationInstance(id, now);
      case Delete(id) => var _ := DeleteApplicationInstance(id);
      case Finish(id) => FinishApplication(id);
    }

    // A whole run under a strictly increasing clock, in which applications end when they like, acts
    // on the pool as on the list; the pool never has more than one above the maximum, and whatever
    // left it is finished or cancelled.
    method DoAll(ops: seq<Op>, times: seq<int>)
      requires Valid() && maxApplications >= 0 && |lru| <= maxApplications + 1
      requires |times| == |ops| && forall i | 0 <= i < |times| :: clock < times[i]
      requires forall i, j | 0 <= i < j < |times| :: times[i] < times[j]
      modifies this, Futures()
      ensures Valid() && lru == Run(old(lru), ops, maxApplications)
      ensures |applicationInstances| <= maxApplications + 1
      ensures old(removed + Futures()) <= removed + Futures()
      decreases |ops|
    {
      SizeIs(applicationInstances, lru, clock);
      if ops != [] {
        NeverMoreThanOneAbove(lru, [ops[0]], maxApplications);
        assert [ops[0]][1..] == [];
        Do(ops[0], times[0]);
        DoAll(ops[1..], times[1..]);
      }
    }
  }
}
