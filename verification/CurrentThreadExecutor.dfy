/**
 * CurrentThreadExecutor as an object: the deque, the flag, the link to the executor below it,
 * and the two loops that work on them. `submit` runs here without interference and is the
 * atomic operation that ExecutorTheorems shows every interleaved walk to be;
 * `run_until_future` runs against a script of what other threads do and when.
 */
module CurrentThreadExecutor {
  import opened Wrappers
  import opened ExecutorProtocol
  import Inv = ExecutorInvariant

  datatype Error = OwnThread | WrongThread | QuitOrBroken

  // What the submitted function comes to: a value, or an exception.
  datatype Outcome = Value(value: nat) | Raised(exception: nat)

  class WorkItem {
    const fn: Outcome
    var future: FutureState
    var result: Option<Outcome>

    constructor (fn: Outcome)
      ensures this.fn == fn && future == Pending && result == None
    {
      this.fn, future, result := fn, Pending, None;
    }

    ghost predicate Untouched()
      reads this
    {
      Inv.Waiting(future) && result == None
    }

    // Over, when its future was `was` before: with the function's outcome, or told it is cancelled.
    ghost predicate Settled(was: FutureState)
      reads this
    {
      if was.Cancelled? then future == Dropped && result == None
      else future == Finished && result == Some(fn)
    }

    // set_running_or_notify_cancel, the function itself, set_result or set_exception. A future that
    // is neither pending nor cancelled makes the first of these raise.
    method Run()
      requires Untouched()
      modifies this
      ensures Settled(old(future))
    {
      if future.Cancelled? {
        future := Dropped;
        return;
      }
      future := Running;
      match fn {
        case Value(v) => result := Some(Value(v));
        case Raised(e) => result := Some(Raised(e));
      }
      future := Finished;
    }
  }

  // What another thread does to the executor while its owner is in run_until_future.
  datatype Arrival = Submitted(item: WorkItem) | FutureDone

  // The items submitted before the awaited future was done, oldest first.
  ghost function BeforeDone(script: seq<Arrival>): seq<WorkItem> {
    if script == [] || script[0].FutureDone? then []
    else [script[0].item] + BeforeDone(script[1..])
  }

  lemma DeliveryIsAhead(queue: seq<WorkItem>, a: Arrival, rest: seq<Arrival>)
    ensures queue + BeforeDone([a] + rest) ==
      if a.FutureDone? then queue else (queue + [a.item]) + BeforeDone(rest)
  {
    assert ([a] + rest)[1..] == rest;
  }

  ghost function FutureStates(ws: seq<WorkItem>): (states: seq<FutureState>)
    reads ws
    ensures |states| == |ws| && forall k | 0 <= k < |ws| :: states[k] == ws[k].future
  {
    if ws == [] then [] else [ws[0].future] + FutureStates(ws[1..])
  }

  class CurrentThreadExecutor {
    const workThread: Thread
    const oldExecutor: CurrentThreadExecutor?
    ghost const below: seq<CurrentThreadExecutor>   // everything reached through oldExecutor
    var workItems: seq<WorkItem>
    var broken: bool

    constructor (thread: Thread, older: CurrentThreadExecutor?)
      requires older != null ==> older.Linked()
      ensures Linked() && workThread == thread && oldExecutor == older
      ensures workItems == [] && !broken
      ensures Chain() == [this] + (if older == null then [] else older.Chain())
    {
      workThread := thread;
      oldExecutor := older;
      below := if older == null then [] else [older] + older.below;
      workItems := [];
      broken := false;
    }

    ghost function Chain(): seq<CurrentThreadExecutor> {
      [this] + below
    }

    // Following oldExecutor visits `below` in order and ends.
    ghost predicate Linked()
      decreases |below|
    {
      if oldExecutor == null then below == []
      else below == oldExecutor.Chain() && oldExecutor.Linked()
    }

    lemma {:induction false} HigherUp(x: CurrentThreadExecutor)
      requires Linked() && x in Chain()
      ensures |x.below| <= |below|
      decreases |below|
    {
      if x != this {
        oldExecutor.HigherUp(x);
      }
    }

    // No executor is met twice on the way down.
    lemma {:induction false} ChainIsAcyclic()
      requires Linked()
      ensures Inv.NoRepeats(Chain())
      decreases |below|
    {
      if oldExecutor != null {
        oldExecutor.ChainIsAcyclic();
        if this in below {
          oldExecutor.HigherUp(this);
        }
        assert this !in below;
      }
    }

    // Position `k` of the chain is the first whose flag is down, or the end.
    ghost predicate FirstUnbroken(k: nat)
      reads Chain()`broken
    {
      && k <= |Chain()|
      && (forall j | 0 <= j < k :: Chain()[j].broken)
      && (k < |Chain()| ==> !Chain()[k].broken)
    }

    method Submit(caller: Thread, fn: Outcome) returns (r: Result<WorkItem, Error>, ghost k: nat)
      requires Linked()
      modifies Chain()`workItems
      ensures caller == workThread ==> r == Failure(OwnThread)
      ensures caller != workThread ==>
        FirstUnbroken(k) && if k < |Chain()| then r.Success? else r == Failure(QuitOrBroken)
      ensures r.Success? ==>
        fresh(r.value) && r.value.fn == fn && r.value.future == Pending && r.value.result == None
      ensures forall j | 0 <= j < |Chain()| ::
        Chain()[j].workItems == old(Chain()[j].workItems) + (if r.Success? && j == k then [r.value] else [])
    {
      if caller == workThread {
        return Failure(OwnThread), 0;
      }
      var item := new WorkItem(fn);
      var accepted;
      accepted, k := Walk(item);
      r := if accepted then Success(item) else Failure(QuitOrBroken);
    }

    // The one queue that grows is this executor's, wherever it stands in a chain.
    method Append(item: WorkItem, ghost chain: seq<CurrentThreadExecutor>, ghost k: nat)
      requires k < |chain| && chain[k] == this && Inv.NoRepeats(chain)
      modifies this`workItems
      ensures forall j | 0 <= j < |chain| ::
        chain[j].workItems == old(chain[j].workItems) + (if j == k then [item] else [])
    {
      workItems := workItems + [item];
    }

    // Down the chain to the closest one still running.
    method Walk(item: WorkItem) returns (accepted: bool, ghost k: nat)
      requires Linked()
      modifies Chain()`workItems
      ensures FirstUnbroken(k) && accepted == (k < |Chain()|)
      ensures forall j | 0 <= j < |Chain()| ::
        Chain()[j].workItems == old(Chain()[j].workItems) + (if j == k then [item] else [])
    {
      ghost var chain := Chain();
      ChainIsAcyclic();
      k := 0;
      var executor: CurrentThreadExecutor := this;
      while true
        invariant k < |chain| && executor.Linked() && chain[k..] == executor.Chain()
        invariant forall j | 0 <= j < k :: chain[j].broken
        decreases |chain| - k
      {
        assert chain[k] == executor && chain[k + 1..] == executor.below;
        if !executor.broken {
          executor.Append(item, chain, k);
          return true, k;
        }
        if executor.oldExecutor == null {
          return false, k + 1;
        }
        executor := executor.oldExecutor;
        k := k + 1;
      }
    }

    // What is still going to be served, if `script` is all that arrives from here on.
    ghost function Ahead(script: seq<Arrival>): seq<WorkItem>
      reads this
    {
      workItems + (if broken then [] else BeforeDone(script))
    }

    // One region under the lock, run by another thread.
    method Deliver(a: Arrival, ghost rest: seq<Arrival>)
      modifies this
      ensures workItems == old(workItems) + (if a.Submitted? && !old(broken) then [a.item] else [])
      ensures broken == (old(broken) || a.FutureDone?)
      ensures Ahead(rest) == old(Ahead([a] + rest))
    {
      DeliveryIsAhead(workItems, a, rest);
      if a.FutureDone? {
        broken := true;
      } else if !broken {
        workItems := workItems + [a.item];
      }
    }

    // `others` arrivals get the lock, and more as long as the owner would have to wait.
    method LetOthersIn(script: seq<Arrival>, others: nat) returns (rest: seq<Arrival>)
      requires broken || FutureDone in script
      modifies this
      ensures Ahead(rest) == old(Ahead(script)) && |rest| <= |script|
      ensures broken || FutureDone in rest
      ensures workItems != [] || broken
      ensures old(broken) ==> workItems == old(workItems)
    {
      rest := script;
      var n := others;
      while rest != [] && (n > 0 || (workItems == [] && !broken))
        invariant Ahead(rest) == old(Ahead(script)) && |rest| <= |script|
        invariant broken || FutureDone in rest
        invariant old(broken) ==> broken && workItems == old(workItems)
        decreases |rest|
      {
        assert rest == [rest[0]] + rest[1..];
        Deliver(rest[0], rest[1..]);
        rest := rest[1..];
        n := if n > 0 then n - 1 else 0;
      }
    }

    method RunNext() returns (workItem: WorkItem)
      requires workItems != [] && workItems[0].Untouched()
      modifies this`workItems, workItems[0]
      ensures old(workItems) == [workItem] + workItems
      ensures workItem.Settled(old(workItems[0].future))
    {
      workItem := workItems[0];
      workItems := workItems[1..];
      workItem.Run();
    }

    // The first `n` of the items are over, the others are as they were.
    ghost predicate Progress(all: seq<WorkItem>, was: seq<FutureState>, n: nat)
      reads all
    {
      && |was| == |all| && n <= |all|
      && (forall k | 0 <= k < n :: all[k].Settled(was[k]))
      && (forall k | n <= k < |all| :: all[k].future == was[k] && all[k].Untouched())
    }

    // One pass outside the lock; `all` is what is served in the end and `was` how it looked.
    method Step(ran: seq<WorkItem>, ghost all: seq<WorkItem>, ghost was: seq<FutureState>, ghost rest: seq<Arrival>)
      returns (now: seq<WorkItem>)
      requires workItems != [] && all == ran + Ahead(rest)
      requires Inv.NoRepeats(all) && Progress(all, was, |ran|)
      modifies this`workItems, all
      ensures now == ran + [all[|ran|]] && all == now + Ahead(rest)
      ensures Progress(all, was, |now|)
    {
      assert workItems[0] == all[|ran|] && was[|ran|] == workItems[0].future;
      var workItem := RunNext();
      now := ran + [workItem];
    }

    // `ran` is over and, with what is ahead, makes up `all`.
    ghost predicate Serving(all: seq<WorkItem>, was: seq<FutureState>, ran: seq<WorkItem>, rest: seq<Arrival>)
      reads this, all
    {
      && all == ran + Ahead(rest)
      && (broken || FutureDone in rest)
      && Progress(all, was, |ran|)
    }

    // One pass: others get the lock, then the owner leaves or serves the oldest item.
    method Pass(script: seq<Arrival>, others: nat, ran: seq<WorkItem>, ghost all: seq<WorkItem>,
                ghost was: seq<FutureState>)
      returns (left: bool, rest: seq<Arrival>, now: seq<WorkItem>)
      requires Serving(all, was, ran, script) && Inv.NoRepeats(all)
      modifies this, all
      ensures Serving(all, was, now, rest)
      ensures left ==> now == all && broken && workItems == []
      ensures !left ==> |now| == |ran| + 1
    {
      rest := LetOthersIn(script, others);
      if workItems == [] {
        assert ran == all;
        return true, rest, ran;
      }
      now := Step(ran, all, was, rest);
      left := false;
    }

    // The loop: pass after pass until nothing is queued and the flag is set.
    method Serve(script: seq<Arrival>, turns: seq<nat>) returns (ran: seq<WorkItem>)
      requires workItems == [] && !broken
      requires FutureDone in script
      requires Inv.NoRepeats(BeforeDone(script)) && forall w | w in BeforeDone(script) :: w.Untouched()
      modifies this, BeforeDone(script)
      ensures ran == BeforeDone(script) && broken && workItems == []
      ensures Progress(BeforeDone(script), old(FutureStates(BeforeDone(script))), |BeforeDone(script)|)
    {
      ghost var all := BeforeDone(script);
      ghost var was := FutureStates(all);
      var rest, passes := script, turns;
      ran := [];
      var left := false;
      while !left
        invariant Serving(all, was, ran, rest)
        invariant left ==> ran == all && broken && workItems == []
        decreases !left, |all| - |ran|
      {
        left, rest, ran := Pass(rest, if passes == [] then 0 else passes[0], ran, all, was);
        passes := if passes == [] then [] else passes[1..];
      }
    }

    // `turns[n]` is how many arrivals of the script get the lock before the owner's n-th pass
    // (none once the list is used up); a wait lets arrivals through until it can end.
    method RunUntilFuture(caller: Thread, script: seq<Arrival>, turns: seq<nat>)
      returns (r: Result<seq<WorkItem>, Error>)
      requires workItems == [] && !broken
      requires FutureDone in script
      requires Inv.NoRepeats(BeforeDone(script)) && forall w | w in BeforeDone(script) :: w.Untouched()
      modifies this, BeforeDone(script)
      ensures caller != workThread ==> r == Failure(WrongThread) && unchanged(this) && unchanged(BeforeDone(script))
      ensures caller == workThread ==> r == Success(BeforeDone(script)) && broken && workItems == []
      ensures caller == workThread ==>
        Progress(BeforeDone(script), old(FutureStates(BeforeDone(script))), |BeforeDone(script)|)
    {
      if caller != workThread {
        return Failure(WrongThread);
      }
      var ran := Serve(script, turns);
      return Success(ran);
    }
  }
}
