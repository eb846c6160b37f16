// The executors of the bridge are those of the protocol, seen without queues and runners: there
// too `submit` ends at the first that is not broken.
module ExecutorLink {
  import opened Wrappers
  import P = ExecutorProtocol
  import T = ExecutorTheorems
  import C = Contexts
  import B = Bridge

  // `who` names the protocol's threads.
  function Seen(xs: seq<P.Executor>, who: P.Thread -> C.Thread): (ys: seq<B.Executor>)
    ensures |ys| == |xs|
    ensures forall e | 0 <= e < |xs| :: ys[e] == B.Executor(who(xs[e].thread), xs[e].parent, xs[e].broken)
  {
    seq(|xs|, e requires 0 <= e < |xs| => B.Executor(who(xs[e].thread), xs[e].parent, xs[e].broken))
  }

  lemma ChainedAlike(xs: seq<P.Executor>, who: P.Thread -> C.Thread)
    ensures T.Chained(xs) <==> B.Chained(Seen(xs, who))
  {
    var ys := Seen(xs, who);
    if B.Chained(ys) {
      forall e | 0 <= e < |xs| && xs[e].parent.Some? ensures xs[e].parent.value < e {
        assert ys[e].parent == xs[e].parent;
      }
    }
  }

  // What SubmitIsLinearizable says of the protocol is what the bridge relies on.
  lemma {:induction false} SubmitAlike(xs: seq<P.Executor>, who: P.Thread -> C.Thread, e: nat)
    requires T.Chained(xs) && e < |xs|
    ensures B.FirstRunning(Seen(xs, who), e) == T.FirstRunning(xs, e)
    decreases e
  {
    if xs[e].broken && xs[e].parent.Some? {
      SubmitAlike(xs, who, xs[e].parent.value);
    }
  }

  // `submit` on the bridge gives the item to the thread whose queue gets it in the protocol, and
  // fails when the protocol turns it away.
  lemma SubmitToIsSubmit(s: P.State, i: nat, who: P.Thread -> C.Thread, w: B.World)
    requires T.Chained(s.executors) && i < |s.items| && s.items[i].start < |s.executors|
    requires w.executors == Seen(s.executors, who)
    requires who(s.items[i].submitter) != who(s.executors[s.items[i].start].thread)
    ensures B.Chained(w.executors)
    ensures var t, r := T.SubmitAtOnce(s, i), B.SubmitTo(w, s.items[i].start, who(s.items[i].submitter));
      && (t.items[i].phase.Accepted? ==>
            t.items[i].phase.host < |s.executors|
            && r == Success(B.Choice(who(s.executors[t.items[i].phase.host].thread), false)))
      && (t.items[i].phase.Refused? <==> r == Failure(B.QuitOrBroken))
  {
    ChainedAlike(s.executors, who);
    SubmitAlike(s.executors, who, s.items[i].start);
  }
}
