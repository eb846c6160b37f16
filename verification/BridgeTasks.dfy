/**
 * Tasks that take turns. A task is a list of awaited pieces; between two pieces any other task may
 * run one of its own, or create a task. Every task has its own context; executors, the loop table,
 * the shared worker and the threads' records of their loops belong to all of them.
 */
module BridgeTasks {
  import opened Wrappers
  import opened Contexts
  import opened Bridge
  import opened UpToEquality
  import opened BridgeRelation
  import opened BridgeTheorems

  // `last` is what the previous piece came to: the input of the next one, or the end.
  datatype Running = Running(loop: nat, frames: seq<nat>, ctx: Context, rest: seq<Program>, last: Outcome,
                             observed: seq<Read>)

  // `stuck`: a piece has come to wait for ever, in a thread all of them may need. What becomes of
  // the others then is not followed any further.
  datatype Tasks = Tasks(all: seq<Running>, world: World, stuck: bool)

  // `Turn(i)`: task i runs its next piece. `Create(i, ...)`: task i creates a task.
  datatype Action = Turn(i: nat) | Create(i: nat, body: seq<Program>, input: Value)

  predicate CanRun(rest: seq<Program>, last: Outcome) {
    rest != [] && last.Gave?
  }

  function RunPiece(t: Running, w: World): Bridged
    requires CanRun(t.rest, t.last)
  {
    RunBridged(t.rest[0], t.last.v, Async(t.loop), t.frames, t.ctx, w.(observed := []))
  }

  function After(t: Running, r: Bridged): Running
    requires t.rest != []
  {
    t.(ctx := r.ctx, rest := t.rest[1..], last := r.outcome, observed := t.observed + r.world.observed)
  }

  function Advance(s: Tasks, a: Action): Tasks {
    if s.stuck || a.i >= |s.all| then s
    else
      var t := s.all[a.i];
      match a
      case Turn(i) =>
        if !CanRun(t.rest, t.last) then s
        else
          var r := RunPiece(t, s.world);
          Tasks(s.all[i := After(t, r)], r.world, r.outcome.Waits?)
      case Create(_, body, input) =>
        s.(all := s.all + [Running(t.loop, t.frames, t.ctx, body, Gave(input), [])])
  }

  function AdvanceAll(s: Tasks, acts: seq<Action>): Tasks
    decreases |acts|
  {
    if acts == [] then s else AdvanceAll(Advance(s, acts[0]), acts[1..])
  }

  // ---------------------------------------------------------------------------------------
  // The same on one thread, each task by itself
  // ---------------------------------------------------------------------------------------

  datatype Alone = Alone(state: Flat, rest: seq<Program>, last: Outcome, observed: seq<Read>)

  function AdvanceAlone(t: Alone): Alone {
    if !CanRun(t.rest, t.last) then t
    else
      var d := RunDirect(t.rest[0], t.last.v, true, t.state);
      Alone(d.state, t.rest[1..], d.outcome, t.observed + d.observed)
  }

  function Directly(ts: seq<Alone>, a: Action): seq<Alone> {
    if a.i >= |ts| then ts
    else
      match a
      case Turn(i) => ts[i := AdvanceAlone(ts[i])]
      case Create(i, body, input) => ts + [Alone(ts[i].state, body, Gave(input), [])]
  }

  function DirectlyAll(ts: seq<Alone>, acts: seq<Action>): seq<Alone>
    decreases |acts|
  {
    if acts == [] then ts else DirectlyAll(Directly(ts, acts[0]), acts[1..])
  }

  // The pieces one after the other, as a program.
  function Whole(body: seq<Program>): Program {
    if body == [] then Give(Input) else Then(body[0], Whole(body[1..]))
  }

  // What becomes of a task that is left to itself.
  function Finish(t: Alone): Alone
    decreases |t.rest|
  {
    if !CanRun(t.rest, t.last) then t else Finish(AdvanceAlone(t))
  }

  // ---------------------------------------------------------------------------------------
  // What holds while tasks take turns
  // ---------------------------------------------------------------------------------------

  ghost predicate AllReady(s: Tasks) {
    s.stuck || forall i | 0 <= i < |s.all| :: Ready(Async(s.all[i].loop), s.all[i].frames, s.all[i].ctx, s.world)
  }

  predicate AlikeTask(t: Running, d: Alone) {
    && t.rest == d.rest && BlurOutcome(t.last) == BlurOutcome(d.last)
    && Sight(t.ctx) == BlurFlat(d.state) && BlurReads(t.observed) == BlurReads(d.observed)
  }

  ghost predicate AlikeTasks(s: Tasks, ts: seq<Alone>) {
    s.stuck || (|s.all| == |ts| && forall i | 0 <= i < |ts| :: AlikeTask(s.all[i], ts[i]))
  }

  // What one task does leaves every other one ready to go on.
  lemma OthersStayReady(loop: nat, frames: seq<nat>, ctx: Context, w: World, mine: Context, mine': Context, w': World)
    requires Ready(Async(loop), frames, ctx, w)
    requires Framed(mine, w, mine', w') && WorldOk(w')
    ensures Ready(Async(loop), frames, ctx, w')
  {
    BlockedLater(w.executors, w'.executors, frames);
  }

  lemma ReadyAnyLog(at: Place, frames: seq<nat>, ctx: Context, w: World, observed: seq<Read>)
    requires Ready(at, frames, ctx, w)
    ensures Ready(at, frames, ctx, w.(observed := observed))
  {
  }

  // A piece does what it does directly, from variables == cannot tell from the direct ones.
  lemma PieceMatches(t: Running, d: Alone, w: World)
    requires Ready(Async(t.loop), t.frames, t.ctx, w)
    requires AlikeTask(t, d) && CanRun(t.rest, t.last)
    ensures var r, e := RunPiece(t, w), RunDirect(d.rest[0], d.last.v, true, d.state);
      Follows(r, e, Async(t.loop), t.frames, t.ctx, w.(observed := []))
  {
    var w0, p := w.(observed := []), t.rest[0];
    ReadyAnyLog(Async(t.loop), t.frames, t.ctx, w, []);
    BridgeIsTransparent(p, t.last.v, Async(t.loop), t.frames, t.ctx, w0);
    DirectRespects(p, t.last.v, d.last.v, true, View(t.ctx), d.state);
    FollowsAlike(RunPiece(t, w), RunDirect(p, t.last.v, true, View(t.ctx)), RunDirect(p, d.last.v, true, d.state),
                 Async(t.loop), t.frames, t.ctx, w0);
  }

  lemma AfterIsAlike(t: Running, d: Alone, r: Bridged, w: World)
    requires AlikeTask(t, d) && CanRun(t.rest, t.last)
    requires Matches(r, RunDirect(d.rest[0], d.last.v, true, d.state), Async(t.loop), t.frames, t.ctx,
                     w.(observed := []))
    ensures AlikeTask(After(t, r), AdvanceAlone(d))
  {
    var e := RunDirect(d.rest[0], d.last.v, true, d.state);
    assert BlurReads([]) + BlurReads(e.observed) == BlurReads(e.observed);
    BlurAppend(t.observed, r.world.observed);
    BlurAppend(d.observed, e.observed);
  }

  lemma FrameOfPiece(r: Bridged, d: Direct, t: Running, w: World)
    requires Ready(Async(t.loop), t.frames, t.ctx, w)
    requires Matches(r, d, Async(t.loop), t.frames, t.ctx, w.(observed := []))
    ensures Ready(Async(t.loop), t.frames, r.ctx, r.world)
    ensures Framed(t.ctx, w.(observed := []), r.ctx, r.world) && WorldOk(r.world)
  {
  }

  lemma TurnKeeps(s: Tasks, ts: seq<Alone>, i: nat)
    requires !s.stuck && AllReady(s) && AlikeTasks(s, ts) && i < |s.all| && CanRun(s.all[i].rest, s.all[i].last)
    ensures AllReady(Advance(s, Turn(i))) && AlikeTasks(Advance(s, Turn(i)), Directly(ts, Turn(i)))
  {
    var t, w0 := s.all[i], s.world.(observed := []);
    assert AlikeTask(t, ts[i]) && Ready(Async(t.loop), t.frames, t.ctx, s.world);
    var r, d := RunPiece(t, s.world), RunDirect(ts[i].rest[0], ts[i].last.v, true, ts[i].state);
    PieceMatches(t, ts[i], s.world);
    if r.outcome.Waits? {
      return;
    }
    AfterIsAlike(t, ts[i], r, s.world);
    FrameOfPiece(r, d, t, s.world);
    var s', ts' := Advance(s, Turn(i)), Directly(ts, Turn(i));
    assert s' == Tasks(s.all[i := After(t, r)], r.world, false);
    forall j | 0 <= j < |s'.all| ensures Ready(Async(s'.all[j].loop), s'.all[j].frames, s'.all[j].ctx, s'.world) {
      if j != i {
        var o := s.all[j];
        ReadyAnyLog(Async(o.loop), o.frames, o.ctx, s.world, []);
        OthersStayReady(o.loop, o.frames, o.ctx, w0, t.ctx, r.ctx, r.world);
      }
    }
    forall j | 0 <= j < |ts'| ensures AlikeTask(s'.all[j], ts'[j]) {
      assert j != i ==> AlikeTask(s.all[j], ts[j]);
    }
  }

  lemma CreateKeeps(s: Tasks, ts: seq<Alone>, i: nat, body: seq<Program>, input: Value)
    requires !s.stuck && AllReady(s) && AlikeTasks(s, ts) && i < |s.all|
    ensures AllReady(Advance(s, Create(i, body, input)))
    ensures AlikeTasks(Advance(s, Create(i, body, input)), Directly(ts, Create(i, body, input)))
  {
    var s', ts' := Advance(s, Create(i, body, input)), Directly(ts, Create(i, body, input));
    assert Ready(Async(s.all[i].loop), s.all[i].frames, s.all[i].ctx, s.world) && AlikeTask(s.all[i], ts[i]);
    forall j | 0 <= j < |ts'| ensures AlikeTask(s'.all[j], ts'[j]) {
      assert j < |ts| ==> AlikeTask(s.all[j], ts[j]);
    }
  }

  lemma ActionKeeps(s: Tasks, ts: seq<Alone>, a: Action)
    requires AllReady(s) && AlikeTasks(s, ts)
    ensures AllReady(Advance(s, a)) && AlikeTasks(Advance(s, a), Directly(ts, a))
  {
    if !s.stuck && a.i < |s.all| {
      assert AlikeTask(s.all[a.i], ts[a.i]);
      match a
      case Create(i, body, input) => CreateKeeps(s, ts, i, body, input);
      case Turn(i) =>
        if CanRun(s.all[i].rest, s.all[i].last) {
          TurnKeeps(s, ts, i);
        } else {
          assert ts[i := AdvanceAlone(ts[i])] == ts;
        }
    }
  }

  // Transparency for tasks that take turns: whatever the order of turns, every task, created or
  // creator, has the reads, the values and the variables it has when it runs directly, where no
  // task can touch another's; unless one comes to wait for ever.
  lemma {:induction false} TasksAreTransparent(s: Tasks, ts: seq<Alone>, acts: seq<Action>)
    requires AllReady(s) && AlikeTasks(s, ts)
    ensures AllReady(AdvanceAll(s, acts)) && AlikeTasks(AdvanceAll(s, acts), DirectlyAll(ts, acts))
    decreases |acts|
  {
    if acts != [] {
      ActionKeeps(s, ts, acts[0]);
      TasksAreTransparent(Advance(s, acts[0]), Directly(ts, acts[0]), acts[1..]);
    }
  }

  // ---------------------------------------------------------------------------------------
  // What a direct task does
  // ---------------------------------------------------------------------------------------

  // However the turns fall, a task comes to what it comes to alone.
  lemma {:induction false} TurnsDoNotMatter(ts: seq<Alone>, acts: seq<Action>, i: nat)
    requires i < |ts|
    ensures i < |DirectlyAll(ts, acts)| && Finish(DirectlyAll(ts, acts)[i]) == Finish(ts[i])
    decreases |acts|
  {
    if acts != [] {
      TurnsDoNotMatter(Directly(ts, acts[0]), acts[1..], i);
    }
  }

  // And that is what its pieces come to as one program.
  lemma {:induction false} FinishIsWhole(st: Flat, body: seq<Program>, v: Value, observed: seq<Read>)
    ensures var t, d := Finish(Alone(st, body, Gave(v), observed)), RunDirect(Whole(body), v, true, st);
      t.state == d.state && t.last == d.outcome && t.observed == observed + d.observed
    decreases |body|
  {
    if body == [] {
      assert observed + [] == observed;
    } else {
      var d := RunDirect(body[0], v, true, st);
      var next := Alone(d.state, body[1..], d.outcome, observed + d.observed);
      assert Finish(Alone(st, body, Gave(v), observed)) == Finish(next);
      if d.outcome.Gave? {
        FinishIsWhole(d.state, body[1..], d.outcome.v, observed + d.observed);
        var e := RunDirect(Whole(body[1..]), d.outcome.v, true, d.state);
        assert (observed + d.observed) + e.observed == observed + (d.observed + e.observed);
      }
    }
  }

  lemma {:induction false} StuckStays(s: Tasks, acts: seq<Action>)
    requires s.stuck
    ensures AdvanceAll(s, acts) == s
    decreases |acts|
  {
    if acts != [] {
      StuckStays(s, acts[1..]);
    }
  }

  // A thread per call never gets any of them stuck.
  lemma {:induction false} NeverStuckPerCall(s: Tasks, ts: seq<Alone>, acts: seq<Action>)
    requires AllReady(s) && AlikeTasks(s, ts) && !s.stuck && s.world.workers.PerCall?
    ensures !AdvanceAll(s, acts).stuck && AdvanceAll(s, acts).world.workers.PerCall?
    decreases |acts|
  {
    if acts != [] {
      PerCallStep(s, ts, acts[0]);
      ActionKeeps(s, ts, acts[0]);
      NeverStuckPerCall(Advance(s, acts[0]), Directly(ts, acts[0]), acts[1..]);
    }
  }

  lemma PerCallStep(s: Tasks, ts: seq<Alone>, a: Action)
    requires AllReady(s) && AlikeTasks(s, ts) && !s.stuck && s.world.workers.PerCall?
    ensures !Advance(s, a).stuck && Advance(s, a).world.workers.PerCall?
  {
    if a.i < |s.all| && a.Turn? && CanRun(s.all[a.i].rest, s.all[a.i].last) {
      assert AlikeTask(s.all[a.i], ts[a.i]);
      PieceMatches(s.all[a.i], ts[a.i], s.world);
    }
  }

  // A task that is through, after any turns of any tasks: it has read, come to and left what its
  // whole program does directly from the variables it started with.
  lemma FinishedTask(s: Tasks, acts: seq<Action>, i: nat, body: seq<Program>, input: Value)
    requires AllReady(s) && i < |s.all| && !AdvanceAll(s, acts).stuck
    requires s.all[i].rest == body && s.all[i].last == Gave(input) && s.all[i].observed == []
    requires i < |AdvanceAll(s, acts).all| && !CanRun(AdvanceAll(s, acts).all[i].rest, AdvanceAll(s, acts).all[i].last)
    ensures var t, d := AdvanceAll(s, acts).all[i], RunDirect(Whole(body), input, true, View(s.all[i].ctx));
      && BlurOutcome(t.last) == BlurOutcome(d.outcome)
      && Sight(t.ctx) == BlurFlat(d.state) && BlurReads(t.observed) == BlurReads(d.observed)
  {
    var ts := seq(|s.all|, k requires 0 <= k < |s.all| =>
      Alone(View(s.all[k].ctx), s.all[k].rest, s.all[k].last, s.all[k].observed));
    if s.stuck {
      StuckStays(s, acts);
    }
    TasksAreTransparent(s, ts, acts);
    TurnsDoNotMatter(ts, acts, i);
    var t := DirectlyAll(ts, acts)[i];
    assert AlikeTask(AdvanceAll(s, acts).all[i], t);
    assert Finish(t) == t;
    FinishIsWhole(View(s.all[i].ctx), body, input, []);
    assert [] + RunDirect(Whole(body), input, true, View(s.all[i].ctx)).observed ==
      RunDirect(Whole(body), input, true, View(s.all[i].ctx)).observed;
  }
}
