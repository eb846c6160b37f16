/**
 * On which loop every coroutine runs, and which programs wait for ever. Both are read off the direct
 * run: what counts is `force_new_loop` and the running loop, if any, that the calling thread
 * remembers from the last sync code a loop handed to it.
 */
module BridgeLoops {
  import opened Wrappers
  import opened Contexts
  import opened Bridge
  import opened UpToEquality
  import opened BridgeRelation
  import opened BridgeTheorems

  // A coroutine starts on a loop, or sync code in a thread.
  datatype Leg = OnLoop(loop: nat) | InThread(sensitive: bool)

  // The legs of a run, as its log has them.
  function Legs(events: seq<Event>): (legs: seq<Leg>)
    ensures |legs| == |events|
  {
    seq(|events|, i requires 0 <= i < |events| => LegOf(events[i]))
  }

  function LegOf(ev: Event): Leg {
    match ev
    case Called(_, _, loop) => OnLoop(loop)
    case Ran(sensitive, _, _, _, _) => InThread(sensitive)
  }

  lemma LegsInTwo(a: seq<Event>, b: seq<Event>)
    ensures Legs(a + b) == Legs(a) + Legs(b)
  {
  }

  // Where a direct run stands. `loop`: that of the async code at hand, none in sync code. `memory`:
  // the running loop that the thread of the sync code at hand remembers, or the thread that waits
  // for the async code at hand. `next`: the next new loop. `shared`: all loops that calls make run
  // in one thread; `inside`: within such a loop.
  datatype Standing = Standing(loop: Option<nat>, memory: Option<nat>, next: nat, shared: bool, inside: bool)

  // What comes of the loops: whether the run has come to wait, the legs, and what is remembered.
  datatype Course = Course(waits: bool, legs: seq<Leg>, memory: Option<nat>, next: nat)

  function Stay(s: Standing): Course {
    Course(false, [], s.memory, s.next)
  }

  function Onward(s: Standing, c: Course): Standing {
    s.(memory := c.memory, next := c.next)
  }

  function Together(c: Course, c': Course): Course {
    c'.(legs := c.legs + c'.legs)
  }

  // Along the direct run of `p`.
  function CourseOf(p: Program, input: Value, st: Flat, s: Standing): Course {
    match p
    case Then(a, b) =>
      var c, d := CourseOf(a, input, st, s), RunDirect(a, input, s.loop.Some?, st);
      if c.waits || !d.outcome.Gave? then c else Together(c, CourseOf(b, d.outcome.v, d.state, Onward(s, c)))
    case Try(a, b) =>
      var c, d := CourseOf(a, input, st, s), RunDirect(a, input, s.loop.Some?, st);
      if c.waits || !d.outcome.Raised? then c else Together(c, CourseOf(b, input, d.state, Onward(s, c)))
    case If(v, a, b) => if Equal(input, v) then CourseOf(a, input, st, s) else CourseOf(b, input, st, s)
    case Task(a) => if s.loop.Some? then CourseOf(a, input, st, s) else Stay(s)
    case SyncToAsync(sensitive, a) =>
      if s.loop.None? then Stay(s)
      else
        // the thread of the sync code remembers the loop it works for
        var c := CourseOf(a, input, st, s.(loop := None, memory := s.loop));
        Course(c.waits, [InThread(sensitive)] + c.legs, if sensitive then c.memory else s.memory, c.next)
    case AsyncToSync(force, a) =>
      if s.loop.Some? then Stay(s)
      else
        var own := force || s.memory.None?;
        var loop := if own then s.next else s.memory.value;
        if own && s.shared && s.inside then Course(true, [OnLoop(loop)], s.memory, s.next)
        else
          var c := CourseOf(a, input, st, InCall(s, own, loop));
          // a loop of the call's own runs no longer
          Course(c.waits, [OnLoop(loop)] + c.legs, if own && c.memory == Some(loop) then None else c.memory, c.next)
    case _ => Stay(s)
  }

  function InCall(s: Standing, own: bool, loop: nat): Standing {
    s.(loop := Some(loop), next := if own then s.next + 1 else s.next, inside := s.inside || own)
  }

  lemma CourseInTwo(p: Program, input: Value, st: Flat, s: Standing)
    requires InTwoParts(p)
    ensures var c, d := CourseOf(First(p), input, st, s), RunDirect(First(p), input, s.loop.Some?, st);
      CourseOf(p, input, st, s) ==
      if c.waits || !GoesOn(p, d.outcome) then c
      else Together(c, CourseOf(Rest(p), Passed(p, d.outcome, input), d.state, Onward(s, c)))
  {
  }

  // The course does not depend on which of two equal values there is.
  lemma {:induction false} CourseRespects(p: Program, input: Value, input': Value, st: Flat, st': Flat, s: Standing)
    requires Equal(input, input') && BlurFlat(st) == BlurFlat(st')
    ensures CourseOf(p, input, st, s) == CourseOf(p, input', st', s)
    decreases p, 1
  {
    match p
    case Then(_, _) => TwoCoursesRespect(p, input, input', st, st', s);
    case Try(_, _) => TwoCoursesRespect(p, input, input', st, st', s);
    case If(v, a, b) => CourseRespects(if Equal(input, v) then a else b, input, input', st, st', s);
    case Task(a) => CourseRespects(a, input, input', st, st', s);
    case SyncToAsync(_, a) => CourseRespects(a, input, input', st, st', s.(loop := None, memory := s.loop));
    case AsyncToSync(_, _) => CallCourseRespects(p, input, input', st, st', s);
    case _ =>
  }

  lemma {:induction false} CallCourseRespects(p: Program, input: Value, input': Value, st: Flat, st': Flat, s: Standing)
    requires p.AsyncToSync?
    requires Equal(input, input') && BlurFlat(st) == BlurFlat(st')
    ensures CourseOf(p, input, st, s) == CourseOf(p, input', st', s)
    decreases p, 0
  {
    var own := p.forceNewLoop || s.memory.None?;
    var loop := if own then s.next else s.memory.value;
    CourseRespects(p.coro, input, input', st, st', InCall(s, own, loop));
  }

  lemma {:induction false} TwoCoursesRespect(p: Program, input: Value, input': Value, st: Flat, st': Flat, s: Standing)
    requires InTwoParts(p)
    requires Equal(input, input') && BlurFlat(st) == BlurFlat(st')
    ensures CourseOf(p, input, st, s) == CourseOf(p, input', st', s)
    decreases p, 0
  {
    CourseInTwo(p, input, st, s);
    CourseInTwo(p, input', st', s);
    CourseRespects(First(p), input, input', st, st', s);
    DirectRespects(First(p), input, input', s.loop.Some?, st, st');
    var d, d' := RunDirect(First(p), input, s.loop.Some?, st), RunDirect(First(p), input', s.loop.Some?, st');
    var c := CourseOf(First(p), input, st, s);
    if !c.waits && GoesOn(p, d.outcome) {
      CourseRespects(Rest(p), Passed(p, d.outcome, input), Passed(p, d'.outcome, input'), d.state, d'.state,
                     Onward(s, c));
    }
  }

  // ---------------------------------------------------------------------------------------
  // What the threads remember
  // ---------------------------------------------------------------------------------------

  // The running loop the thread remembers.
  function Memory(t: Thread, w: World): Option<nat> {
    if t in w.mainLoop && w.mainLoop[t] in w.running then Some(w.mainLoop[t]) else None
  }

  // The thread that runs the sync code at hand, or waits for the async code at hand.
  predicate HasHost(at: Place, frames: seq<nat>, w: World) {
    at.Sync? || (frames != [] && frames[0] < |w.executors| && !w.executors[frames[0]].broken)
  }

  // The closest frame, if there is one, has not returned.
  predicate FramesWait(frames: seq<nat>, w: World) {
    frames == [] || HasHost(Async(0), frames, w)
  }

  function Host(at: Place, frames: seq<nat>, w: World): Thread
    requires HasHost(at, frames, w)
  {
    if at.Sync? then at.t else w.executors[frames[0]].thread
  }

  // Calls on the way wait, the loop at hand runs, and no thread remembers a loop yet to be made.
  predicate Steady(at: Place, frames: seq<nat>, w: World) {
    && (forall t | t in w.mainLoop :: w.mainLoop[t] < w.nextLoop)
    && FramesWait(frames, w)
    && (at.Async? ==> at.loop in w.running)
  }

  // The state of the bridge is where the direct run stands.
  predicate Tracks(at: Place, frames: seq<nat>, w: World, s: Standing) {
    && Steady(at, frames, w)
    && s.loop == (if at.Async? then Some(at.loop) else None)
    && (HasHost(at, frames, w) ==> s.memory == Memory(Host(at, frames, w), w))
    && s.next == w.nextLoop && s.shared == !w.workers.PerCall? && s.inside == (w.loopExecutors != map[])
  }

  // Code runs and hands on to its own host and to new workers, so no other thread is made to
  // remember anything.
  lemma {:induction false} OthersRemember(p: Program, input: Value, at: Place, frames: seq<nat>, ctx: Context,
                                          w: World, u: Thread)
    requires Ready(at, frames, ctx, w) && HasHost(at, frames, w) && FramesWait(frames, w)
    requires u != Host(at, frames, w) && HostOk(u, w)
    requires !RunBridged(p, input, at, frames, ctx, w).outcome.Waits?
    ensures Lookup(RunBridged(p, input, at, frames, ctx, w).world.mainLoop, u) == Lookup(w.mainLoop, u)
    decreases p, 1
  {
    match p
    case Then(_, _) => TwoOthersRemember(p, input, at, frames, ctx, w, u);
    case Try(_, _) => TwoOthersRemember(p, input, at, frames, ctx, w, u);
    case If(v, a, b) => OthersRemember(if Equal(input, v) then a else b, input, at, frames, ctx, w, u);
    case Task(a) =>
      if at.Async? {
        OthersRemember(a, input, at, frames, ctx, w, u);
      }
    case SyncToAsync(_, _) =>
      if at.Async? {
        HandedOthersRemember(p, input, at.loop, frames, ctx, w, u);
      }
    case AsyncToSync(_, _) =>
      if at.Sync? {
        CalledOthersRemember(p, input, at.t, frames, ctx, w, u);
      }
    case _ =>
  }

  lemma {:induction false} TwoOthersRemember(p: Program, input: Value, at: Place, frames: seq<nat>, ctx: Context,
                                             w: World, u: Thread)
    requires InTwoParts(p)
    requires Ready(at, frames, ctx, w) && HasHost(at, frames, w) && FramesWait(frames, w)
    requires u != Host(at, frames, w) && HostOk(u, w)
    requires !RunBridged(p, input, at, frames, ctx, w).outcome.Waits?
    ensures Lookup(RunBridged(p, input, at, frames, ctx, w).world.mainLoop, u) == Lookup(w.mainLoop, u)
    decreases p, 0
  {
    RunInTwo(p, input, at, frames, ctx, w);
    OthersRemember(First(p), input, at, frames, ctx, w, u);
    BridgeIsTransparent(First(p), input, at, frames, ctx, w);
    var r := RunBridged(First(p), input, at, frames, ctx, w);
    if GoesOn(p, r.outcome) {
      HostStays(at, frames, ctx, w, r.ctx, r.world);
      OthersRemember(Rest(p), Passed(p, r.outcome, input), at, frames, r.ctx, r.world, u);
    }
  }

  lemma HostStays(at: Place, frames: seq<nat>, ctx: Context, w: World, ctx': Context, w': World)
    requires Framed(ctx, w, ctx', w')
    ensures HasHost(at, frames, w) ==> HasHost(at, frames, w') && Host(at, frames, w') == Host(at, frames, w)
    ensures FramesWait(frames, w) ==> FramesWait(frames, w')
    ensures forall u | HostOk(u, w) :: HostOk(u, w')
  {
    if frames != [] && frames[0] < |w.executors| {
      assert w'.executors[frames[0]] == w.executors[frames[0]];
    }
  }

  // Sensitive code goes to the host, other code to a new worker.
  lemma HandedToHost(sensitive: bool, loop: nat, frames: seq<nat>, ctx: Context, w: World)
    requires Ready(Async(loop), frames, ctx, w)
    ensures var choice := ChooseThread(sensitive, loop, ctx, w);
      && choice.Success?
      && (sensitive && HasHost(Async(loop), frames, w) ==> choice.value.thread == Host(Async(loop), frames, w))
      && (!sensitive ==> choice.value.thread == PoolWorker(w.nextWorker))
  {
    ThreadChosen(sensitive, loop, frames, ctx, w);
  }

  lemma {:induction false} HandedOthersRemember(p: Program, input: Value, loop: nat, frames: seq<nat>, ctx: Context,
                                                w: World, u: Thread)
    requires p.SyncToAsync?
    requires Ready(Async(loop), frames, ctx, w) && HasHost(Async(loop), frames, w)
    requires u != Host(Async(loop), frames, w) && HostOk(u, w)
    requires !RunBridged(p, input, Async(loop), frames, ctx, w).outcome.Waits?
    ensures Lookup(RunBridged(p, input, Async(loop), frames, ctx, w).world.mainLoop, u) == Lookup(w.mainLoop, u)
    decreases p, 0
  {
    HandedToHost(p.sensitive, loop, frames, ctx, w);
    var choice := ChooseThread(p.sensitive, loop, ctx, w).value;
    var t := choice.thread;
    HandedIs(p, input, loop, frames, ctx, w, choice);
    HandedFree(p.sensitive, loop, frames, ctx, w, choice, u);
    OthersRemember(p.sync, input, Sync(t), frames, Restored(Marked(ctx, choice), Marked(ctx, choice), t),
                   Hand(w, p.sensitive, t, loop, ctx, frames), u);
  }

  lemma HandedFree(sensitive: bool, loop: nat, frames: seq<nat>, ctx: Context, w: World, choice: Choice, u: Thread)
    requires Ready(Async(loop), frames, ctx, w) && FramesWait(frames, w) && HostOk(u, w)
    requires sensitive ==> HasHost(Async(loop), frames, w) && u != Host(Async(loop), frames, w)
    requires ChooseThread(sensitive, loop, ctx, w) == Success(choice)
    ensures var w' := Hand(w, sensitive, choice.thread, loop, ctx, frames);
      && Ready(Sync(choice.thread), frames, Restored(Marked(ctx, choice), Marked(ctx, choice), choice.thread), w')
      && FramesWait(frames, w') && u != choice.thread && HostOk(u, w')
      && Lookup(w'.mainLoop, u) == Lookup(w.mainLoop, u)
  {
    Entered(sensitive, loop, frames, ctx, w, choice);
    HandedToHost(sensitive, loop, frames, ctx, w);
  }

  lemma {:induction false} CalledOthersRemember(p: Program, input: Value, t: Thread, frames: seq<nat>, ctx: Context,
                                                w: World, u: Thread)
    requires p.AsyncToSync?
    requires Ready(Sync(t), frames, ctx, w) && u != t && HostOk(u, w)
    requires !RunBridged(p, input, Sync(t), frames, ctx, w).outcome.Waits?
    ensures Lookup(RunBridged(p, input, Sync(t), frames, ctx, w).world.mainLoop, u) == Lookup(w.mainLoop, u)
    decreases p, 0
  {
    var x := EnterCall(p.forceNewLoop, t, frames, ctx, w);
    CallRemembersNothing(p, input, t, frames, ctx, w);
    EnteredByHost(p.forceNewLoop, t, frames, ctx, w);
    OthersRemember(p.coro, input, Async(x.loop), [|w.executors|] + frames, x.inner, x.world, u);
  }

  lemma EnteredByHost(force: bool, t: Thread, frames: seq<nat>, ctx: Context, w: World)
    requires Ready(Sync(t), frames, ctx, w)
    ensures var x, all := EnterCall(force, t, frames, ctx, w), [|w.executors|] + frames;
      && Ready(Async(x.loop), all, x.inner, x.world) && HasHost(Async(x.loop), all, x.world) && FramesWait(all, x.world)
      && Host(Async(x.loop), all, x.world) == t && x.world.mainLoop == w.mainLoop && x.world.nextWorker == w.nextWorker
  {
    CallEntered(force, t, frames, ctx, w);
    CallHost(force, t, frames, ctx, w);
  }

  // The call itself makes no thread remember a loop.
  lemma CallRemembersNothing(p: Program, input: Value, t: Thread, frames: seq<nat>, ctx: Context, w: World)
    requires p.AsyncToSync?
    ensures var x := EnterCall(p.forceNewLoop, t, frames, ctx, w);
      var r := RunBridged(p.coro, input, Async(x.loop), [|w.executors|] + frames, x.inner, x.world);
      var whole := RunBridged(p, input, Sync(t), frames, ctx, w);
      !whole.outcome.Waits? ==> !r.outcome.Waits? && whole.world.mainLoop == r.world.mainLoop
  {
    CalledIs(p, input, t, frames, ctx, w);
  }

  // The coroutine's host is the caller.
  lemma CallHost(force: bool, t: Thread, frames: seq<nat>, ctx: Context, w: World)
    ensures var x, all := EnterCall(force, t, frames, ctx, w), [|w.executors|] + frames;
      && HasHost(Async(x.loop), all, x.world) && FramesWait(all, x.world) && Host(Async(x.loop), all, x.world) == t
      && x.world.mainLoop == w.mainLoop && x.world.nextWorker == w.nextWorker
  {
  }

  // ---------------------------------------------------------------------------------------
  // The course is followed
  // ---------------------------------------------------------------------------------------

  // The run has the legs of the course and waits exactly if the course does; else they still stand
  // at the same place.
  predicate KeepsCourse(r: Bridged, c: Course, at: Place, frames: seq<nat>, w: World, s: Standing) {
    && r.outcome.Waits? == c.waits
    && Legs(r.world.events) == Legs(w.events) + c.legs
    && (!c.waits ==> Tracks(at, frames, r.world, Onward(s, c)))
  }

  predicate FollowsItsCourse(p: Program, input: Value, at: Place, frames: seq<nat>, ctx: Context, w: World,
                             s: Standing) {
    KeepsCourse(RunBridged(p, input, at, frames, ctx, w), CourseOf(p, input, View(ctx), s), at, frames, w, s)
  }

  // From any state every run goes the way the direct run says: the same calls in the same order,
  // each coroutine on the loop that is foreseen, and no loop is made but those foreseen.
  lemma {:induction false} FollowsCourse(p: Program, input: Value, at: Place, frames: seq<nat>, ctx: Context, w: World,
                                         s: Standing)
    requires Ready(at, frames, ctx, w) && Tracks(at, frames, w, s)
    ensures FollowsItsCourse(p, input, at, frames, ctx, w, s)
    decreases p, 1
  {
    if InTwoParts(p) {
      TwoFollowCourse(p, input, at, frames, ctx, w, s);
    } else if p.If? {
      FollowsCourse(if Equal(input, p.v) then p.yes else p.no, input, at, frames, ctx, w, s);
      IfFollowsCourse(p, input, at, frames, ctx, w, s);
    } else if p.Task? && at.Async? {
      FollowsCourse(p.coro, input, at, frames, ctx, w, s);
      TaskFollowsCourse(p, input, at, frames, ctx, w, s);
    } else if p.SyncToAsync? && at.Async? {
      HandFollowsCourse(p, input, at.loop, frames, ctx, w, s);
    } else if p.AsyncToSync? && at.Sync? {
      CallFollowsCourse(p, input, at.t, frames, ctx, w, s);
    } else {
      StepFollowsCourse(p, input, at, frames, ctx, w, s);
    }
  }

  lemma IfFollowsCourse(p: Program, input: Value, at: Place, frames: seq<nat>, ctx: Context, w: World, s: Standing)
    requires p.If?
    requires FollowsItsCourse(if Equal(input, p.v) then p.yes else p.no, input, at, frames, ctx, w, s)
    ensures FollowsItsCourse(p, input, at, frames, ctx, w, s)
  {
  }

  lemma TaskFollowsCourse(p: Program, input: Value, at: Place, frames: seq<nat>, ctx: Context, w: World, s: Standing)
    requires p.Task? && at.Async? && s.loop.Some? && FollowsItsCourse(p.coro, input, at, frames, ctx, w, s)
    ensures FollowsItsCourse(p, input, at, frames, ctx, w, s)
  {
  }

  // Code with no code in it, and the calls that are refused.
  predicate OneStep(p: Program, at: Place) {
    Leaf(p) || (if at.Sync? then p.Task? || p.SyncToAsync? else p.AsyncToSync?)
  }

  lemma StepFollowsCourse(p: Program, input: Value, at: Place, frames: seq<nat>, ctx: Context, w: World, s: Standing)
    requires OneStep(p, at) && Tracks(at, frames, w, s)
    ensures FollowsItsCourse(p, input, at, frames, ctx, w, s)
  {
    StepOnlyReads(p, input, at, frames, ctx, w);
    StepIsNoCourse(p, input, at, View(ctx), s);
    SameTracks(at, frames, w, RunBridged(p, input, at, frames, ctx, w).world.observed, s);
    assert Legs(w.events) + [] == Legs(w.events);
  }

  lemma StepIsNoCourse(p: Program, input: Value, at: Place, st: Flat, s: Standing)
    requires OneStep(p, at) && s.loop.Some? == at.Async?
    ensures CourseOf(p, input, st, s) == Stay(s)
  {
  }

  lemma StepOnlyReads(p: Program, input: Value, at: Place, frames: seq<nat>, ctx: Context, w: World)
    requires OneStep(p, at)
    ensures var r := RunBridged(p, input, at, frames, ctx, w);
      !r.outcome.Waits? && r.world == w.(observed := r.world.observed)
  {
  }

  lemma SameTracks(at: Place, frames: seq<nat>, w: World, observed: seq<Read>, s: Standing)
    requires Tracks(at, frames, w, s)
    ensures Tracks(at, frames, w.(observed := observed), s)
  {
  }

  lemma {:induction false} TwoFollowCourse(p: Program, input: Value, at: Place, frames: seq<nat>, ctx: Context,
                                           w: World, s: Standing)
    requires InTwoParts(p)
    requires Ready(at, frames, ctx, w) && Tracks(at, frames, w, s)
    ensures FollowsItsCourse(p, input, at, frames, ctx, w, s)
    decreases p, 0
  {
    FollowsCourse(First(p), input, at, frames, ctx, w, s);
    BridgeIsTransparent(First(p), input, at, frames, ctx, w);
    var r, c := RunBridged(First(p), input, at, frames, ctx, w), CourseOf(First(p), input, View(ctx), s);
    if !c.waits && GoesOn(p, r.outcome) {
      FollowsCourse(Rest(p), Passed(p, r.outcome, input), at, frames, r.ctx, r.world, Onward(s, c));
      SecondFollowsCourse(p, input, at, frames, ctx, w, s, r, c);
    } else {
      FirstFollowsCourse(p, input, at, frames, ctx, w, s);
    }
  }

  lemma FirstFollowsCourse(p: Program, input: Value, at: Place, frames: seq<nat>, ctx: Context, w: World, s: Standing)
    requires InTwoParts(p) && Agrees(First(p), input, at, frames, ctx, w) && s.loop.Some? == at.Async?
    requires FollowsItsCourse(First(p), input, at, frames, ctx, w, s)
    requires var o := RunBridged(First(p), input, at, frames, ctx, w).outcome; o.Waits? || !GoesOn(p, o)
    ensures FollowsItsCourse(p, input, at, frames, ctx, w, s)
  {
    RunInTwo(p, input, at, frames, ctx, w);
    CourseInTwo(p, input, View(ctx), s);
  }

  lemma SecondFollowsCourse(p: Program, input: Value, at: Place, frames: seq<nat>, ctx: Context, w: World, s: Standing,
                            r: Bridged, c: Course)
    requires InTwoParts(p) && Agrees(First(p), input, at, frames, ctx, w) && s.loop.Some? == at.Async?
    requires r == RunBridged(First(p), input, at, frames, ctx, w) && GoesOn(p, r.outcome)
    requires c == CourseOf(First(p), input, View(ctx), s) && !c.waits && KeepsCourse(r, c, at, frames, w, s)
    requires FollowsItsCourse(Rest(p), Passed(p, r.outcome, input), at, frames, r.ctx, r.world, Onward(s, c))
    ensures FollowsItsCourse(p, input, at, frames, ctx, w, s)
  {
    RunInTwo(p, input, at, frames, ctx, w);
    CourseInTwo(p, input, View(ctx), s);
    var d := RunDirect(First(p), input, at.Async?, View(ctx));
    var v, v' := Passed(p, r.outcome, input), Passed(p, d.outcome, input);
    CourseRespects(Rest(p), v, v', View(r.ctx), d.state, Onward(s, c));
    KeptTwice(r, c, RunBridged(Rest(p), v, at, frames, r.ctx, r.world), CourseOf(Rest(p), v', d.state, Onward(s, c)),
              at, frames, w, s);
  }

  lemma KeptTwice(r: Bridged, c: Course, r': Bridged, c': Course, at: Place, frames: seq<nat>, w: World, s: Standing)
    requires KeepsCourse(r, c, at, frames, w, s) && KeepsCourse(r', c', at, frames, r.world, Onward(s, c))
    ensures KeepsCourse(r', Together(c, c'), at, frames, w, s)
  {
    assert (Legs(w.events) + c.legs) + c'.legs == Legs(w.events) + (c.legs + c'.legs);
    assert Onward(Onward(s, c), c') == Onward(s, Together(c, c'));
  }

  // The thread remembers the loop at hand.
  function InHand(s: Standing): Standing {
    s.(loop := None, memory := s.loop)
  }

  lemma HandTracks(sensitive: bool, loop: nat, frames: seq<nat>, ctx: Context, w: World, s: Standing, t: Thread)
    requires Tracks(Async(loop), frames, w, s) && WorldOk(w)
    ensures Tracks(Sync(t), frames, Hand(w, sensitive, t, loop, ctx, frames), InHand(s))
    ensures Legs(Hand(w, sensitive, t, loop, ctx, frames).events) == Legs(w.events) + [InThread(sensitive)]
  {
    LegsInTwo(w.events, [RanOn(w, sensitive, t, ctx, frames)]);
  }

  lemma {:induction false} HandFollowsCourse(p: Program, input: Value, loop: nat, frames: seq<nat>, ctx: Context,
                                             w: World, s: Standing)
    requires p.SyncToAsync?
    requires Ready(Async(loop), frames, ctx, w) && Tracks(Async(loop), frames, w, s)
    ensures FollowsItsCourse(p, input, Async(loop), frames, ctx, w, s)
    decreases p, 0
  {
    HandedToHost(p.sensitive, loop, frames, ctx, w);
    var choice := ChooseThread(p.sensitive, loop, ctx, w).value;
    var t := choice.thread;
    var worker, w1 := Restored(Marked(ctx, choice), Marked(ctx, choice), t), Hand(w, p.sensitive, t, loop, ctx, frames);
    Entered(p.sensitive, loop, frames, ctx, w, choice);
    HandTracks(p.sensitive, loop, frames, ctx, w, s, t);
    FollowsCourse(p.sync, input, Sync(t), frames, worker, w1, InHand(s));
    FromHand(p, input, loop, frames, ctx, w, s, choice, worker, w1);
  }

  // The call has kept the course if its sync code has.
  lemma FromHand(p: Program, input: Value, loop: nat, frames: seq<nat>, ctx: Context, w: World, s: Standing,
                 choice: Choice, worker: Context, w1: World)
    requires p.SyncToAsync? && ChooseThread(p.sensitive, loop, ctx, w) == Success(choice)
    requires Ready(Async(loop), frames, ctx, w) && Tracks(Async(loop), frames, w, s)
    requires worker == Restored(Marked(ctx, choice), Marked(ctx, choice), choice.thread)
    requires w1 == Hand(w, p.sensitive, choice.thread, loop, ctx, frames) && View(worker) == View(ctx)
    requires FollowsItsCourse(p.sync, input, Sync(choice.thread), frames, worker, w1, InHand(s))
    ensures FollowsItsCourse(p, input, Async(loop), frames, ctx, w, s)
  {
    var r := RunBridged(p.sync, input, Sync(choice.thread), frames, worker, w1);
    var c := CourseOf(p.sync, input, View(ctx), InHand(s));
    HandTracks(p.sensitive, loop, frames, ctx, w, s, choice.thread);
    HandCourse(p, input, View(ctx), s);
    if !c.waits {
      BackFromHand(p.sync, p.sensitive, input, loop, frames, ctx, w, s, choice, r, c);
    }
    HandKeepsCourse(r, c, p.sensitive, loop, frames, ctx, w, s, choice, w1);
    HandedIs(p, input, loop, frames, ctx, w, choice);
  }

  lemma HandKeepsCourse(r: Bridged, c: Course, sensitive: bool, loop: nat, frames: seq<nat>, ctx: Context, w: World,
                        s: Standing, choice: Choice, w1: World)
    requires Legs(w1.events) == Legs(w.events) + [InThread(sensitive)]
    requires Legs(r.world.events) == Legs(w1.events) + c.legs && r.outcome.Waits? == c.waits
    requires !c.waits ==> Tracks(Async(loop), frames, r.world, Onward(s, Handed(s, sensitive, c)))
    ensures KeepsCourse(HandResult(choice, loop, ctx, r), Handed(s, sensitive, c), Async(loop), frames, w, s)
  {
    assert (Legs(w.events) + [InThread(sensitive)]) + c.legs == Legs(w.events) + ([InThread(sensitive)] + c.legs);
  }

  function Handed(s: Standing, sensitive: bool, c: Course): Course {
    Course(c.waits, [InThread(sensitive)] + c.legs, if sensitive then c.memory else s.memory, c.next)
  }

  lemma HandCourse(p: Program, input: Value, st: Flat, s: Standing)
    requires p.SyncToAsync? && s.loop.Some?
    ensures CourseOf(p, input, st, s) == Handed(s, p.sensitive, CourseOf(p.sync, input, st, InHand(s)))
  {
  }

  lemma BackFromHand(sync: Program, sensitive: bool, input: Value, loop: nat, frames: seq<nat>, ctx: Context, w: World,
                     s: Standing, choice: Choice, r: Bridged, c: Course)
    requires ChooseThread(sensitive, loop, ctx, w) == Success(choice) && !c.waits
    requires Ready(Async(loop), frames, ctx, w) && Tracks(Async(loop), frames, w, s)
    requires var worker := Restored(Marked(ctx, choice), Marked(ctx, choice), choice.thread);
      var w1 := Hand(w, sensitive, choice.thread, loop, ctx, frames);
      r == RunBridged(sync, input, Sync(choice.thread), frames, worker, w1)
      && !r.outcome.Waits? && Tracks(Sync(choice.thread), frames, r.world, Onward(InHand(s), c))
    ensures Tracks(Async(loop), frames, r.world, Onward(s, Handed(s, sensitive, c)))
  {
    var worker := Restored(Marked(ctx, choice), Marked(ctx, choice), choice.thread);
    SyncCodeFramed(sync, sensitive, input, loop, frames, ctx, w, choice);
    HandedToHost(sensitive, loop, frames, ctx, w);
    if sensitive {
      BackFromHost(r, c, loop, frames, ctx, w, s, choice, worker);
    } else {
      HostUntouched(sync, input, loop, frames, ctx, w, choice);
      BackFromOther(r, c, loop, frames, ctx, w, s, choice, worker);
    }
  }

  lemma BackFromHost(r: Bridged, c: Course, loop: nat, frames: seq<nat>, ctx: Context, w: World, s: Standing,
                     choice: Choice, worker: Context)
    requires Tracks(Async(loop), frames, w, s)
    requires HasHost(Async(loop), frames, w) ==> choice.thread == Host(Async(loop), frames, w)
    requires Framed(worker, Hand(w, true, choice.thread, loop, ctx, frames), r.ctx, r.world)
    requires Tracks(Sync(choice.thread), frames, r.world, Onward(InHand(s), c))
    ensures Tracks(Async(loop), frames, r.world, Onward(s, Handed(s, true, c)))
  {
    HostStays(Async(loop), frames, worker, Hand(w, true, choice.thread, loop, ctx, frames), r.ctx, r.world);
  }

  lemma BackFromOther(r: Bridged, c: Course, loop: nat, frames: seq<nat>, ctx: Context, w: World, s: Standing,
                      choice: Choice, worker: Context)
    requires Tracks(Async(loop), frames, w, s)
    requires HasHost(Async(loop), frames, w) ==>
      var u := Host(Async(loop), frames, w); Lookup(r.world.mainLoop, u) == Lookup(w.mainLoop, u)
    requires Framed(worker, Hand(w, false, choice.thread, loop, ctx, frames), r.ctx, r.world)
    requires Tracks(Sync(choice.thread), frames, r.world, Onward(InHand(s), c))
    ensures Tracks(Async(loop), frames, r.world, Onward(s, Handed(s, false, c)))
  {
    HostStays(Async(loop), frames, worker, Hand(w, false, choice.thread, loop, ctx, frames), r.ctx, r.world);
  }

  lemma SyncCodeFramed(sync: Program, sensitive: bool, input: Value, loop: nat, frames: seq<nat>, ctx: Context,
                       w: World, choice: Choice)
    requires Ready(Async(loop), frames, ctx, w) && ChooseThread(sensitive, loop, ctx, w) == Success(choice)
    ensures var worker := Restored(Marked(ctx, choice), Marked(ctx, choice), choice.thread);
      var w1 := Hand(w, sensitive, choice.thread, loop, ctx, frames);
      var r := RunBridged(sync, input, Sync(choice.thread), frames, worker, w1);
      !r.outcome.Waits? ==> Framed(worker, w1, r.ctx, r.world)
  {
    Entered(sensitive, loop, frames, ctx, w, choice);
    BridgeIsTransparent(sync, input, Sync(choice.thread), frames,
                        Restored(Marked(ctx, choice), Marked(ctx, choice), choice.thread),
                        Hand(w, sensitive, choice.thread, loop, ctx, frames));
  }

  // Code on a new worker makes the host remember nothing.
  lemma HostUntouched(sync: Program, input: Value, loop: nat, frames: seq<nat>, ctx: Context, w: World, choice: Choice)
    requires Ready(Async(loop), frames, ctx, w) && FramesWait(frames, w)
    requires ChooseThread(false, loop, ctx, w) == Success(choice)
    ensures var worker := Restored(Marked(ctx, choice), Marked(ctx, choice), choice.thread);
      var r := RunBridged(sync, input, Sync(choice.thread), frames, worker,
                          Hand(w, false, choice.thread, loop, ctx, frames));
      !r.outcome.Waits? && HasHost(Async(loop), frames, w) ==>
        Lookup(r.world.mainLoop, Host(Async(loop), frames, w)) == Lookup(w.mainLoop, Host(Async(loop), frames, w))
  {
    var worker := Restored(Marked(ctx, choice), Marked(ctx, choice), choice.thread);
    var w1 := Hand(w, false, choice.thread, loop, ctx, frames);
    var r := RunBridged(sync, input, Sync(choice.thread), frames, worker, w1);
    if !r.outcome.Waits? && HasHost(Async(loop), frames, w) {
      var u := Host(Async(loop), frames, w);
      assert HostOk(u, w);
      HandedFree(false, loop, frames, ctx, w, choice, u);
      OthersRemember(sync, input, Sync(choice.thread), frames, worker, w1, u);
    }
  }

  // Which loop the call uses, and where its coroutine stands.
  lemma CallTracks(force: bool, t: Thread, frames: seq<nat>, ctx: Context, w: World, s: Standing, x: Entry)
    requires Ready(Sync(t), frames, ctx, w) && Tracks(Sync(t), frames, w, s)
    requires x == EnterCall(force, t, frames, ctx, w)
    ensures x.own == (force || s.memory.None?) && x.loop == (if x.own then s.next else s.memory.value)
    ensures Occupied(w) == (s.shared && s.inside)
    ensures Tracks(Async(x.loop), [|w.executors|] + frames, x.world, InCall(s, x.own, x.loop))
    ensures Legs(x.world.events) == Legs(w.events) + [OnLoop(x.loop)]
  {
    CallHost(force, t, frames, ctx, w);
    LegsInTwo(w.events, [Called(|w.executors|, frames, x.loop)]);
    assert x.own ==> t in w.mainLoop ==> w.mainLoop[t] != w.nextLoop;
    assert x.own ==> x.world.loopExecutors[x.loop] == |w.executors|;
  }

  lemma {:induction false} CallFollowsCourse(p: Program, input: Value, t: Thread, frames: seq<nat>, ctx: Context,
                                             w: World, s: Standing)
    requires p.AsyncToSync?
    requires Ready(Sync(t), frames, ctx, w) && Tracks(Sync(t), frames, w, s)
    ensures FollowsItsCourse(p, input, Sync(t), frames, ctx, w, s)
    decreases p, 0
  {
    var x := EnterCall(p.forceNewLoop, t, frames, ctx, w);
    CallTracks(p.forceNewLoop, t, frames, ctx, w, s, x);
    if x.own && s.shared && s.inside {
      CallWaits(p, input, t, frames, ctx, w, s, x);
    } else {
      CoroutineReady(p.forceNewLoop, t, frames, ctx, w, x);
      FollowsCourse(p.coro, input, Async(x.loop), [|w.executors|] + frames, x.inner, x.world,
                    InCall(s, x.own, x.loop));
      FromCall(p, input, t, frames, ctx, w, s, x);
    }
  }

  lemma CallWaits(p: Program, input: Value, t: Thread, frames: seq<nat>, ctx: Context, w: World, s: Standing, x: Entry)
    requires p.AsyncToSync? && x == EnterCall(p.forceNewLoop, t, frames, ctx, w) && Occupied(w)
    requires s.loop.None? && s.shared && s.inside && x.own == (p.forceNewLoop || s.memory.None?)
    requires x.own && x.loop == s.next
    ensures FollowsItsCourse(p, input, Sync(t), frames, ctx, w, s)
  {
    CalledIs(p, input, t, frames, ctx, w);
    LegsInTwo(w.events, [Called(|w.executors|, frames, x.loop)]);
  }

  function Returned(s: Standing, own: bool, loop: nat, c: Course): Course {
    Course(c.waits, [OnLoop(loop)] + c.legs, if own && c.memory == Some(loop) then None else c.memory, c.next)
  }

  lemma CallCourse(p: Program, input: Value, st: Flat, s: Standing, own: bool, loop: nat)
    requires p.AsyncToSync? && s.loop.None? && !(own && s.shared && s.inside)
    requires own == (p.forceNewLoop || s.memory.None?) && loop == (if own then s.next else s.memory.value)
    ensures CourseOf(p, input, st, s) == Returned(s, own, loop, CourseOf(p.coro, input, st, InCall(s, own, loop)))
  {
  }

  // The call has kept the course if its coroutine has.
  lemma FromCall(p: Program, input: Value, t: Thread, frames: seq<nat>, ctx: Context, w: World, s: Standing, x: Entry)
    requires p.AsyncToSync? && Ready(Sync(t), frames, ctx, w) && Tracks(Sync(t), frames, w, s)
    requires x == EnterCall(p.forceNewLoop, t, frames, ctx, w) && !(x.own && s.shared && s.inside)
    requires FollowsItsCourse(p.coro, input, Async(x.loop), [|w.executors|] + frames, x.inner, x.world,
                              InCall(s, x.own, x.loop))
    ensures FollowsItsCourse(p, input, Sync(t), frames, ctx, w, s)
  {
    var r := RunBridged(p.coro, input, Async(x.loop), [|w.executors|] + frames, x.inner, x.world);
    var c := CourseOf(p.coro, input, View(ctx), InCall(s, x.own, x.loop));
    CallTracks(p.forceNewLoop, t, frames, ctx, w, s, x);
    CalledIs(p, input, t, frames, ctx, w);
    CoroutineFramed(p.coro, p.forceNewLoop, input, t, frames, ctx, w);
    CourseRespects(p.coro, input, input, View(x.inner), View(ctx), InCall(s, x.own, x.loop));
    CallCourse(p, input, View(ctx), s, x.own, x.loop);
    ReturnKeepsCourse(x, p.forceNewLoop, t, frames, ctx, w, s, r, c);
  }

  lemma CoroutineFramed(coro: Program, force: bool, input: Value, t: Thread, frames: seq<nat>, ctx: Context, w: World)
    requires Ready(Sync(t), frames, ctx, w)
    ensures var x := EnterCall(force, t, frames, ctx, w);
      var r := RunBridged(coro, input, Async(x.loop), [|w.executors|] + frames, x.inner, x.world);
      Sight(x.inner) == Sight(ctx) && (!r.outcome.Waits? ==> Framed(x.inner, x.world, r.ctx, r.world))
  {
    var x := EnterCall(force, t, frames, ctx, w);
    CallEntered(force, t, frames, ctx, w);
    BridgeIsTransparent(coro, input, Async(x.loop), [|w.executors|] + frames, x.inner, x.world);
  }

  lemma ReturnKeepsCourse(x: Entry, force: bool, t: Thread, frames: seq<nat>, ctx: Context, w: World, s: Standing,
                          r: Bridged, c: Course)
    requires Tracks(Sync(t), frames, w, s) && WorldOk(w)
    requires x == EnterCall(force, t, frames, ctx, w) && !(x.own && Occupied(w))
    requires Legs(x.world.events) == Legs(w.events) + [OnLoop(x.loop)]
    requires KeepsCourse(r, c, Async(x.loop), [|w.executors|] + frames, x.world, InCall(s, x.own, x.loop))
    requires !c.waits ==> Framed(x.inner, x.world, r.ctx, r.world)
    ensures KeepsCourse(CallResult(x, t, frames, ctx, w, r), Returned(s, x.own, x.loop, c), Sync(t), frames, w, s)
  {
    assert (Legs(w.events) + [OnLoop(x.loop)]) + c.legs == Legs(w.events) + ([OnLoop(x.loop)] + c.legs);
    if !c.waits {
      CallHost(force, t, frames, ctx, w);
      HostStays(Async(x.loop), [|w.executors|] + frames, x.inner, x.world, r.ctx, r.world);
      ReturnTracks(x, force, t, frames, ctx, w, s, r, c);
    }
  }

  lemma ReturnTracks(x: Entry, force: bool, t: Thread, frames: seq<nat>, ctx: Context, w: World, s: Standing,
                     r: Bridged, c: Course)
    requires Tracks(Sync(t), frames, w, s) && WorldOk(w) && x == EnterCall(force, t, frames, ctx, w)
    requires Framed(x.inner, x.world, r.ctx, r.world)
    requires (forall u | u in r.world.mainLoop :: r.world.mainLoop[u] < r.world.nextLoop)
    requires c.memory == Memory(t, r.world) && c.next == r.world.nextLoop
    ensures Tracks(Sync(t), frames, LeaveCall(x, t, ctx, w, r).world, Onward(s, Returned(s, x.own, x.loop, c)))
  {
    FramesStillWait(x, force, t, frames, ctx, w, r);
    LoopsAfter(x, force, t, frames, ctx, w, s, r);
  }

  // The loops and the calls inside are as they were before the call.
  lemma LoopsAfter(x: Entry, force: bool, t: Thread, frames: seq<nat>, ctx: Context, w: World, s: Standing, r: Bridged)
    requires x == EnterCall(force, t, frames, ctx, w) && WorldOk(w) && Framed(x.inner, x.world, r.ctx, r.world)
    ensures var w' := LeaveCall(x, t, ctx, w, r).world;
      && w'.loopExecutors == w.loopExecutors && w'.running == w.running && w'.nextLoop == r.world.nextLoop
      && w'.mainLoop == r.world.mainLoop && w'.workers.PerCall? == w.workers.PerCall?
      && r.world.running == (if x.own then w.running + {x.loop} else w.running)
  {
    var w' := LeaveCall(x, t, ctx, w, r).world;
    assert w'.loopExecutors == w.loopExecutors;
    assert w'.running == w.running;
  }

  lemma FramesStillWait(x: Entry, force: bool, t: Thread, frames: seq<nat>, ctx: Context, w: World, r: Bridged)
    requires FramesWait(frames, w) && x == EnterCall(force, t, frames, ctx, w)
    requires x.world.executors <= r.world.executors
    ensures FramesWait(frames, LeaveCall(x, t, ctx, w, r).world)
  {
    if frames != [] {
      assert r.world.executors[frames[0]] == x.world.executors[frames[0]] == w.executors[frames[0]];
    }
  }
}
