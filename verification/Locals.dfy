/**
 * Local itself, plain and thread-critical, on top of contexts; and what its documentation
 * promises: writes stay in their context, and thread-critical values stay on their thread.
 */
module Locals {
  import opened Wrappers
  import opened Contexts
  import opened LocalHeap

  // ---------------------------------------------------------------------------------------
  // Isolation between contexts
  // ---------------------------------------------------------------------------------------

  // No operation but one on context `c` changes what is seen in `c`. Together with
  // LocalHeap.Heap.DoAll this holds for the shared objects.
  lemma {:induction false} WritesStayInTheirContext(cs: seq<Context>, ops: seq<Op>, c: nat)
    requires AllInRange(ops, |cs|) && c < |cs|
    requires forall k | 0 <= k < |ops| :: ops[k].CopyContext? || ops[k].c != c
    ensures c < |ApplyAll(cs, ops)| && ApplyAll(cs, ops)[c] == cs[c]
    decreases |ops|
  {
    if ops != [] {
      WritesStayInTheirContext(Apply(cs, ops[0]), ops[1..], c);
    }
  }

  // What the operations on one Local, in one context, do to a plain dictionary.
  function PlainMap(m: Data, ops: seq<Op>, c: nat, key: Key): Data
    decreases |ops|
  {
    if ops == [] then m
    else
      var next :=
        if ops[0].Set? && ops[0].c == c && ops[0].key == key then m[ops[0].attr := ops[0].v]
        else if ops[0].Del? && ops[0].c == c && ops[0].key == key then m - {ops[0].attr}
        else m;
      PlainMap(next, ops[1..], c, key)
  }

  // Only thread `t` uses the Local in context `c`, and nothing is restored into it.
  predicate Owned(op: Op, c: nat, key: Key, t: Thread) {
    match op
    case SetVar(d, x, _) => d == c ==> User(x) != key
    case Set(d, u, k, _, _) => d == c && k == key ==> u == t
    case Del(d, u, k, _) => d == c && k == key ==> u == t
    case Restore(d, _, _) => d != c
    case CopyContext(_) => true
  }

  lemma OneStepIsPlain(cs: seq<Context>, op: Op, c: nat, key: Key, t: Thread)
    requires InRange(op, |cs|) && c < |cs| && Owned(op, c, key, t)
    ensures c < |Apply(cs, op)|
    ensures Attributes(Apply(cs, op)[c], key, t) == PlainMap(Attributes(cs[c], key, t), [op], c, key)
  {
    var m := Attributes(cs[c], key, t);
    assert [op][1..] == [];
    if op.Del? && op.c == c && op.key == key && op.attr !in m {
      assert m - {op.attr} == m;
    }
  }

  lemma {:induction false} PlainMapInTwo(m: Data, op: Op, ops: seq<Op>, c: nat, key: Key)
    ensures PlainMap(m, [op] + ops, c, key) == PlainMap(PlainMap(m, [op], c, key), ops, c, key)
  {
    assert ([op] + ops)[1..] == ops && [op][1..] == [];
  }

  // Within its own context a Local is a plain dictionary.
  lemma {:induction false} LocalIsPlainMap(cs: seq<Context>, ops: seq<Op>, c: nat, key: Key, t: Thread)
    requires AllInRange(ops, |cs|) && c < |cs|
    requires forall k | 0 <= k < |ops| :: Owned(ops[k], c, key, t)
    ensures c < |ApplyAll(cs, ops)|
    ensures Attributes(ApplyAll(cs, ops)[c], key, t) == PlainMap(Attributes(cs[c], key, t), ops, c, key)
    decreases |ops|
  {
    if ops != [] {
      OneStepIsPlain(cs, ops[0], c, key, t);
      LocalIsPlainMap(Apply(cs, ops[0]), ops[1..], c, key, t);
      PlainMapInTwo(Attributes(cs[c], key, t), ops[0], ops[1..], c, key);
      assert ops == [ops[0]] + ops[1..];
    }
  }

  // ---------------------------------------------------------------------------------------
  // Thread-critical Locals
  // ---------------------------------------------------------------------------------------

  // One thread-critical Local: its threading.local, split into the plain attributes and the
  // `cvar` made for a thread the first time async code on it comes by, and all contexts. Every
  // LocalVar in the contexts is one of these cvars.
  datatype Critical = Critical(
    plain: map<Thread, Data>,
    cvars: map<Thread, nat>,
    nextVar: nat,
    contexts: seq<Context>
  )

  // Code on thread `t` in context `c`; `async` says whether a loop is running on the thread.
  // Attribute names other than `cvar`.
  datatype Use =
    | Write(t: Thread, async: bool, c: nat, attr: string, v: Value)
    | Delete(t: Thread, async: bool, c: nat, attr: string)
    | Look(t: Thread, async: bool, c: nat, attr: string)
    | Copying(c: nat)
    | Restoring(c: nat, source: nat, t: Thread)

  predicate Usable(u: Use, n: nat) {
    u.c < n && (u.Restoring? ==> u.source < n)
  }

  // _lock_storage in async code: the thread's own variable exists from here on.
  function WithCvar(s: Critical, t: Thread): Critical {
    if t in s.cvars then s else s.(cvars := s.cvars[t := s.nextVar], nextVar := s.nextVar + 1)
  }

  function PlainOf(s: Critical, t: Thread): Data {
    if t in s.plain then s.plain[t] else map[]
  }

  // What getattr gives; None is the AttributeError.
  function Reading(s: Critical, t: Thread, async: bool, c: nat, attr: string): Option<Value>
    requires c < |s.contexts|
  {
    if async then
      GetAttr(s.contexts[c], LocalVar(WithCvar(s, t).cvars[t]), t, attr)
    else
      if attr in PlainOf(s, t) then Some(PlainOf(s, t)[attr]) else None
  }

  function UseOnce(s: Critical, u: Use): Critical
    requires Usable(u, |s.contexts|)
  {
    match u
    case Write(t, async, c, attr, v) =>
      if async then
        var s' := WithCvar(s, t);
        s'.(contexts := s.contexts[c := SetAttr(s.contexts[c], LocalVar(s'.cvars[t]), t, attr, v)])
      else s.(plain := s.plain[t := PlainOf(s, t)[attr := v]])
    case Delete(t, async, c, attr) =>
      if async then
        var s' := WithCvar(s, t);
        var ctx := DelAttr(s.contexts[c], LocalVar(s'.cvars[t]), t, attr);
        if ctx.Some? then s'.(contexts := s.contexts[c := ctx.value]) else s'
      else if attr in PlainOf(s, t) then s.(plain := s.plain[t := PlainOf(s, t) - {attr}])
      else s
    case Look(t, async, _, _) => if async then WithCvar(s, t) else s
    case Copying(c) => s.(contexts := s.contexts + [s.contexts[c]])
    case Restoring(c, source, t) =>
      s.(contexts := s.contexts[c := Restored(s.contexts[c], s.contexts[source], t)])
  }

  predicate AllUsable(us: seq<Use>, n: nat)
    decreases |us|
  {
    us == [] || (Usable(us[0], n) && AllUsable(us[1..], if us[0].Copying? then n + 1 else n))
  }

  function UseAll(s: Critical, us: seq<Use>): Critical
    requires AllUsable(us, |s.contexts|)
    decreases |us|
  {
    if us == [] then s else UseAll(UseOnce(s, us[0]), us[1..])
  }

  // Who wrote what.
  datatype Written = Written(t: Thread, attr: string, v: Value)

  function WritesOf(us: seq<Use>): (w: set<Written>)
    decreases |us|
  {
    if us == [] then {}
    else (if us[0].Write? then {Written(us[0].t, us[0].attr, us[0].v)} else {}) + WritesOf(us[1..])
  }

  ghost predicate WrittenOn(data: Data, t: Thread, w: set<Written>) {
    forall attr | attr in data :: Written(t, attr, data[attr]) in w
  }

  ghost predicate CvarsOk(s: Critical) {
    && (forall t | t in s.cvars :: s.cvars[t] < s.nextVar)
    && (forall t, u | t in s.cvars && u in s.cvars && t != u :: s.cvars[t] != s.cvars[u])
  }

  // Whatever is stored for a thread was written on that thread.
  ghost predicate Provenance(s: Critical, w: set<Written>) {
    && CvarsOk(s)
    && (forall t | t in s.plain :: WrittenOn(s.plain[t], t, w))
    && (forall c | 0 <= c < |s.contexts| :: ContextOk(s.contexts[c], s, w))
  }

  ghost predicate ContextOk(ctx: Context, s: Critical, w: set<Written>) {
    && (forall key: Key | key in ctx && key.LocalVar? :: key.l < s.nextVar)
    && (forall t | t in s.cvars && LocalVar(s.cvars[t]) in ctx && ctx[LocalVar(s.cvars[t])].Storage? ::
          WrittenOn(ctx[LocalVar(s.cvars[t])].data, t, w))
  }

  lemma CvarKeepsProvenance(s: Critical, t: Thread, w: set<Written>)
    requires Provenance(s, w)
    ensures Provenance(WithCvar(s, t), w)
  {
    var s' := WithCvar(s, t);
    forall c | 0 <= c < |s.contexts| ensures ContextOk(s'.contexts[c], s', w) {
      assert ContextOk(s.contexts[c], s, w);
    }
  }

  // Storing for thread `t` what was written on `t`.
  lemma StoreKeepsProvenance(s: Critical, t: Thread, c: nat, data: Data, w: set<Written>)
    requires Provenance(s, w) && t in s.cvars && c < |s.contexts| && WrittenOn(data, t, w)
    ensures Provenance(s.(contexts := s.contexts[c := s.contexts[c][LocalVar(s.cvars[t]) := Storage(t, data)]]), w)
  {
    var s' := s.(contexts := s.contexts[c := s.contexts[c][LocalVar(s.cvars[t]) := Storage(t, data)]]);
    forall d | 0 <= d < |s'.contexts| ensures ContextOk(s'.contexts[d], s', w) {
      assert ContextOk(s.contexts[d], s, w);
    }
  }

  lemma RestoreKeepsProvenance(s: Critical, c: nat, source: nat, t: Thread, w: set<Written>)
    requires Provenance(s, w) && c < |s.contexts| && source < |s.contexts|
    ensures Provenance(UseOnce(s, Restoring(c, source, t)), w)
  {
    var s' := UseOnce(s, Restoring(c, source, t));
    forall d | 0 <= d < |s'.contexts| ensures ContextOk(s'.contexts[d], s', w) {
      assert ContextOk(s.contexts[d], s, w) && ContextOk(s.contexts[source], s, w);
    }
  }

  lemma WriteKeepsProvenance(s: Critical, u: Use, w: set<Written>)
    requires (u.Write? || u.Delete?) && Usable(u, |s.contexts|) && Provenance(s, w)
    requires u.Write? ==> Written(u.t, u.attr, u.v) in w
    ensures Provenance(UseOnce(s, u), w)
  {
    if u.async {
      CvarKeepsProvenance(s, u.t, w);
      var s' := WithCvar(s, u.t);
      var had := Attributes(s.contexts[u.c], LocalVar(s'.cvars[u.t]), u.t);
      assert ContextOk(s'.contexts[u.c], s', w);
      if u.Write? {
        StoreKeepsProvenance(s', u.t, u.c, had[u.attr := u.v], w);
      } else if u.attr in had {
        StoreKeepsProvenance(s', u.t, u.c, had - {u.attr}, w);
      }
    }
  }

  lemma UseKeepsProvenance(s: Critical, u: Use, w: set<Written>)
    requires Usable(u, |s.contexts|) && Provenance(s, w)
    requires u.Write? ==> Written(u.t, u.attr, u.v) in w
    ensures Provenance(UseOnce(s, u), w)
  {
    match u
    case Look(t, _, _, _) => CvarKeepsProvenance(s, t, w);
    case Copying(_) =>
    case Restoring(c, source, t) => RestoreKeepsProvenance(s, c, source, t, w);
    case _ => WriteKeepsProvenance(s, u, w);
  }

  lemma {:induction false} RunKeepsProvenance(s: Critical, us: seq<Use>, w: set<Written>)
    requires AllUsable(us, |s.contexts|) && Provenance(s, w) && WritesOf(us) <= w
    ensures Provenance(UseAll(s, us), w)
    decreases |us|
  {
    if us != [] {
      UseKeepsProvenance(s, us[0], w);
      RunKeepsProvenance(UseOnce(s, us[0]), us[1..], w);
    }
  }

  // Thread-critical separation: whatever is copied and restored between threads, a read on a
  // thread gives a value that the same thread wrote under the same name.
  lemma ReadsOnlyItsOwnThread(us: seq<Use>, t: Thread, async: bool, c: nat, attr: string)
    requires AllUsable(us, 1)
    requires var s := UseAll(Critical(map[], map[], 0, [map[]]), us);
      c < |s.contexts| && Reading(s, t, async, c, attr).Some?
    ensures var s := UseAll(Critical(map[], map[], 0, [map[]]), us);
      Written(t, attr, Reading(s, t, async, c, attr).value) in WritesOf(us)
  {
    RunKeepsProvenance(Critical(map[], map[], 0, [map[]]), us, WritesOf(us));
    var s := UseAll(Critical(map[], map[], 0, [map[]]), us);
    assert ContextOk(s.contexts[c], s, WritesOf(us));
  }

  // The contexts known to hold what the family holds for thread `t`: copies and restores bring it
  // along, a restore from elsewhere or a write by async code on `t` takes a context out.
  function Descendants(family: set<nat>, us: seq<Use>, n: nat, t: Thread): set<nat>
    decreases |us|
  {
    if us == [] then family
    else Descendants(NextFamily(family, us[0], n, t), us[1..], if us[0].Copying? then n + 1 else n, t)
  }

  function NextFamily(family: set<nat>, u: Use, n: nat, t: Thread): set<nat> {
    match u
    case Copying(c) => if c in family then family + {n} else family
    case Restoring(c, source, _) => if source in family then family + {c} else family - {c}
    case Write(v, async, c, _, _) => if async && v == t then family - {c} else family
    case Delete(v, async, c, _) => if async && v == t then family - {c} else family
    case Look(_, _, _, _) => family
  }

  ghost predicate Carries(s: Critical, family: set<nat>, t: Thread, data: Data) {
    && t in s.cvars
    && (forall c | c in family ::
          && c < |s.contexts| && LocalVar(s.cvars[t]) in s.contexts[c]
          && s.contexts[c][LocalVar(s.cvars[t])].Storage? && s.contexts[c][LocalVar(s.cvars[t])].data == data)
  }

  // Code on another thread, or in a context outside the family.
  lemma StoreCarries(s: Critical, family: set<nat>, u: Thread, c: nat, stored: Data, t: Thread, data: Data)
    requires CvarsOk(s) && Carries(s, family, t, data) && u in s.cvars && c < |s.contexts|
    requires c in family ==> u != t
    ensures Carries(s.(contexts := s.contexts[c := s.contexts[c][LocalVar(s.cvars[u]) := Storage(u, stored)]]),
                    family, t, data)
  {
  }

  lemma CvarCarries(s: Critical, family: set<nat>, u: Thread, t: Thread, data: Data)
    requires CvarsOk(s) && Carries(s, family, t, data)
    ensures var s' := WithCvar(s, u);
      CvarsOk(s') && u in s'.cvars && s'.cvars[t] == s.cvars[t] && s'.contexts == s.contexts
        && Carries(s', family, t, data)
  {
  }

  lemma WriteCarries(s: Critical, family: set<nat>, u: Use, t: Thread, data: Data)
    requires (u.Write? || u.Delete?) && Usable(u, |s.contexts|) && CvarsOk(s) && Carries(s, family, t, data)
    requires u.async && u.c in family ==> u.t != t
    ensures CvarsOk(UseOnce(s, u)) && Carries(UseOnce(s, u), family, t, data)
    ensures UseOnce(s, u).cvars[t] == s.cvars[t]
  {
    if u.async {
      CvarCarries(s, family, u.t, t, data);
      AsyncWriteCarries(s, WithCvar(s, u.t), family, u, t, data);
    }
  }

  lemma AsyncWriteCarries(s: Critical, s': Critical, family: set<nat>, u: Use, t: Thread, data: Data)
    requires (u.Write? || u.Delete?) && u.async && Usable(u, |s.contexts|)
    requires s' == WithCvar(s, u.t) && CvarsOk(s') && Carries(s', family, t, data)
    requires u.c in family ==> u.t != t
    ensures UseOnce(s, u) == s'.(contexts := UseOnce(s, u).contexts) && Carries(UseOnce(s, u), family, t, data)
  {
    var had := Attributes(s.contexts[u.c], LocalVar(s'.cvars[u.t]), u.t);
    if u.Write? {
      StoreCarries(s', family, u.t, u.c, had[u.attr := u.v], t, data);
    } else if u.attr in had {
      StoreCarries(s', family, u.t, u.c, had - {u.attr}, t, data);
    }
  }

  // A context that is restored from the family belongs to it from then on, whatever it held.
  lemma RestoreCarries(s: Critical, family: set<nat>, c: nat, source: nat, u: Thread, t: Thread, data: Data)
    requires CvarsOk(s) && Carries(s, family, t, data) && c < |s.contexts| && source < |s.contexts|
    ensures Carries(UseOnce(s, Restoring(c, source, u)), NextFamily(family, Restoring(c, source, u), |s.contexts|, t),
                    t, data)
  {
    var s' := UseOnce(s, Restoring(c, source, u));
    var key := LocalVar(s.cvars[t]);
    if source in family {
      assert s'.contexts[c][key] == Rehome(s.contexts[source][key], u);
    }
  }

  lemma StepCarries(s: Critical, family: set<nat>, u: Use, t: Thread, data: Data)
    requires Usable(u, |s.contexts|) && CvarsOk(s) && Carries(s, family, t, data)
    ensures CvarsOk(UseOnce(s, u)) && Carries(UseOnce(s, u), NextFamily(family, u, |s.contexts|, t), t, data)
    ensures UseOnce(s, u).cvars[t] == s.cvars[t]
  {
    match u
    case Look(_, _, _, _) =>
    case Copying(_) =>
    case Restoring(c, source, v) => RestoreCarries(s, family, c, source, v, t, data);
    case _ => WriteCarries(s, NextFamily(family, u, |s.contexts|, t), u, t, data);
  }

  lemma {:induction false} RunCarries(s: Critical, family: set<nat>, us: seq<Use>, t: Thread, data: Data)
    requires AllUsable(us, |s.contexts|) && CvarsOk(s) && Carries(s, family, t, data)
    ensures CvarsOk(UseAll(s, us)) && t in UseAll(s, us).cvars && UseAll(s, us).cvars[t] == s.cvars[t]
    ensures Carries(UseAll(s, us), Descendants(family, us, |s.contexts|, t), t, data)
    decreases |us|
  {
    if us != [] {
      StepCarries(s, family, us[0], t, data);
      RunCarries(UseOnce(s, us[0]), NextFamily(family, us[0], |s.contexts|, t), us[1..], t, data);
    }
  }

  lemma RestoredReading(s: Critical, t: Thread, c: nat, source: nat, data: Data, attr: string)
    requires c < |s.contexts| && source < |s.contexts| && Carries(s, {source}, t, data)
    ensures Reading(UseOnce(s, Restoring(c, source, t)), t, true, c, attr) ==
      if attr in data then Some(data[attr]) else None
  {
    var key := LocalVar(s.cvars[t]);
    assert RestoredCell(s.contexts[c], s.contexts[source], key, t) == Storage(t, data);
  }

  // Round trip: async code on `t` hands a copy of its context to other threads, which re-tag it,
  // cross any number of further bridges, with loops that start from empty contexts or not, and
  // use the Local as they like; once a descendant is restored into the context on `t`, every
  // value it had reads as before.
  lemma SurvivesRoundTrip(s: Critical, us: seq<Use>, t: Thread, c: nat, source: nat)
    requires CvarsOk(s) && c < |s.contexts| && t in s.cvars
    requires LocalVar(s.cvars[t]) in s.contexts[c] && s.contexts[c][LocalVar(s.cvars[t])].Storage?
    requires s.contexts[c][LocalVar(s.cvars[t])].threadId == t
    requires AllUsable(us, |s.contexts|) && source in Descendants({c}, us, |s.contexts|, t)
    ensures var s' := UseAll(s, us);
      && c < |s'.contexts| && source < |s'.contexts|
      && forall attr :: Reading(UseOnce(s', Restoring(c, source, t)), t, true, c, attr) == Reading(s, t, true, c, attr)
  {
    var data := s.contexts[c][LocalVar(s.cvars[t])].data;
    RunCarries(s, {c}, us, t, data);
    MoreContexts(s, us);
    forall attr ensures Reading(UseOnce(UseAll(s, us), Restoring(c, source, t)), t, true, c, attr) ==
      Reading(s, t, true, c, attr) {
      RestoredReading(UseAll(s, us), t, c, source, data, attr);
    }
  }

  // Two bridges deep, the inner one with a loop that starts empty: context 0 is the async code's,
  // 1 is the empty one. Everything on the way belongs to the family in the end.
  lemma NestedLoopIsCovered(worker: Thread, inner: Thread, t: Thread)
    ensures var us := [Copying(0)] + ([Restoring(2, 2, worker)] + ([Copying(2)] + ([Copying(1)] +
                      ([Restoring(4, 3, inner)] + ([Copying(4)] + ([Restoring(2, 5, worker)] + []))))));
      AllUsable(us, 2) && Descendants({0}, us, 2, t) == {0, 2, 3, 4, 5}
  {
    var us6 := [Restoring(2, 5, worker)] + [];
    var us5 := [Copying(4)] + us6;
    var us4 := [Restoring(4, 3, inner)] + us5;
    var us3 := [Copying(1)] + us4;
    var us2 := [Copying(2)] + us3;
    var us1 := [Restoring(2, 2, worker)] + us2;
    FamilySteps(Copying(0), us1, {0}, 2, t);
    FamilySteps(Restoring(2, 2, worker), us2, {0, 2}, 3, t);
    FamilySteps(Copying(2), us3, {0, 2}, 3, t);
    FamilySteps(Copying(1), us4, {0, 2, 3}, 4, t);
    FamilySteps(Restoring(4, 3, inner), us5, {0, 2, 3}, 5, t);
    FamilySteps(Copying(4), us6, {0, 2, 3, 4}, 5, t);
    FamilySteps(Restoring(2, 5, worker), [], {0, 2, 3, 4, 5}, 6, t);
    var two: set<nat> := {0, 2};
    assert {0} + {2} == two && two + {2} == two && two + {3} == {0, 2, 3};
    assert {0, 2, 3} + {4} == {0, 2, 3, 4} && {0, 2, 3, 4} + {5} == {0, 2, 3, 4, 5} == {0, 2, 3, 4, 5} + {2};
  }

  lemma {:induction false} FamilySteps(u: Use, us: seq<Use>, family: set<nat>, n: nat, t: Thread)
    ensures var m := if u.Copying? then n + 1 else n;
      && Descendants(family, [u] + us, n, t) == Descendants(NextFamily(family, u, n, t), us, m, t)
      && (AllUsable([u] + us, n) <==> Usable(u, n) && AllUsable(us, m))
  {
    assert ([u] + us)[1..] == us;
  }

  lemma {:induction false} MoreContexts(s: Critical, us: seq<Use>)
    requires AllUsable(us, |s.contexts|)
    ensures |s.contexts| <= |UseAll(s, us).contexts|
    decreases |us|
  {
    if us != [] {
      MoreContexts(UseOnce(s, us[0]), us[1..]);
    }
  }

  // ---------------------------------------------------------------------------------------
  // A thread-critical Local as a dictionary
  // ---------------------------------------------------------------------------------------

  // What sync code on `t` does to a plain dictionary: only its own writes and deletes count.
  function SyncStep(m: Data, u: Use, t: Thread): Data {
    match u
    case Write(v, async, _, attr, value) => if v == t && !async then m[attr := value] else m
    case Delete(v, async, _, attr) => if v == t && !async then m - {attr} else m
    case _ => m
  }

  function SyncMap(m: Data, us: seq<Use>, t: Thread): Data
    decreases |us|
  {
    if us == [] then m else SyncMap(SyncStep(m, us[0], t), us[1..], t)
  }

  // What async code on `t` in context `c` does to one.
  function AsyncStep(m: Data, u: Use, t: Thread, c: nat): Data {
    match u
    case Write(v, async, d, attr, value) => if v == t && async && d == c then m[attr := value] else m
    case Delete(v, async, d, attr) => if v == t && async && d == c then m - {attr} else m
    case _ => m
  }

  function AsyncMap(m: Data, us: seq<Use>, t: Thread, c: nat): Data
    decreases |us|
  {
    if us == [] then m else AsyncMap(AsyncStep(m, us[0], t, c), us[1..], t, c)
  }

  function Found(m: Data, attr: string): Option<Value> {
    if attr in m then Some(m[attr]) else None
  }

  // Every read gives what the dictionary gives.
  ghost predicate ReadsAs(s: Critical, t: Thread, async: bool, c: nat, m: Data) {
    c < |s.contexts| && forall attr :: Reading(s, t, async, c, attr) == Found(m, attr)
  }

  lemma SyncReadsOnce(s: Critical, u: Use, t: Thread, c: nat, m: Data)
    requires Usable(u, |s.contexts|) && ReadsAs(s, t, false, c, m)
    ensures ReadsAs(UseOnce(s, u), t, false, c, SyncStep(m, u, t))
  {
    forall attr ensures Reading(UseOnce(s, u), t, false, c, attr) == Found(SyncStep(m, u, t), attr) {
      assert Reading(s, t, false, c, attr) == Found(m, attr);
      assert u.Delete? ==> Reading(s, t, false, c, u.attr) == Found(m, u.attr);
    }
  }

  // On a sync thread a thread-critical Local is a plain dictionary: over any uses by any threads,
  // what `t` reads is what its own writes and deletes make of it, in whatever contexts, and
  // nothing else changes it.
  lemma {:induction false} SyncReadsItsOwn(s: Critical, us: seq<Use>, t: Thread, c: nat, m: Data)
    requires AllUsable(us, |s.contexts|) && ReadsAs(s, t, false, c, m)
    ensures ReadsAs(UseAll(s, us), t, false, c, SyncMap(m, us, t))
    decreases |us|
  {
    if us != [] {
      SyncReadsOnce(s, us[0], t, c, m);
      SyncReadsItsOwn(UseOnce(s, us[0]), us[1..], t, c, SyncStep(m, us[0], t));
    }
  }

  // Every variable in a context has been made for some thread.
  ghost predicate VariablesMade(s: Critical) {
    CvarsOk(s) && forall c | 0 <= c < |s.contexts| :: VariablesBelow(s.contexts[c], s.nextVar)
  }

  predicate VariablesBelow(ctx: Context, n: nat) {
    forall key: Key | key in ctx && key.LocalVar? :: key.l < n
  }

  lemma CvarKeepsVariables(s: Critical, t: Thread)
    requires VariablesMade(s)
    ensures VariablesMade(WithCvar(s, t))
  {
  }

  lemma UseKeepsVariables(s: Critical, u: Use)
    requires Usable(u, |s.contexts|) && VariablesMade(s)
    ensures VariablesMade(UseOnce(s, u))
  {
    if u.Write? || u.Delete? || u.Look? {
      CvarKeepsVariables(s, u.t);
    }
  }

  // Async code on `t` in context `c` itself.
  lemma AsyncReadsOwnUse(s: Critical, u: Use, t: Thread, c: nat, m: Data)
    requires Usable(u, |s.contexts|) && ReadsAs(s, t, true, c, m)
    requires (u.Write? || u.Delete?) && u.async && u.t == t && u.c == c
    ensures ReadsAs(UseOnce(s, u), t, true, c, AsyncStep(m, u, t, c))
  {
    forall attr ensures Reading(UseOnce(s, u), t, true, c, attr) == Found(AsyncStep(m, u, t, c), attr) {
      assert Reading(s, t, true, c, attr) == Found(m, attr);
      assert Reading(s, t, true, c, u.attr) == Found(m, u.attr);
    }
  }

  // The variable of another thread, made or yet to be made, is not this thread's.
  lemma OthersVariable(s: Critical, t: Thread, u: Thread, ctx: Context)
    requires CvarsOk(s) && t != u && VariablesBelow(ctx, s.nextVar)
    ensures var s' := WithCvar(s, u);
      && WithCvar(s', t).cvars[t] != s'.cvars[u]
      && (WithCvar(s', t).cvars[t] == WithCvar(s, t).cvars[t]
          || (LocalVar(WithCvar(s, t).cvars[t]) !in ctx && LocalVar(WithCvar(s', t).cvars[t]) !in ctx))
  {
  }

  // Another thread's code in the same context works on a variable of its own.
  lemma AsyncReadsOthersUse(s: Critical, u: Use, t: Thread, c: nat, attr: string)
    requires Usable(u, |s.contexts|) && VariablesMade(s) && c < |s.contexts|
    requires (u.Write? || u.Delete?) && u.async && u.t != t && u.c == c
    ensures Reading(UseOnce(s, u), t, true, c, attr) == Reading(s, t, true, c, attr)
  {
    OthersVariable(s, t, u.t, s.contexts[c]);
    OthersWriteKeeps(s, u, c, LocalVar(WithCvar(WithCvar(s, u.t), t).cvars[t]));
  }

  lemma OthersWriteKeeps(s: Critical, u: Use, c: nat, key: Key)
    requires Usable(u, |s.contexts|) && c < |s.contexts| && (u.Write? || u.Delete?) && u.async && u.c == c
    requires key != LocalVar(WithCvar(s, u.t).cvars[u.t])
    ensures var s' := UseOnce(s, u);
      && s'.cvars == WithCvar(s, u.t).cvars && s'.nextVar == WithCvar(s, u.t).nextVar && c < |s'.contexts|
      && Lookup(s'.contexts[c], key) == Lookup(s.contexts[c], key)
  {
  }

  function Lookup(ctx: Context, key: Key): Option<Cell> {
    if key in ctx then Some(ctx[key]) else None
  }

  lemma AsyncReadsOnce(s: Critical, u: Use, t: Thread, c: nat, m: Data)
    requires Usable(u, |s.contexts|) && VariablesMade(s) && ReadsAs(s, t, true, c, m)
    requires u.Restoring? ==> u.c != c
    ensures ReadsAs(UseOnce(s, u), t, true, c, AsyncStep(m, u, t, c))
  {
    if (u.Write? || u.Delete?) && u.async && u.c == c && u.t == t {
      AsyncReadsOwnUse(s, u, t, c, m);
    } else {
      forall attr ensures Reading(UseOnce(s, u), t, true, c, attr) == Found(m, attr) {
        assert Reading(s, t, true, c, attr) == Found(m, attr);
        if (u.Write? || u.Delete?) && u.async && u.c == c {
          AsyncReadsOthersUse(s, u, t, c, attr);
        } else {
          AsyncReadsElsewhere(s, u, t, c, attr);
        }
      }
    }
  }

  lemma AsyncReadsElsewhere(s: Critical, u: Use, t: Thread, c: nat, attr: string)
    requires Usable(u, |s.contexts|) && VariablesMade(s) && c < |s.contexts|
    requires !((u.Write? || u.Delete?) && u.async && u.c == c) && (u.Restoring? ==> u.c != c)
    ensures c < |UseOnce(s, u).contexts| && Reading(UseOnce(s, u), t, true, c, attr) == Reading(s, t, true, c, attr)
  {
    ElsewhereKeeps(s, u, c);
    if (u.Write? || u.Delete? || u.Look?) && u.async && u.t != t {
      OthersVariable(s, t, u.t, s.contexts[c]);
    }
  }

  lemma ElsewhereKeeps(s: Critical, u: Use, c: nat)
    requires Usable(u, |s.contexts|) && c < |s.contexts|
    requires !((u.Write? || u.Delete?) && u.async && u.c == c) && (u.Restoring? ==> u.c != c)
    ensures var s' := UseOnce(s, u);
      && c < |s'.contexts| && s'.contexts[c] == s.contexts[c]
      && s'.cvars == (if (u.Write? || u.Delete? || u.Look?) && u.async then WithCvar(s, u.t) else s).cvars
      && s'.nextVar == (if (u.Write? || u.Delete? || u.Look?) && u.async then WithCvar(s, u.t) else s).nextVar
  {
  }

  // Async code in its own context has a plain dictionary as well, as long as nothing is restored
  // into that context: what it reads is what it wrote and deleted there, whatever other threads,
  // other contexts and sync code do.
  lemma {:induction false} AsyncReadsItsOwn(s: Critical, us: seq<Use>, t: Thread, c: nat, m: Data)
    requires AllUsable(us, |s.contexts|) && VariablesMade(s) && ReadsAs(s, t, true, c, m)
    requires forall k | 0 <= k < |us| && us[k].Restoring? :: us[k].c != c
    ensures ReadsAs(UseAll(s, us), t, true, c, AsyncMap(m, us, t, c))
    decreases |us|
  {
    if us != [] {
      AsyncReadsOnce(s, us[0], t, c, m);
      UseKeepsVariables(s, us[0]);
      AsyncReadsItsOwn(UseOnce(s, us[0]), us[1..], t, c, AsyncStep(m, us[0], t, c));
    }
  }

  // A new thread-critical Local is empty, in sync code and in async code.
  lemma NewLocalIsEmpty(t: Thread, async: bool)
    ensures ReadsAs(Critical(map[], map[], 0, [map[]]), t, async, 0, map[])
    ensures VariablesMade(Critical(map[], map[], 0, [map[]]))
  {
  }

  // What such a dictionary holds under a name is what was written last, unless it was deleted since.
  lemma {:induction false} SyncLastWrite(m: Data, us: seq<Use>, t: Thread, attr: string)
    ensures var u := LastUse(us, t, attr);
      Found(SyncMap(m, us, t), attr) ==
        if u.None? then Found(m, attr) else if u.value.Write? then Some(u.value.v) else None
    decreases |us|
  {
    if us != [] {
      SyncLastWrite(SyncStep(m, us[0], t), us[1..], t, attr);
    }
  }

  // The last write or delete under a name by sync code on `t`.
  function LastUse(us: seq<Use>, t: Thread, attr: string): (u: Option<Use>)
    ensures u.Some? ==> u.value in us && (u.value.Write? || u.value.Delete?)
    ensures u.Some? ==> !u.value.async && u.value.t == t && u.value.attr == attr
    decreases |us|
  {
    if us == [] then None
    else
      var later := LastUse(us[1..], t, attr);
      if later.Some? then later
      else if (us[0].Write? || us[0].Delete?) && !us[0].async && us[0].t == t && us[0].attr == attr then Some(us[0])
      else None
  }

  // ---------------------------------------------------------------------------------------
  // Local as an object
  // ---------------------------------------------------------------------------------------

  // What _lock_storage yields.
  datatype Where = ThreadLocal | Variable(key: Key)

  class Local {
    const threadCritical: bool
    const own: Key                      // the variable of a Local that is not thread-critical
    const heap: Heap
    var plain: map<Thread, Data>        // threading.local, attributes other than cvar
    var cvars: map<Thread, nat>         // threading.local, cvar
    var nextVar: nat

    constructor (critical: bool, variable: Key, h: Heap)
      ensures threadCritical == critical && own == variable && heap == h
      ensures plain == map[] && cvars == map[] && nextVar == 0
    {
      threadCritical, own, heap, plain, cvars, nextVar := critical, variable, h, map[], map[], 0;
    }

    ghost function State(): Critical
      reads this, heap, heap.contexts
    {
      Critical(plain, cvars, nextVar, heap.Contents())
    }

    method LockStorage(t: Thread, async: bool) returns (at: Where)
      modifies this`cvars, this`nextVar
      ensures !threadCritical ==> at == Variable(own) && unchanged(this)
      ensures threadCritical && !async ==> at == ThreadLocal && unchanged(this)
      ensures threadCritical && async ==>
        var s := WithCvar(old(State()), t);
        cvars == s.cvars && nextVar == s.nextVar && t in cvars && at == Variable(LocalVar(cvars[t]))
    {
      if threadCritical {
        if !async {
          return ThreadLocal;
        }
        if t !in cvars {
          cvars, nextVar := cvars[t := nextVar], nextVar + 1;
        }
        return Variable(LocalVar(cvars[t]));
      }
      return Variable(own);
    }

    method GetAttr(t: Thread, async: bool, c: nat, attr: string) returns (v: Option<Value>)
      requires heap.Valid() && c < |heap.contexts|
      modifies this`cvars, this`nextVar
      ensures !threadCritical ==> v == Contexts.GetAttr(heap.Contents()[c], own, t, attr) && unchanged(this)
      ensures threadCritical ==>
        v == Reading(old(State()), t, async, c, attr) && State() == UseOnce(old(State()), Look(t, async, c, attr))
    {
      var at := LockStorage(t, async);
      if at.ThreadLocal? {
        v := if t in plain && attr in plain[t] then Some(plain[t][attr]) else None;
      } else {
        v := heap.GetAttr(c, t, at.key, attr);
      }
    }

    method SetAttr(t: Thread, async: bool, c: nat, attr: string, v: Value)
      requires heap.Valid() && c < |heap.contexts|
      modifies this, heap, heap.contexts[c]
      ensures heap.Valid()
      ensures !threadCritical ==>
        heap.Contents() == Apply(old(heap.Contents()), Set(c, t, own, attr, v)) && unchanged(this)
      ensures threadCritical ==> State() == UseOnce(old(State()), Write(t, async, c, attr, v))
    {
      var at := LockStorage(t, async);
      if at.ThreadLocal? {
        plain := plain[t := (if t in plain then plain[t] else map[])[attr := v]];
      } else {
        heap.SetAttr(c, t, at.key, attr, v);
      }
    }

    // false is the AttributeError.
    method DelAttr(t: Thread, async: bool, c: nat, attr: string) returns (deleted: bool)
      requires heap.Valid() && c < |heap.contexts|
      modifies this, heap, heap.contexts[c]
      ensures heap.Valid()
      ensures !threadCritical ==>
        heap.Contents() == Apply(old(heap.Contents()), Del(c, t, own, attr)) && unchanged(this)
      ensures threadCritical ==> State() == UseOnce(old(State()), Delete(t, async, c, attr))
      ensures threadCritical ==> deleted == Reading(old(State()), t, async, c, attr).Some?
    {
      var at := LockStorage(t, async);
      if at.ThreadLocal? {
        deleted := t in plain && attr in plain[t];
        if deleted {
          plain := plain[t := plain[t] - {attr}];
        }
      } else {
        deleted := heap.DelAttr(c, t, at.key, attr);
      }
    }
  }
}
