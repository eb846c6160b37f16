/**
 * Context variables and the storage behind a Local, as values.
 *
 * A context is a map from variables to cells. A cell is a plain value, or a storage: the
 * attributes of one Local together with the thread they belong to. LocalHeap shows that the
 * objects the program really shares behave like these values.
 */
module Contexts {
  import opened Wrappers

  datatype Thread =
    | MainThread
    | SingleWorker              // SyncToAsync.single_thread_executor
    | ContextWorker(id: nat)    // the executor of a ThreadSensitiveContext
    | PoolWorker(n: nat)        // any other pool
    | LoopWorker(n: nat)        // the thread that runs loop n

  // `Instance(c, r)` is object `r` of a class whose `==` compares by `c` alone.
  datatype Value = Int(n: int) | Flag(on: bool) | Instance(c: int, r: int) | ExecutorRef(id: nat) | Nothing

  // Python's ==, which does not tell True from 1 nor one equal object from another.
  function Canonical(v: Value): Value {
    match v
    case Flag(on) => Int(if on then 1 else 0)
    case Instance(c, _) => Instance(c, 0)
    case _ => v
  }

  predicate Equal(a: Value, b: Value) {
    Canonical(a) == Canonical(b)
  }

  datatype Key =
    | User(x: nat)              // a context variable of the user
    | LocalVar(l: nat)          // the variable inside a Local that is not thread-critical
    | Executors                 // the one inside AsyncToSync.executors
    | Deadlock                  // SyncToAsync.deadlock_context
    | Sensitive                 // SyncToAsync.thread_sensitive_context

  type Data = map<string, Value>

  datatype Cell = Plain(value: Value) | Storage(threadId: Thread, data: Data)

  type Context = map<Key, Cell>

  // _CVar._storage: storage of another thread counts as none.
  function Attributes(ctx: Context, key: Key, t: Thread): Data {
    if key in ctx && ctx[key].Storage? && ctx[key].threadId == t then ctx[key].data else map[]
  }

  function GetAttr(ctx: Context, key: Key, t: Thread, attr: string): Option<Value> {
    var data := Attributes(ctx, key, t);
    if attr in data then Some(data[attr]) else None
  }

  function SetAttr(ctx: Context, key: Key, t: Thread, attr: string, v: Value): Context {
    ctx[key := Storage(t, Attributes(ctx, key, t)[attr := v])]
  }

  // None stands for the AttributeError.
  function DelAttr(ctx: Context, key: Key, t: Thread, attr: string): Option<Context> {
    var data := Attributes(ctx, key, t);
    if attr in data then Some(ctx[key := Storage(t, data - {attr})]) else None
  }

  function Rehome(c: Cell, t: Thread): Cell {
    if c.Storage? then c.(threadId := t) else c
  }

  // A variable is left as it is when its value equals the new one. A storage has no `==` of its
  // own and is a new object each time, so it never does.
  predicate Keeps(was: Cell, cell: Cell) {
    was.Plain? && cell.Plain? && Equal(was.value, cell.value)
  }

  // Map comprehensions here give every key outside the map the same value.
  function CellAt(ctx: Context, key: Key): Cell {
    if key in ctx then ctx[key] else Plain(Nothing)
  }

  function RestoredCell(current: Context, source: Context, key: Key, t: Thread): Cell {
    if key in source && key in current && Keeps(current[key], source[key]) then current[key]
    else Rehome(CellAt(source, key), t)
  }

  // _restore_context run on thread `t` while `current` is the current context.
  function Restored(current: Context, source: Context, t: Thread): Context {
    current + map key | key in source :: RestoredCell(current, source, key, t)
  }

  // Every storage in the context that holds anything belongs to the thread. That of the visible
  // executor may belong to another thread if there is no executor in it.
  predicate Tagged(ctx: Context, t: Thread) {
    forall key | key in ctx && ctx[key].Storage? ::
      ctx[key].threadId == t || ctx[key].data == map[] || (key.Executors? && HoldsNoExecutor(ctx[key]))
  }

  predicate HoldsNoExecutor(c: Cell) {
    c.Storage? && ("current" in c.data ==> c.data["current"] == Nothing)
  }

  function Only(source: Context, keys: set<Key>): Context {
    map key | key in source && key in keys :: if key in keys then CellAt(source, key) else Plain(Nothing)
  }

  // Restoring one variable first makes no difference.
  lemma RestoreOneFirst(current: Context, source: Context, t: Thread, todo: set<Key>, key: Key)
    requires key in todo && key in source
    ensures Restored(current[key := RestoredCell(current, source, key, t)], Only(source, todo - {key}), t)
         == Restored(current, Only(source, todo), t)
  {
    var first := current[key := RestoredCell(current, source, key, t)];
    var a, b := Restored(first, Only(source, todo - {key}), t), Restored(current, Only(source, todo), t);
    assert a.Keys == b.Keys;
    forall k | k in a ensures a[k] == b[k] {
      RestoredAt(first, Only(source, todo - {key}), t, k);
      RestoredAt(current, Only(source, todo), t, k);
    }
  }

  lemma RestoredAt(current: Context, source: Context, t: Thread, key: Key)
    requires key in Restored(current, source, t)
    ensures Restored(current, source, t)[key] ==
      if key in source then RestoredCell(current, source, key, t) else current[key]
  {
  }

  lemma RestoreEnds(current: Context, source: Context, t: Thread)
    ensures Restored(current, Only(source, {}), t) == current
    ensures Only(source, source.Keys) == source
  {
  }

  // A restored variable has exactly the source's value, up to the tag, unless its current value
  // is equal to that and another one.
  lemma RestoredExactly(current: Context, source: Context, key: Key, t: Thread)
    requires key in source
    ensures key in Restored(current, source, t)
    ensures Restored(current, source, t)[key] == Rehome(source[key], t) <==>
      !(key in current && Keeps(current[key], source[key]) && current[key] != source[key])
  {
  }

  // So a restore is a plain overwriting of variables if and only if there is no such variable.
  lemma RestoredWhollyExactly(current: Context, source: Context, t: Thread)
    ensures Restored(current, source, t) == current + (map key | key in source :: Rehome(CellAt(source, key), t)) <==>
      forall key | key in source && key in current :: !(Keeps(current[key], source[key]) && current[key] != source[key])
  {
    var plain := current + map key | key in source :: Rehome(CellAt(source, key), t);
    if Restored(current, source, t) == plain {
      forall key | key in source && key in current
        ensures !(Keeps(current[key], source[key]) && current[key] != source[key])
      {
        RestoredExactly(current, source, key, t);
      }
    }
    if forall key | key in source && key in current ::
         !(Keeps(current[key], source[key]) && current[key] != source[key]) {
      forall key | key in source ensures Restored(current, source, t)[key] == plain[key] {
        RestoredExactly(current, source, key, t);
      }
    }
  }

  // The loop of _restore_context, which sets a variable only when it would change.
  method RestoreContext(current: Context, source: Context, t: Thread) returns (ctx: Context)
    ensures ctx == Restored(current, source, t)
  {
    ctx := current;
    var todo := source.Keys;
    RestoreEnds(current, source, t);
    while todo != {}
      invariant todo <= source.Keys
      invariant Restored(ctx, Only(source, todo), t) == Restored(current, source, t)
      decreases |todo|
    {
      var cvar :| cvar in todo;
      var cvalue := Rehome(source[cvar], t);
      RestoreOneFirst(ctx, source, t, todo, cvar);
      ghost var cell := RestoredCell(ctx, source, cvar, t);
      ghost var next := ctx[cvar := cell];
      if cvar !in ctx || !Keeps(ctx[cvar], cvalue) {
        ctx := ctx[cvar := cvalue];
      } else {
        assert ctx[cvar := ctx[cvar]] == ctx;
      }
      assert ctx == next;
      todo := todo - {cvar};
    }
    RestoreEnds(ctx, source, t);
  }
}
