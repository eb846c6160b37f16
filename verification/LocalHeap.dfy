/**
 * The objects behind context variables and Locals, with the sharing the program really has:
 * copying a context shares its storage objects, and re-homing a storage shares its dictionary.
 *
 * Every operation is proved against the value model in Contexts, in which nothing is shared, and
 * to leave every dictionary that was ever stored as it was.
 */
module LocalHeap {
  import opened Wrappers
  import V = Contexts

  class Dict {
    var entries: V.Data

    constructor (start: V.Data)
      ensures entries == start
    {
      entries := start;
    }

    // dict.copy()
    method Copy() returns (d: Dict)
      ensures fresh(d) && d.entries == entries
    {
      d := new Dict(entries);
    }
  }

  // _Storage
  class Storage {
    var threadId: V.Thread
    var data: Dict

    constructor (t: V.Thread, d: Dict)
      ensures threadId == t && data == d
    {
      threadId, data := t, d;
    }
  }

  datatype Slot = Plain(value: V.Value) | Ref(storage: Storage)

  // What == finds: plain values by their own equality, storages by identity.
  predicate SameSlot(a: Slot, b: Slot) {
    match (a, b)
    case (Plain(v), Plain(w)) => V.Equal(v, w)
    case (Ref(s), Ref(u)) => s == u
    case _ => false
  }

  // contextvars.Context, with the value it stands for.
  class ContextObject {
    var vars: map<V.Key, Slot>
    ghost var value: V.Context

    constructor (start: map<V.Key, Slot>, ghost v: V.Context)
      ensures vars == start && value == v
    {
      vars, value := start, v;
    }
  }

  datatype Op =
    | SetVar(c: nat, x: nat, v: V.Value)
    | Set(c: nat, t: V.Thread, key: V.Key, attr: string, v: V.Value)
    | Del(c: nat, t: V.Thread, key: V.Key, attr: string)
    | CopyContext(c: nat)
    | Restore(c: nat, source: nat, t: V.Thread)

  predicate InRange(op: Op, n: nat) {
    op.c < n && (op.Restore? ==> op.source < n)
  }

  // What an operation does to contexts that share nothing. A delete of a missing attribute
  // raises and changes nothing.
  function Apply(cs: seq<V.Context>, op: Op): seq<V.Context>
    requires InRange(op, |cs|)
  {
    match op
    case SetVar(c, x, v) => cs[c := cs[c][V.User(x) := V.Plain(v)]]
    case Set(c, t, key, attr, v) => cs[c := V.SetAttr(cs[c], key, t, attr, v)]
    case Del(c, t, key, attr) =>
      var ctx := V.DelAttr(cs[c], key, t, attr);
      if ctx.Some? then cs[c := ctx.value] else cs
    case CopyContext(c) => cs + [cs[c]]
    case Restore(c, source, t) => cs[c := V.Restored(cs[c], cs[source], t)]
  }

  predicate AllInRange(ops: seq<Op>, n: nat)
    decreases |ops|
  {
    ops == [] || (InRange(ops[0], n) && AllInRange(ops[1..], if ops[0].CopyContext? then n + 1 else n))
  }

  function ApplyAll(cs: seq<V.Context>, ops: seq<Op>): seq<V.Context>
    requires AllInRange(ops, |cs|)
    decreases |ops|
  {
    if ops == [] then cs else ApplyAll(Apply(cs, ops[0]), ops[1..])
  }

  class Heap {
    var contexts: seq<ContextObject>
    ghost var storages: set<Storage>   // every storage ever put into a context
    ghost var dicts: set<Dict>         // and its dictionary

    constructor ()
      ensures Valid() && contexts == [] && fresh(storages) && fresh(dicts)
    {
      contexts, storages, dicts := [], {}, {};
    }

    ghost predicate Valid()
      reads this, contexts, storages, dicts
    {
      && (forall i, j | 0 <= i < j < |contexts| :: contexts[i] != contexts[j])
      && (forall s | s in storages :: s.data in dicts)
      && (forall i | 0 <= i < |contexts| :: Stands(contexts[i]))
    }

    // The slots of a context hold what its value says.
    ghost predicate Stands(c: ContextObject)
      reads this, c, storages, dicts
    {
      && c.vars.Keys == c.value.Keys
      && (forall key | key in c.vars :: Holds(c.vars[key], c.value[key]))
    }

    ghost predicate Holds(slot: Slot, cell: V.Cell)
      reads this, storages, dicts
    {
      match slot
      case Plain(v) => cell == V.Plain(v)
      case Ref(s) => s in storages && s.data in dicts && cell == V.Storage(s.threadId, s.data.entries)
    }

    // The contexts as values.
    ghost function Contents(): (cs: seq<V.Context>)
      reads this, contexts
      ensures |cs| == |contexts|
      ensures forall i | 0 <= i < |cs| :: cs[i] == contexts[i].value
    {
      seq(|contexts|, i requires 0 <= i < |contexts| reads this, contexts => contexts[i].value)
    }

    // A new storage object may go into contexts.
    ghost method Register(s: Storage)
      requires Valid()
      modifies this`storages, this`dicts
      ensures Valid() && Holds(Ref(s), V.Storage(s.threadId, s.data.entries))
      ensures storages == old(storages) + {s} && dicts == old(dicts) + {s.data}
    {
      storages, dicts := storages + {s}, dicts + {s.data};
      forall i | 0 <= i < |contexts| ensures Stands(contexts[i]) {
        assert old(Stands(contexts[i]));
      }
    }

    // ContextVar.set in context `c`.
    method PutSlot(c: nat, key: V.Key, slot: Slot, ghost cell: V.Cell)
      requires Valid() && c < |contexts| && Holds(slot, cell)
      modifies contexts[c]
      ensures Valid()
      ensures contexts[c].vars == old(contexts[c].vars)[key := slot]
      ensures contexts[c].value == old(contexts[c].value)[key := cell]
    {
      contexts[c].vars := contexts[c].vars[key := slot];
      contexts[c].value := contexts[c].value[key := cell];
      forall i | 0 <= i < |contexts| ensures Stands(contexts[i]) {
        assert old(Stands(contexts[i]));
      }
    }

    // _CVar._storage, then `.data.copy()`: always a new dictionary.
    method CopyOfData(c: nat, t: V.Thread, key: V.Key) returns (d: Dict)
      requires Valid() && c < |contexts|
      ensures fresh(d) && d.entries == V.Attributes(contexts[c].value, key, t)
    {
      var vars := contexts[c].vars;
      assert Stands(contexts[c]);
      if key in vars && vars[key].Ref? && vars[key].storage.threadId == t {
        d := vars[key].storage.data.Copy();
      } else {
        d := new Dict(map[]);
      }
    }

    // _CVar.__getattr__; None is the AttributeError.
    method GetAttr(c: nat, t: V.Thread, key: V.Key, attr: string) returns (v: Option<V.Value>)
      requires Valid() && c < |contexts|
      ensures v == V.GetAttr(contexts[c].value, key, t, attr)
    {
      var vars := contexts[c].vars;
      assert Stands(contexts[c]);
      v := None;
      if key in vars && vars[key].Ref? && vars[key].storage.threadId == t {
        var data := vars[key].storage.data;
        if attr in data.entries {
          v := Some(data.entries[attr]);
        }
      }
    }

    // self._data.set(_Storage(get_ident(), data))
    method Store(c: nat, t: V.Thread, key: V.Key, data: Dict)
      requires Valid() && c < |contexts|
      modifies contexts[c], this`storages, this`dicts
      ensures Valid() && old(dicts) <= dicts
      ensures Contents() == old(Contents())[c := old(Contents())[c][key := V.Storage(t, data.entries)]]
    {
      var storage := new Storage(t, data);
      Register(storage);
      PutSlot(c, key, Ref(storage), V.Storage(t, data.entries));
    }

    // _CVar.__setattr__
    method SetAttr(c: nat, t: V.Thread, key: V.Key, attr: string, v: V.Value)
      requires Valid() && c < |contexts|
      modifies contexts[c], this`storages, this`dicts
      ensures Valid() && old(dicts) <= dicts
      ensures Contents() == Apply(old(Contents()), Set(c, t, key, attr, v))
    {
      var data := CopyOfData(c, t, key);
      data.entries := data.entries[attr := v];
      Store(c, t, key, data);
    }

    // _CVar.__delattr__; false is the AttributeError.
    method DelAttr(c: nat, t: V.Thread, key: V.Key, attr: string) returns (deleted: bool)
      requires Valid() && c < |contexts|
      modifies contexts[c], this`storages, this`dicts
      ensures Valid() && old(dicts) <= dicts
      ensures deleted == V.GetAttr(old(Contents())[c], key, t, attr).Some?
      ensures Contents() == Apply(old(Contents()), Del(c, t, key, attr))
    {
      var data := CopyOfData(c, t, key);
      deleted := attr in data.entries;
      if deleted {
        data.entries := data.entries - {attr};
        Store(c, t, key, data);
      }
    }

    // contextvars.copy_context(): a new context with the same storage objects in it.
    method Copy(c: nat)
      requires Valid() && c < |contexts|
      modifies this`contexts
      ensures Valid() && |contexts| == |old(contexts)| + 1 && contexts[..|old(contexts)|] == old(contexts)
      ensures fresh(contexts[|old(contexts)|])
      ensures contexts[|old(contexts)|].vars == old(contexts[c].vars)
      ensures contexts[|old(contexts)|].value == old(contexts[c].value)
    {
      assert Stands(contexts[c]);
      var copy := new ContextObject(contexts[c].vars, contexts[c].value);
      assert forall i | 0 <= i < |contexts| :: Stands(contexts[i]);
      contexts := contexts + [copy];
    }

    // _rehome: a new storage object with the very same dictionary.
    method Rehome(slot: Slot, t: V.Thread, ghost cell: V.Cell) returns (r: Slot)
      requires Valid() && Holds(slot, cell)
      modifies this`storages, this`dicts
      ensures Valid() && Holds(r, V.Rehome(cell, t)) && old(storages) <= storages && dicts == old(dicts)
      ensures slot.Plain? ==> r == slot
      ensures slot.Ref? ==> r.Ref? && fresh(r.storage) && r.storage.data == slot.storage.data
    {
      r := slot;
      if slot.Ref? {
        var storage := new Storage(t, slot.storage.data);
        Register(storage);
        r := Ref(storage);
      }
    }

    ghost predicate AllHold(items: map<V.Key, Slot>, values: V.Context)
      reads this, storages, dicts
    {
      && items.Keys == values.Keys
      && (forall key | key in items :: Holds(items[key], values[key]))
    }

    // if cvar.get() != cvalue: cvar.set(cvalue)
    method SetUnlessSame(c: nat, key: V.Key, slot: Slot, ghost cell: V.Cell)
      requires Valid() && c < |contexts| && Holds(slot, cell)
      requires slot.Ref? && key in contexts[c].vars ==> contexts[c].vars[key] != slot
      modifies contexts[c]
      ensures Valid()
      ensures var was := old(contexts[c].value);
        contexts[c].value == was[key := if key in was && V.Keeps(was[key], cell) then was[key] else cell]
    {
      assert Stands(contexts[c]);
      if key !in contexts[c].vars || !SameSlot(contexts[c].vars[key], slot) {
        PutSlot(c, key, slot, cell);
      } else {
        ghost var kept := contexts[c].value[key];
        assert contexts[c].value[key := kept] == contexts[c].value;
      }
    }

    // One variable of the source. A re-homed storage is a new object and so never equal to
    // what is there; a plain value is set when `!=` tells it from the current one.
    method RestoreOne(c: nat, key: V.Key, items: map<V.Key, Slot>, t: V.Thread, ghost values: V.Context)
      requires Valid() && c < |contexts| && AllHold(items, values) && key in items
      modifies contexts[c], this`storages, this`dicts
      ensures Valid() && AllHold(items, values) && dicts == old(dicts)
      ensures contexts[c].value == old(contexts[c].value)[key := V.RestoredCell(old(contexts[c].value), values, key, t)]
    {
      assert Stands(contexts[c]) && Holds(items[key], values[key]);
      var cvalue := Rehome(items[key], t, values[key]);
      SetUnlessSame(c, key, cvalue, V.Rehome(values[key], t));
    }

    // The loop of _restore_context on thread `t` in context `c`; no dictionary is added.
    method RestoreContext(c: nat, source: nat, t: V.Thread)
      requires Valid() && c < |contexts| && source < |contexts|
      modifies contexts[c], this`storages, this`dicts
      ensures Valid() && dicts == old(dicts)
      ensures contexts[c].value == V.Restored(old(contexts[c].value), old(contexts[source].value), t)
    {
      ghost var current, values := contexts[c].value, contexts[source].value;
      assert Stands(contexts[source]);
      var items := contexts[source].vars;
      var todo := items.Keys;
      V.RestoreEnds(current, values, t);
      while todo != {}
        invariant Valid() && dicts == old(dicts)
        invariant todo <= items.Keys && AllHold(items, values)
        invariant V.Restored(contexts[c].value, V.Only(values, todo), t) == V.Restored(current, values, t)
        decreases |todo|
      {
        var key :| key in todo;
        V.RestoreOneFirst(contexts[c].value, values, t, todo, key);
        RestoreOne(c, key, items, t, values);
        todo := todo - {key};
      }
      V.RestoreEnds(contexts[c].value, values, t);
    }

    method Do(op: Op)
      requires Valid() && InRange(op, |contexts|)
      modifies this, contexts[op.c]
      ensures Valid() && old(dicts) <= dicts
      ensures Contents() == Apply(old(Contents()), op)
      ensures |old(contexts)| <= |contexts| && contexts[..|old(contexts)|] == old(contexts)
      ensures forall i | |old(contexts)| <= i < |contexts| :: fresh(contexts[i])
    {
      match op
      case SetVar(c, x, v) => PutSlot(c, V.User(x), Plain(v), V.Plain(v));
      case Set(c, t, key, attr, v) => SetAttr(c, t, key, attr, v);
      case Del(c, t, key, attr) => var _ := DelAttr(c, t, key, attr);
      case CopyContext(c) => Copy(c);
      case Restore(c, source, t) => RestoreContext(c, source, t);
    }

    // Any sequence of operations, however much is shared by now, acts as if nothing were; and
    // no dictionary that was in a context at the start is changed.
    method DoAll(ops: seq<Op>)
      requires Valid() && AllInRange(ops, |contexts|)
      modifies this, contexts
      ensures Valid()
      ensures Contents() == ApplyAll(old(Contents()), ops)
      ensures old(dicts) <= dicts && forall d | d in old(dicts) :: d.entries == old(d.entries)
      decreases |ops|
    {
      if ops != [] {
        Do(ops[0]);
        DoAll(ops[1..]);
      }
    }
  }
}
