// Who leaves the pool, and when: an instance stays while there is room.
module ServerRuns {
  import opened Server

  predicate Distinct(s: seq<Id>) {
    forall i, j | 0 <= i < j < |s| :: s[i] != s[j]
  }

  lemma {:induction false} WithoutStaysDistinct(s: seq<Id>, x: Id)
    requires Distinct(s)
    ensures Distinct(Without(s, x))
  {
    if s != [] {
      var rest, last := s[..|s| - 1], s[|s| - 1];
      WithoutStaysDistinct(rest, x);
      WithoutMembers(rest, x);
      assert last !in rest;
      assert last != x ==> Without(s, x) == Without(rest, x) + [last] && last !in Without(rest, x);
    }
  }

  lemma StaysDistinct(lru: seq<Id>, op: Op, max: nat)
    requires Distinct(lru)
    ensures Distinct(Apply(lru, op, max))
  {
    WithoutStaysDistinct(lru, op.id);
    WithoutMembers(lru, op.id);
    if op.Get? && op.id !in lru {
      assert forall x | x in Last(lru, max) :: x in lru;
    }
  }

  // One operation: an id leaves exactly by its own delete, or by a get of a new id if it is one of
  // the oldest, as many as there are more than `max`. One that was not there comes exactly by its
  // own get.
  lemma LeavesExactly(lru: seq<Id>, op: Op, max: nat, k: nat)
    requires Distinct(lru) && k < |lru|
    ensures lru[k] !in Apply(lru, op, max) <==>
      op == Delete(lru[k]) || (op.Get? && op.id !in lru && k + max < |lru|)
  {
    WithoutMembers(lru, op.id);
    if op.Get? && op.id !in lru && k + max >= |lru| && |lru| > max {
      assert Last(lru, max)[k + max - |lru|] == lru[k];
    }
  }

  lemma ComesExactly(lru: seq<Id>, op: Op, max: nat, x: Id)
    requires x !in lru
    ensures x in Apply(lru, op, max) <==> op == Get(x)
  {
    WithoutMembers(lru, op.id);
  }

  lemma {:induction false} RunOneMore(lru: seq<Id>, ops: seq<Op>, k: nat, max: nat)
    requires k < |ops|
    ensures Run(lru, ops[..k + 1], max) == Apply(Run(lru, ops[..k], max), ops[k], max)
    decreases k
  {
    if k == 0 {
      assert ops[..1][1..] == [];
    } else {
      RunOneMore(Apply(lru, ops[0], max), ops[1..], k - 1, max);
      assert ops[..k + 1][1..] == ops[1..][..k] && ops[..k][1..] == ops[1..][..k - 1];
    }
  }

  lemma {:induction false} RunStaysDistinct(lru: seq<Id>, ops: seq<Op>, max: nat)
    requires Distinct(lru)
    ensures Distinct(Run(lru, ops, max))
    decreases |ops|
  {
    if ops != [] {
      StaysDistinct(lru, ops[0], max);
      RunStaysDistinct(Apply(lru, ops[0], max), ops[1..], max);
    }
  }

  // The k-th operation of a run makes `x` leave: its own delete, or a get of a new id while more
  // than `max` are held.
  predicate MakesLeave(lru: seq<Id>, ops: seq<Op>, max: nat, x: Id, k: nat) {
    k < |ops|
    && var pool := Run(lru, ops[..k], max);
       x in pool && (ops[k] == Delete(x) || (ops[k].Get? && ops[k].id !in pool && |pool| > max))
  }

  // Over a run: an id that is gone has left in one of these two ways.
  lemma {:induction false} LeftBecause(lru: seq<Id>, ops: seq<Op>, max: nat, x: Id) returns (k: nat)
    requires Distinct(lru) && x in lru && x !in Run(lru, ops, max)
    ensures MakesLeave(lru, ops, max, x, k)
    decreases |ops|
  {
    var n := |ops| - 1;
    RunOneMore(lru, ops, n, max);
    assert ops[..n + 1] == ops;
    var pool := Run(lru, ops[..n], max);
    if x in pool {
      RunStaysDistinct(lru, ops[..n], max);
      var i :| 0 <= i < |pool| && pool[i] == x;
      LeavesExactly(pool, ops[n], max, i);
      k := n;
    } else {
      k := LeftBecause(lru, ops[..n], max, x);
      assert ops[..n][..k] == ops[..k];
    }
  }

  lemma {:induction false} OnlyUsed(lru: seq<Id>, ops: seq<Op>, max: nat, ids: set<Id>)
    requires (forall x | x in lru :: x in ids) && forall i | 0 <= i < |ops| && ops[i].Get? :: ops[i].id in ids
    ensures forall x | x in Run(lru, ops, max) :: x in ids
    decreases |ops|
  {
    if ops != [] {
      forall x | x in Apply(lru, ops[0], max) ensures x in ids {
        if x !in lru {
          ComesExactly(lru, ops[0], max, x);
        }
      }
      OnlyUsed(Apply(lru, ops[0], max), ops[1..], max, ids);
    }
  }

  lemma {:induction false} DistinctFits(s: seq<Id>, ids: set<Id>)
    requires Distinct(s) && forall x | x in s :: x in ids
    ensures |s| <= |ids|
  {
    if s != [] {
      DistinctFits(s[1..], ids - {s[0]});
    }
  }

  // With at most `max` + 1 ids in use nothing is ever evicted: an id that is not deleted stays.
  lemma RoomForAll(lru: seq<Id>, ops: seq<Op>, max: nat, ids: set<Id>, x: Id)
    requires Distinct(lru) && (forall y | y in lru :: y in ids) && |ids| <= max + 1
    requires forall i | 0 <= i < |ops| && ops[i].Get? :: ops[i].id in ids
    requires x in lru && Delete(x) !in ops
    ensures x in Run(lru, ops, max)
  {
    if x !in Run(lru, ops, max) {
      var k := LeftBecause(lru, ops, max, x);
      var pool := Run(lru, ops[..k], max);
      assert ops[k] in ops;
      OnlyUsed(lru, ops[..k], max, ids);
      RunStaysDistinct(lru, ops[..k], max);
      DistinctFits(pool, ids - {ops[k].id});
      assert false;
    }
  }

  // With one more, the oldest has to go.
  lemma OneTooMany(lru: seq<Id>, max: nat, id: Id)
    requires Distinct(lru) && |lru| == max + 1 && id !in lru
    ensures lru[0] !in Run(lru, [Get(id)], max)
    ensures forall k | 1 <= k < |lru| :: lru[k] in Run(lru, [Get(id)], max)
  {
    assert [Get(id)][1..] == [];
    assert Run(lru, [Get(id)], max) == Apply(lru, Get(id), max);
    forall k | 0 <= k < |lru| ensures lru[k] in Apply(lru, Get(id), max) <==> k > 0 {
      LeavesExactly(lru, Get(id), max, k);
    }
  }
}
