/** The table of requests in flight: 32 shards, each a map under its own lock.  The sharded
    table refines one plain map, View. */
module Pending {
  import opened Basics

  const SHARDS := 32

  type RequestId = int

  type Table<F> = t: seq<map<RequestId, F>> | |t| == SHARDS witness seq(SHARDS, _ => map[])

  function ShardOf(q: RequestId): (j: nat)
    ensures j < SHARDS
  {
    q % SHARDS
  }

  function EmptyTable<F>(): Table<F> { seq(SHARDS, _ => map[]) }

  function Put<F>(t: Table<F>, q: RequestId, f: F): Table<F> {
    t[ShardOf(q) := t[ShardOf(q)][q := f]]
  }

  function Remove<F>(t: Table<F>, q: RequestId): Table<F> {
    t[ShardOf(q) := t[ShardOf(q)] - {q}]
  }

  function Lookup<F>(t: Table<F>, q: RequestId): Option<F> {
    if q in t[ShardOf(q)] then Some(t[ShardOf(q)][q]) else None
  }

  /** Every entry sits in the shard its id selects. */
  ghost predicate Placed<F>(t: Table<F>) {
    forall j, q :: 0 <= j < SHARDS && q in t[j] ==> ShardOf(q) == j
  }

  /** The plain map formed by the first n shards. */
  function Merge<F>(t: Table<F>, n: nat): map<RequestId, F>
    requires n <= SHARDS
  {
    if n == 0 then map[] else Merge(t, n - 1) + t[n - 1]
  }

  function View<F>(t: Table<F>): map<RequestId, F> { Merge(t, SHARDS) }

  lemma {:induction false} MergeEntry<F>(t: Table<F>, n: nat, q: RequestId)
    requires n <= SHARDS && Placed(t)
    ensures q in Merge(t, n) <==> ShardOf(q) < n && q in t[ShardOf(q)]
    ensures q in Merge(t, n) ==> Merge(t, n)[q] == t[ShardOf(q)][q]
  {
    if n > 0 {
      MergeEntry(t, n - 1, q);
    }
  }

  /** The shards and the plain map answer every lookup alike. */
  lemma {:induction false} ViewLookup<F>(t: Table<F>, q: RequestId)
    requires Placed(t)
    ensures Lookup(t, q) == if q in View(t) then Some(View(t)[q]) else None
  {
    MergeEntry(t, SHARDS, q);
  }

  lemma {:induction false} ViewPut<F>(t: Table<F>, q: RequestId, f: F)
    requires Placed(t)
    ensures Placed(Put(t, q, f)) && View(Put(t, q, f)) == View(t)[q := f]
  {
    forall r: RequestId ensures Lookup(Put(t, q, f), r) == if r == q then Some(f) else Lookup(t, r) {}
    SameView(Put(t, q, f), View(t)[q := f]) by {
      forall r: RequestId { ViewLookup(t, r); }
    }
  }

  lemma {:induction false} ViewRemove<F>(t: Table<F>, q: RequestId)
    requires Placed(t)
    ensures Placed(Remove(t, q)) && View(Remove(t, q)) == View(t) - {q}
  {
    SameView(Remove(t, q), View(t) - {q}) by {
      forall r: RequestId { ViewLookup(t, r); }
    }
  }

  lemma {:induction false} SameView<F>(t: Table<F>, m: map<RequestId, F>)
    requires Placed(t)
    requires forall r: RequestId :: Lookup(t, r) == if r in m then Some(m[r]) else None
    ensures View(t) == m
  {
    forall r: RequestId ensures r in View(t) <==> r in m { ViewLookup(t, r); }
    forall r: RequestId | r in m ensures View(t)[r] == m[r] { ViewLookup(t, r); }
  }

  /** Shard i holds what View holds of it, and nothing of the shards before. */
  lemma {:induction false} MergeEntries<F>(t: Table<F>, i: nat)
    requires i < SHARDS && Placed(t)
    ensures Merge(t, i).Keys !! t[i].Keys
    ensures forall q :: q in t[i] ==> q in View(t) && View(t)[q] == t[i][q]
  {
    forall q | q in t[i] ensures q in View(t) && View(t)[q] == t[i][q] && q !in Merge(t, i) {
      MergeEntry(t, i, q);
      MergeEntry(t, SHARDS, q);
    }
  }

  /** pendingMap, generic in the futures it holds. */
  class PendingMap<F(==)> {
    const shards: array<map<RequestId, F>>

    ghost predicate Valid()
      reads this, shards
    {
      shards.Length == SHARDS && Placed(shards[..])
    }

    /** The requests in flight, as one map. */
    ghost function Contents(): map<RequestId, F>
      requires Valid()
      reads this, shards
    {
      View(shards[..])
    }

    constructor ()
      ensures Valid() && fresh(shards) && Contents() == map[]
    {
      shards := new map<RequestId, F>[SHARDS](_ => map[]);
      new;
      SameView(shards[..], map[]);
    }

    method Store(q: RequestId, f: F)
      requires Valid()
      modifies shards
      ensures Valid() && Contents() == old(Contents())[q := f]
    {
      ViewPut(shards[..], q, f);
      var s := q % SHARDS;
      shards[s] := shards[s][q := f];
      assert shards[..] == Put(old(shards[..]), q, f);
    }

    method LoadAndDelete(q: RequestId) returns (f: Option<F>)
      requires Valid()
      modifies shards
      ensures Valid() && Contents() == old(Contents()) - {q}
      ensures f == if q in old(Contents()) then Some(old(Contents())[q]) else None
    {
      ViewLookup(shards[..], q);
      ViewRemove(shards[..], q);
      var s := q % SHARDS;
      f := None;
      if q in shards[s] {
        f := Some(shards[s][q]);
        shards[s] := shards[s] - {q};
      } else {
        assert shards[s] - {q} == shards[s];
      }
      assert shards[..] == Remove(old(shards[..]), q);
    }

    method Delete(q: RequestId)
      requires Valid()
      modifies shards
      ensures Valid() && Contents() == old(Contents()) - {q}
    {
      ViewRemove(shards[..], q);
      var s := q % SHARDS;
      shards[s] := shards[s] - {q};
      assert shards[..] == Remove(old(shards[..]), q);
    }

    /** Empties the shards one after the other; the futures come out once each, under the ids
        they were stored with. */
    method DrainAll() returns (futures: seq<F>, ghost ids: seq<RequestId>)
      requires Valid()
      modifies shards
      ensures Valid() && Contents() == map[]
      ensures Lists(old(Contents()), old(Contents()).Keys, futures, ids)
    {
      futures, ids := [], [];
      ghost var before := shards[..];
      for i := 0 to SHARDS
        invariant forall j :: 0 <= j < i ==> shards[j] == map[]
        invariant forall j :: i <= j < SHARDS ==> shards[j] == before[j]
        invariant Lists(View(before), Merge(before, i).Keys, futures, ids)
      {
        var more, moreIds := TakeAll(shards[i]);
        shards[i] := map[];
        ShardListed(before, i, futures, ids, more, moreIds);
        futures, ids := futures + more, ids + moreIds;
      }
      SameView(shards[..], map[]);
    }
  }

  /** The futures stored in m under the given keys, each listed once beside its id. */
  ghost predicate Lists<F>(m: map<RequestId, F>, keys: set<RequestId>, futures: seq<F>, ids: seq<RequestId>) {
    && |ids| == |futures|
    && (forall x, y :: 0 <= x < y < |ids| ==> ids[x] != ids[y])
    && (forall q :: q in ids <==> q in keys)
    && (forall x :: 0 <= x < |ids| ==> ids[x] in m && futures[x] == m[ids[x]])
  }

  lemma {:induction false} ListsConcat<F>(m: map<RequestId, F>, k1: set<RequestId>, f1: seq<F>, i1: seq<RequestId>,
                       k2: set<RequestId>, f2: seq<F>, i2: seq<RequestId>)
    requires Lists(m, k1, f1, i1) && Lists(m, k2, f2, i2) && k1 !! k2
    ensures Lists(m, k1 + k2, f1 + f2, i1 + i2)
  {
    forall x, y | 0 <= x < y < |i1 + i2| ensures (i1 + i2)[x] != (i1 + i2)[y] {
      if x < |i1| { assert i1[x] in i1; }
      if y >= |i1| { assert i2[y - |i1|] in i2; }
    }
  }

  lemma {:induction false} ShardListed<F>(t: Table<F>, i: nat, f1: seq<F>, i1: seq<RequestId>,
                                          f2: seq<F>, i2: seq<RequestId>)
    requires i < SHARDS && Placed(t) && Lists(View(t), Merge(t, i).Keys, f1, i1) && Lists(t[i], t[i].Keys, f2, i2)
    ensures Lists(View(t), Merge(t, i + 1).Keys, f1 + f2, i1 + i2)
  {
    MergeEntries(t, i);
    ListsConcat(View(t), Merge(t, i).Keys, f1, i1, t[i].Keys, f2, i2);
    assert Merge(t, i + 1).Keys == Merge(t, i).Keys + t[i].Keys;
  }

  /** Ranges over one shard, in no particular order. */
  method TakeAll<F>(m: map<RequestId, F>) returns (futures: seq<F>, ghost ids: seq<RequestId>)
    ensures Lists(m, m.Keys, futures, ids)
  {
    futures, ids := [], [];
    var rest := m;
    while exists q :: q in rest
      invariant rest.Keys <= m.Keys && forall q :: q in rest ==> rest[q] == m[q]
      invariant Lists(m, m.Keys - rest.Keys, futures, ids)
      decreases |rest|
    {
      var q :| q in rest;
      futures, ids := futures + [rest[q]], ids + [q];
      rest := rest - {q};
    }
    assert m.Keys - rest.Keys == m.Keys;
  }
}
