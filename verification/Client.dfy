/** The client side of a connection as code, one call at a time: batches are all or nothing, and
    the first failure completes everything in flight.  Multiplex interleaves the same steps. */
module Clients {
  import opened Basics
  import opened Pending

  type FutureId = nat

  datatype Error = ConnClosed | BadRequest | Io(code: int)

  datatype Sent = Futures(futures: seq<FutureId>) | Refused(err: Error)

  /** The i-th request id after base; the counter wraps at 2^64. */
  function Id(base: uint64, i: nat): (q: uint64) { (base + i) % UINT64_LIMIT }

  lemma {:induction false} NextId(base: uint64, i: nat)
    ensures Id(Id(base, i), 1) == Id(base, i + 1)
  {
    var q := (base + i) / UINT64_LIMIT;
    assert base + i == UINT64_LIMIT * q + Id(base, i);
    assert base + (i + 1) == UINT64_LIMIT * q + (Id(base, i) + 1);
  }

  /** q is one of the first n ids after base. */
  ghost predicate Given(base: uint64, n: nat, q: RequestId) { exists i: nat :: 1 <= i <= n && Id(base, i) == q }

  /** The table with n futures stored under the ids after base. */
  function Stored(t: map<RequestId, FutureId>, base: uint64, made: nat, n: nat): map<RequestId, FutureId> {
    if n == 0 then t else Stored(t, base, made, n - 1)[Id(base, n) := made + (n - 1)]
  }

  /** The table without the first n ids after base. */
  function Deleted(t: map<RequestId, FutureId>, base: uint64, n: nat): map<RequestId, FutureId> {
    if n == 0 then t else Deleted(t, base, n - 1) - {Id(base, n)}
  }

  lemma {:induction false} GivenMore(base: uint64, n: nat, q: RequestId)
    requires n > 0
    ensures Given(base, n, q) <==> Given(base, n - 1, q) || q == Id(base, n)
  {
    if Given(base, n, q) {
      var i: nat :| 1 <= i <= n && Id(base, i) == q;
      if i < n { assert 1 <= i <= n - 1; }
    }
    if Given(base, n - 1, q) {
      var i: nat :| 1 <= i <= n - 1 && Id(base, i) == q;
      assert 1 <= i <= n;
    }
  }

  lemma {:induction false} StoredElsewhere(t: map<RequestId, FutureId>, base: uint64, made: nat, n: nat, q: RequestId)
    requires !Given(base, n, q)
    ensures (q in Stored(t, base, made, n) <==> q in t) && (q in t ==> Stored(t, base, made, n)[q] == t[q])
  {
    if n > 0 {
      GivenMore(base, n, q);
      StoredElsewhere(t, base, made, n - 1, q);
    }
  }

  lemma {:induction false} DeletedAt(t: map<RequestId, FutureId>, base: uint64, n: nat, q: RequestId)
    ensures q in Deleted(t, base, n) <==> q in t && !Given(base, n, q)
    ensures q in Deleted(t, base, n) ==> Deleted(t, base, n)[q] == t[q]
  {
    if n > 0 {
      GivenMore(base, n, q);
      DeletedAt(t, base, n - 1, q);
    }
  }

  /** Taking back what was stored leaves of the table what is not under one of the ids. */
  lemma {:induction false} TakenBack(t: map<RequestId, FutureId>, base: uint64, made: nat, n: nat)
    ensures Deleted(Stored(t, base, made, n), base, n) == Deleted(t, base, n)
  {
    var a, b := Deleted(Stored(t, base, made, n), base, n), Deleted(t, base, n);
    forall q: RequestId ensures (q in a <==> q in b) && (q in a ==> a[q] == b[q]) {
      DeletedAt(Stored(t, base, made, n), base, n, q);
      DeletedAt(t, base, n, q);
      if !Given(base, n, q) { StoredElsewhere(t, base, made, n, q); }
    }
  }

  /** It restores the table exactly if none of the ids was in use; and none is, as long as ids in
      use were given out since the counter started and it does not wrap. */
  lemma {:induction false} RestoredExactly(t: map<RequestId, FutureId>, base: uint64, n: nat)
    ensures Deleted(t, base, n) == t <==> forall q :: q in t ==> !Given(base, n, q)
    ensures base + n < UINT64_LIMIT && (forall q :: q in t ==> q <= base) ==> Deleted(t, base, n) == t
  {
    var d := Deleted(t, base, n);
    forall q: RequestId ensures (q in d <==> q in t && !Given(base, n, q)) && (q in d ==> d[q] == t[q]) {
      DeletedAt(t, base, n, q);
    }
    if forall q :: q in t ==> !Given(base, n, q) {
      assert forall q: RequestId :: q in d <==> q in t;
      assert d.Keys == t.Keys;
      forall q: RequestId | q in d ensures d[q] == t[q] {}
    }
    if base + n < UINT64_LIMIT {
      forall q | q <= base ensures !Given(base, n, q) {
        forall i: nat | 1 <= i <= n ensures Id(base, i) != q {}
      }
    }
  }

  /** Fewer than 2^64 requests have distinct ids: each future stands under its own. */
  lemma {:induction false} OwnIds(t: map<RequestId, FutureId>, base: uint64, made: nat, n: nat, i: nat)
    requires 1 <= i <= n <= UINT64_LIMIT
    ensures Id(base, i) in Stored(t, base, made, n) && Stored(t, base, made, n)[Id(base, i)] == made + (i - 1)
  {
    if i < n {
      OwnIds(t, base, made, n - 1, i);
      IdsDiffer(base, i, n);
    }
  }

  lemma {:induction false} IdsDiffer(base: uint64, i: nat, n: nat)
    requires i < n < i + UINT64_LIMIT
    ensures Id(base, i) != Id(base, n)
  {
    var q, r := (base + i) / UINT64_LIMIT, (base + n) / UINT64_LIMIT;
    assert base + i == UINT64_LIMIT * q + Id(base, i) && base + n == UINT64_LIMIT * r + Id(base, n);
  }

  class TCPClient<!M> {
    const encode: (RequestId, M) -> Option<seq<byte>>    // the message under that request id
    const pending: PendingMap<FutureId>
    var seqNo: uint64
    var closed: bool
    var made: nat                                        // futures created so far
    var wire: seq<byte>
    var failed: map<FutureId, Error>                     // futures completed by fail

    ghost predicate Valid()
      reads this, pending, pending.shards
    {
      pending.Valid()
    }

    constructor (encode: (RequestId, M) -> Option<seq<byte>>)
      ensures Valid() && fresh(pending) && fresh(pending.shards)
      ensures this.encode == encode && pending.Contents() == map[]
      ensures seqNo == 0 && !closed && wire == [] && failed == map[]
    {
      this.encode := encode;
      pending := new PendingMap<FutureId>();
      seqNo, closed, made, wire, failed := 0, false, 0, [], map[];
    }

    /** The bytes of a batch whose ids follow base; nothing if a message cannot be encoded. */
    function Batch(base: uint64, msgs: seq<M>): Option<seq<byte>> {
      if msgs == [] then Some([])
      else
        var init := Batch(base, msgs[..|msgs| - 1]);
        var last := encode(Id(base, |msgs|), msgs[|msgs| - 1]);
        if init.None? || last.None? then None else Some(init.value + last.value)
    }

    /** A batch encodes exactly if each message does under its own id, base + 1 and so on modulo
        2^64, and then is their encodings in order. */
    lemma {:induction false} BatchIs(base: uint64, msgs: seq<M>)
      ensures Batch(base, msgs).Some? <==>
        forall i :: 0 <= i < |msgs| ==> encode((base + i + 1) % 0x1_0000_0000_0000_0000, msgs[i]).Some?
      ensures Batch(base, msgs).Some? ==> Batch(base, msgs).value == Flatten(seq(|msgs|,
        i requires 0 <= i < |msgs| => var e := encode((base + i + 1) % 0x1_0000_0000_0000_0000, msgs[i]);
          if e.Some? then e.value else []))
    {
      if msgs != [] {
        var n := |msgs| - 1;
        BatchIs(base, msgs[..n]);
        var last := encode((base + n + 1) % 0x1_0000_0000_0000_0000, msgs[n]);
        assert Id(base, n + 1) == (base + n + 1) % 0x1_0000_0000_0000_0000;
        assert forall i :: 0 <= i < n ==> msgs[..n][i] == msgs[i];
        if Batch(base, msgs).Some? {
          var parts := seq(|msgs|, i requires 0 <= i < |msgs| =>
            var e := encode((base + i + 1) % 0x1_0000_0000_0000_0000, msgs[i]); if e.Some? then e.value else []);
          var front := seq(n, i requires 0 <= i < n =>
            var e := encode((base + i + 1) % 0x1_0000_0000_0000_0000, msgs[..n][i]); if e.Some? then e.value else []);
          assert parts == front + [last.value];
          FlattenSnoc(front, last.value);
        }
      }
    }

    /** The first message that cannot be encoded, counted from 1; 0 if there is none. */
    function FirstBad(base: uint64, msgs: seq<M>): (n: nat)
      ensures n <= |msgs| && (n == 0 <==> Batch(base, msgs).Some?)
    {
      if msgs == [] then 0
      else
        var n := FirstBad(base, msgs[..|msgs| - 1]);
        if n > 0 then n else if encode(Id(base, |msgs|), msgs[|msgs| - 1]).None? then |msgs| else 0
    }

    /** fail: the first one closes the connection and completes everything in flight. */
    method Fail(err: Error)
      requires Valid()
      modifies this`closed, this`failed, pending.shards
      ensures Valid() && closed
      ensures old(closed) ==> pending.Contents() == old(pending.Contents()) && failed == old(failed)
      ensures !old(closed) ==> pending.Contents() == map[]
      ensures !old(closed) ==> forall f: FutureId ::
        (f in failed <==> f in old(failed) || f in old(pending.Contents()).Values)
        && (f in old(pending.Contents()).Values && f !in old(failed) ==> failed[f] == err)
        && (f in old(failed) ==> failed[f] == old(failed)[f])
    {
      if closed { return; }
      closed := true;
      ghost var before := pending.Contents();
      ghost var already := failed;
      var futures, ids := pending.DrainAll();
      ListedValues(before, futures, ids);
      for i := 0 to |futures|
        invariant closed && pending.Valid() && pending.Contents() == map[]
        invariant forall f: FutureId ::
          (f in failed <==> f in already || f in futures[..i])
          && (f in futures[..i] && f !in already ==> failed[f] == err)
          && (f in already ==> failed[f] == already[f])
      {
        assert futures[..i + 1] == futures[..i] + [futures[i]];
        if futures[i] !in failed { failed := failed[futures[i] := err]; }
      }
      assert futures[..|futures|] == futures;
    }

    /** Stores a new future under the next request id. */
    method Register()
      requires Valid()
      modifies this`seqNo, this`made, pending.shards
      ensures Valid() && seqNo == Id(old(seqNo), 1) && made == old(made) + 1
      ensures pending.Contents() == old(pending.Contents())[seqNo := old(made)]
    {
      seqNo := (seqNo + 1) % UINT64_LIMIT;
      pending.Store(seqNo, made);
      made := made + 1;
    }

    lemma {:induction false} BatchMore(base: uint64, msgs: seq<M>, i: nat)
      requires i < |msgs| && Batch(base, msgs[..i]).Some? && encode(Id(base, i + 1), msgs[i]).Some?
      ensures Batch(base, msgs[..i + 1]) == Some(Batch(base, msgs[..i]).value + encode(Id(base, i + 1), msgs[i]).value)
    {
      assert msgs[..i + 1][..i] == msgs[..i];
    }

    /** Registers and encodes every message; at the first that does not encode, takes back what it
        has registered. */
    method EncodeBatch(msgs: seq<M>) returns (buf: Option<seq<byte>>)
      requires Valid()
      modifies this`seqNo, this`made, pending.shards
      ensures Valid() && buf == Batch(old(seqNo), msgs)
      ensures buf.None? ==>
        pending.Contents() == Deleted(old(pending.Contents()), old(seqNo), FirstBad(old(seqNo), msgs))
      ensures buf.Some? ==> pending.Contents() == Stored(old(pending.Contents()), old(seqNo), old(made), |msgs|)
      ensures buf.Some? ==> seqNo == Id(old(seqNo), |msgs|) && made == old(made) + |msgs|
    {
      ghost var before, first := pending.Contents(), made;
      var base := seqNo;
      var bytes := [];
      var i := 0;
      while i < |msgs|
        invariant i <= |msgs| && seqNo == Id(base, i) && made == first + i && pending.Valid()
        invariant pending.Contents() == Stored(before, base, first, i)
        invariant Batch(base, msgs[..i]) == Some(bytes)
      {
        NextId(base, i);
        Register();
        var e := encode(seqNo, msgs[i]);
        if e.None? {
          TakeBack(base, i + 1, before, first);
          BadMessage(base, msgs, i + 1);
          return None;
        }
        BatchMore(base, msgs, i);
        bytes := bytes + e.value;
        i := i + 1;
      }
      assert msgs[..i] == msgs;
      return Some(bytes);
    }

    lemma {:induction false} BadMessage(base: uint64, msgs: seq<M>, n: nat)
      requires 1 <= n <= |msgs| && encode(Id(base, n), msgs[n - 1]).None? && Batch(base, msgs[..n - 1]).Some?
      ensures Batch(base, msgs).None? && FirstBad(base, msgs) == n
      decreases |msgs|
    {
      if n < |msgs| {
        assert msgs[..|msgs| - 1][..n - 1] == msgs[..n - 1];
        BadMessage(base, msgs[..|msgs| - 1], n);
      }
    }

    /** Deletes the first n ids after base. */
    method Rollback(base: uint64, n: nat)
      requires pending.Valid()
      modifies pending.shards
      ensures pending.Valid() && pending.Contents() == Deleted(old(pending.Contents()), base, n)
    {
      for j := 0 to n
        invariant pending.Valid() && pending.Contents() == Deleted(old(pending.Contents()), base, j)
      {
        pending.Delete(Id(base, j + 1));
      }
    }

    /** Rollback of what was stored since `before`. */
    method TakeBack(base: uint64, n: nat, ghost before: map<RequestId, FutureId>, ghost first: nat)
      requires pending.Valid() && pending.Contents() == Stored(before, base, first, n)
      modifies pending.shards
      ensures pending.Valid() && pending.Contents() == Deleted(before, base, n)
    {
      Rollback(base, n);
      TakenBack(before, base, first, n);
    }

    /** All or nothing: either every message is on the wire, in order, and its future stored under
        its own id; or what was stored has been taken back, and if bytes may have got out the
        connection is dead.  `writeErr` is what the socket says, `sent` what it took. */
    method SendAsyncBatch(msgs: seq<M>, writeErr: Option<Error>, sent: seq<byte>) returns (r: Sent)
      requires Valid()
      modifies this, pending.shards
      ensures Valid()
      ensures msgs == [] ==> r == Futures([])
      ensures msgs != [] && old(closed) ==> r == Refused(ConnClosed)
      ensures (msgs == [] || old(closed)) ==>
        && pending.Contents() == old(pending.Contents()) && wire == old(wire)
        && closed == old(closed) && failed == old(failed)
      ensures msgs != [] && !old(closed) && Batch(old(seqNo), msgs).None? ==>
        && r == Refused(BadRequest) && wire == old(wire) && !closed && failed == old(failed)
        && pending.Contents() == Deleted(old(pending.Contents()), old(seqNo), FirstBad(old(seqNo), msgs))
      ensures msgs != [] && !old(closed) && Batch(old(seqNo), msgs).Some? && writeErr.None? ==>
        && r == Futures(seq(|msgs|, i requires 0 <= i < |msgs| => old(made) + i)) && !closed && failed == old(failed)
        && wire == old(wire) + Batch(old(seqNo), msgs).value
        && pending.Contents() == Stored(old(pending.Contents()), old(seqNo), old(made), |msgs|)
      ensures msgs != [] && !old(closed) && Batch(old(seqNo), msgs).Some? && writeErr.Some? ==>
        && r == Refused(writeErr.value) && closed && pending.Contents() == map[] && wire == old(wire) + sent
        && forall f: FutureId :: f in failed <==>
             f in old(failed) || f in Deleted(old(pending.Contents()), old(seqNo), |msgs|).Values
    {
      if msgs == [] { return Futures([]); }
      if closed { return Refused(ConnClosed); }
      var base, first := seqNo, made;
      ghost var before := pending.Contents();
      var buf := EncodeBatch(msgs);
      if buf.None? { return Refused(BadRequest); }
      if writeErr.Some? {
        wire := wire + sent;
        TakeBack(base, |msgs|, before, first);
        Fail(writeErr.value);
        return Refused(writeErr.value);
      }
      wire := wire + buf.value;
      return Futures(seq(|msgs|, i requires 0 <= i < |msgs| => first + i));
    }
  }

  lemma {:induction false} ListedValues(m: map<RequestId, FutureId>, futures: seq<FutureId>, ids: seq<RequestId>)
    requires Lists(m, m.Keys, futures, ids)
    ensures forall f: FutureId :: f in futures <==> f in m.Values
  {
    forall f: FutureId | f in m.Values ensures f in futures {
      forall q | q in m && m[q] == f ensures f in futures {
        var x :| 0 <= x < |ids| && ids[x] == q;
        assert futures[x] == f;
      }
    }
    forall f: FutureId | f in futures ensures f in m.Values {
      var x :| 0 <= x < |futures| && futures[x] == f;
      assert m[ids[x]] == f;
    }
  }
}
