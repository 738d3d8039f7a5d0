/** The group-commit writer of a connection as a step system.

    Any number of calls of WriteRaw are in flight.  Each step is one lock section, one
    socket write, or one channel operation of one call, and steps interleave freely.
    The fields `arrivals`, `blocks`, `places` and the `block` of a batch are history:
    they record the order in which calls took the lock, every flush with the bytes it
    really put on the wire, and which flush carries which call.  No step reads them. */
module GroupCommit {
  import opened Basics

  type CallId = nat
  type BatchId = nat
  type Error = nat

  /** What the running flush is for: the leader's own bytes, or a detached batch. */
  datatype Work = Own | ForBatch(batch: BatchId, ownErr: Option<Error>)

  datatype Pc =
    | Invoked                                                      // before the lock
    | Waiting(batch: BatchId)                                      // follower, on the batch's channel
    | Flushing(work: Work, data: seq<byte>, total: nat)            // leader, inside flush
    | Publishing(b: BatchId, own: Option<Error>, err: Option<Error>) // leader, before close(done)
    | Relock(own: Option<Error>)                                   // leader, before taking the lock again
    | Returned(result: Option<Error>)

  datatype Place = Nowhere | OwnBlock(index: nat) | Shared(batch: BatchId)

  datatype Outcome = Running | Done(err: Option<Error>)

  /** One flush: whose bytes, the bytes, how many reached the socket, how it ended. */
  datatype Block = Block(members: seq<CallId>, data: seq<byte>, sent: nat, outcome: Outcome)

  datatype Batch = Batch(buf: seq<byte>, closed: bool, err: Option<Error>,
                         members: seq<CallId>, block: Option<nat>)

  datatype State = State(
    writing: bool,
    batch: Option<BatchId>,
    batches: seq<Batch>,
    payloads: seq<seq<byte>>,
    pcs: seq<Pc>,
    wire: seq<byte>,
    arrivals: seq<CallId>,
    blocks: seq<Block>,
    places: seq<Place>)

  datatype Action =
    | Invoke(payload: seq<byte>)
    | Enter(c: CallId)
    | SocketWrite(c: CallId, n: nat, err: Option<Error>)
    | FlushEnd(c: CallId)
    | Publish(c: CallId)
    | TakeBatch(c: CallId)
    | Wake(c: CallId)

  const INIT := State(false, None, [], [], [], [], [], [], [])

  // ---------------------------------------------------------------- the steps

  /** When a step may happen.  A socket write that reports no error makes progress. */
  predicate Enabled(s: State, a: Action) {
    && |s.payloads| == |s.pcs| == |s.places|
    && match a
       case Invoke(_) => true
       case Enter(c) => c < |s.pcs| && s.pcs[c].Invoked? && (s.writing && s.batch.Some? ==> s.batch.value < |s.batches|)
       case SocketWrite(c, n, err) =>
         && c < |s.pcs| && s.pcs[c].Flushing? && |s.blocks| > 0
         && s.pcs[c].total < |s.pcs[c].data| && n <= |s.pcs[c].data| - s.pcs[c].total
         && (err.None? ==> n > 0)
       case FlushEnd(c) => c < |s.pcs| && s.pcs[c].Flushing? && |s.blocks| > 0 && s.pcs[c].total >= |s.pcs[c].data|
       case Publish(c) => c < |s.pcs| && s.pcs[c].Publishing? && s.pcs[c].b < |s.batches|
       case TakeBatch(c) => c < |s.pcs| && s.pcs[c].Relock? && (s.batch.Some? ==> s.batch.value < |s.batches|)
       case Wake(c) =>
         c < |s.pcs| && s.pcs[c].Waiting? && s.pcs[c].batch < |s.batches| && s.batches[s.pcs[c].batch].closed
  }

  /** Where the leader goes when its flush returns. */
  function AfterFlush(work: Work, err: Option<Error>): Pc {
    match work
    case Own => Relock(err)
    case ForBatch(b, own) => Publishing(b, own, err)
  }

  function Next(s: State, a: Action): State
    requires Enabled(s, a)
  {
    match a
    case Invoke(p) =>
      s.(payloads := s.payloads + [p],
         pcs := s.pcs + [if |p| == 0 then Returned(None) else Invoked],
         places := s.places + [Nowhere])
    case Enter(c) => if s.writing then JoinBatch(s, c) else Lead(s, c)
    case SocketWrite(c, n, err) =>
      var pc := s.pcs[c];
      var last := |s.blocks| - 1;
      var block := s.blocks[last].(sent := s.blocks[last].sent + n);
      s.(wire := s.wire + pc.data[pc.total .. pc.total + n],
         blocks := s.blocks[last := if err.None? then block else block.(outcome := Done(err))],
         pcs := s.pcs[c := if err.None? then pc.(total := pc.total + n) else AfterFlush(pc.work, err)])
    case FlushEnd(c) =>
      var last := |s.blocks| - 1;
      s.(blocks := s.blocks[last := s.blocks[last].(outcome := Done(None))],
         pcs := s.pcs[c := AfterFlush(s.pcs[c].work, None)])
    case Publish(c) =>
      var pc := s.pcs[c];
      s.(batches := s.batches[pc.b := s.batches[pc.b].(buf := [], err := pc.err, closed := true)],
         pcs := s.pcs[c := Relock(pc.own)])
    case TakeBatch(c) =>
      if s.batch.None? then
        s.(writing := false, pcs := s.pcs[c := Returned(s.pcs[c].own)])
      else
        var b := s.batch.value;
        s.(batch := None,
           batches := s.batches[b := s.batches[b].(block := Some(|s.blocks|))],
           blocks := s.blocks + [Block(s.batches[b].members, s.batches[b].buf, 0, Running)],
           pcs := s.pcs[c := Flushing(ForBatch(b, s.pcs[c].own), s.batches[b].buf, 0)])
    case Wake(c) =>
      s.(pcs := s.pcs[c := Returned(s.batches[s.pcs[c].batch].err)])
  }

  function JoinBatch(s: State, c: CallId): State
    requires Enabled(s, Enter(c)) && s.writing
  {
    var b := if s.batch.None? then |s.batches| else s.batch.value;
    var batches := if s.batch.None? then s.batches + [Batch([], false, None, [], None)] else s.batches;
    s.(batch := Some(b),
       batches := batches[b := batches[b].(buf := batches[b].buf + s.payloads[c], members := batches[b].members + [c])],
       pcs := s.pcs[c := Waiting(b)],
       places := s.places[c := Shared(b)],
       arrivals := s.arrivals + [c])
  }

  function Lead(s: State, c: CallId): State
    requires Enabled(s, Enter(c))
  {
    s.(writing := true,
       pcs := s.pcs[c := Flushing(Own, s.payloads[c], 0)],
       places := s.places[c := OwnBlock(|s.blocks|)],
       blocks := s.blocks + [Block([c], s.payloads[c], 0, Running)],
       arrivals := s.arrivals + [c])
  }

  predicate CanRun(s: State, acts: seq<Action>)
    decreases |acts|
  {
    acts == [] || (Enabled(s, acts[0]) && CanRun(Next(s, acts[0]), acts[1..]))
  }

  function Run(s: State, acts: seq<Action>): State
    requires CanRun(s, acts)
    decreases |acts|
  {
    if acts == [] then s else Run(Next(s, acts[0]), acts[1..])
  }

  // ---------------------------------------------------------------- derived notions

  /** The bytes of the given calls, in order. */
  function Payload(payloads: seq<seq<byte>>, members: seq<CallId>): (r: seq<byte>) {
    if members == [] then []
    else (if members[0] < |payloads| then payloads[members[0]] else []) + Payload(payloads, members[1..])
  }

  /** The bytes a flush put on the wire. */
  function SentBytes(x: Block): seq<byte> { if x.sent <= |x.data| then x.data[..x.sent] else x.data }

  /** The bytes a sequence of flushes put on the wire. */
  function WireOf(blocks: seq<Block>): (r: seq<byte>) {
    if blocks == [] then [] else WireOf(blocks[..|blocks|-1]) + SentBytes(blocks[|blocks|-1])
  }

  /** The calls carried by a sequence of flushes. */
  function Carried(blocks: seq<Block>): (r: seq<CallId>) {
    if blocks == [] then [] else Carried(blocks[..|blocks|-1]) + blocks[|blocks|-1].members
  }

  predicate IsLeader(pc: Pc) { pc.Flushing? || pc.Publishing? || pc.Relock? }

  /** The leader has detached batch b and not yet closed it. */
  predicate InHand(pc: Pc, b: BatchId) {
    (pc.Flushing? && pc.work.ForBatch? && pc.work.batch == b) || (pc.Publishing? && pc.b == b)
  }

  /** The flush that carries the bytes of call c, if one was started. */
  function Carrier(s: State, c: CallId): Option<nat>
    requires c < |s.places|
  {
    match s.places[c]
    case Nowhere => None
    case OwnBlock(i) => Some(i)
    case Shared(b) => if b < |s.batches| then s.batches[b].block else None
  }

  function Waiters(s: State): seq<CallId> {
    if s.batch.Some? && s.batch.value < |s.batches| then s.batches[s.batch.value].members else []
  }

  predicate Distinct(xs: seq<CallId>) {
    forall i, j :: 0 <= i < j < |xs| ==> xs[i] != xs[j]
  }

  predicate Known(payloads: seq<seq<byte>>, members: seq<CallId>) {
    forall k :: 0 <= k < |members| ==> members[k] < |payloads|
  }

  // ---------------------------------------------------------------- the invariant

  ghost predicate LeaderInv(s: State) {
    && (forall i, j :: 0 <= i < |s.pcs| && 0 <= j < |s.pcs| && IsLeader(s.pcs[i]) && IsLeader(s.pcs[j]) ==> i == j)
    && (s.writing <==> exists i :: 0 <= i < |s.pcs| && IsLeader(s.pcs[i]))
    && (s.batch.Some? ==> s.writing && s.batch.value < |s.batches|)
  }

  ghost predicate BatchOk(s: State, b: BatchId)
    requires b < |s.batches|
  {
    var x := s.batches[b];
    && Known(s.payloads, x.members)
    && (!x.closed ==> |x.buf| > 0 && x.buf == Payload(s.payloads, x.members))
    && (x.block.None? <==> s.batch == Some(b))
    && (x.block.Some? ==> x.block.value < |s.blocks| && s.blocks[x.block.value].members == x.members)
    && (x.closed ==> x.block.Some? && s.blocks[x.block.value].outcome == Done(x.err))
    && (!x.closed && s.batch != Some(b) ==> exists l :: 0 <= l < |s.pcs| && InHand(s.pcs[l], b))
  }

  ghost predicate BlockOk(s: State, i: nat)
    requires i < |s.blocks|
  {
    var x := s.blocks[i];
    && Known(s.payloads, x.members)
    && x.data == Payload(s.payloads, x.members)
    && x.sent <= |x.data|
    && (x.outcome == Done(None) ==> x.sent == |x.data|)
    && (x.outcome.Running? ==> i == |s.blocks| - 1 && exists l :: 0 <= l < |s.pcs| && s.pcs[l].Flushing?)
  }

  /** The leader's own bytes were carried by a finished flush with outcome err. */
  predicate OwnDone(s: State, c: CallId, err: Option<Error>)
    requires c < |s.places|
  {
    s.places[c].OwnBlock? && s.places[c].index < |s.blocks| && s.blocks[s.places[c].index].outcome == Done(err)
  }

  predicate DetachedTo(s: State, b: BatchId, i: nat) {
    b < |s.batches| && !s.batches[b].closed && s.batches[b].block == Some(i) && i < |s.blocks|
  }

  ghost predicate CallOk(s: State, c: CallId)
    requires c < |s.pcs| == |s.payloads| == |s.places|
  {
    && (match s.pcs[c]
        case Invoked => s.places[c] == Nowhere && |s.payloads[c]| > 0
        case Waiting(b) => s.places[c] == Shared(b)
        case Flushing(work, data, total) =>
          && |s.blocks| > 0
          && var last := s.blocks[|s.blocks|-1];
          && last.outcome.Running? && last.data == data && last.sent == total
          && (work.Own? ==> s.places[c] == OwnBlock(|s.blocks| - 1))
          && (work.ForBatch? ==> DetachedTo(s, work.batch, |s.blocks| - 1) && OwnDone(s, c, work.ownErr))
        case Publishing(b, own, err) =>
          && OwnDone(s, c, own)
          && b < |s.batches| && s.batches[b].block.Some? && DetachedTo(s, b, s.batches[b].block.value)
          && s.blocks[s.batches[b].block.value].outcome == Done(err)
        case Relock(own) => OwnDone(s, c, own)
        case Returned(e) =>
          if s.places[c].Nowhere? then |s.payloads[c]| == 0 && e.None?
          else
            && Carrier(s, c).Some? && Carrier(s, c).value < |s.blocks|
            && s.blocks[Carrier(s, c).value].outcome == Done(e))
    && (match s.places[c]
        case Nowhere => s.pcs[c].Invoked? || s.pcs[c].Returned?
        case OwnBlock(i) => i < |s.blocks| && s.blocks[i].members == [c] && !s.pcs[c].Waiting?
        case Shared(b) => b < |s.batches| && c in s.batches[b].members && (s.pcs[c].Waiting? || s.pcs[c].Returned?))
  }

  ghost predicate HistoryInv(s: State) {
    && s.arrivals == Carried(s.blocks) + Waiters(s)
    && Distinct(s.arrivals)
    && (forall c: CallId :: c in s.arrivals <==> c < |s.places| && s.places[c] != Nowhere)
  }

  ghost predicate Inv(s: State) {
    && |s.payloads| == |s.pcs| == |s.places|
    && LeaderInv(s)
    && (forall b :: 0 <= b < |s.batches| ==> BatchOk(s, b))
    && (forall i :: 0 <= i < |s.blocks| ==> BlockOk(s, i))
    && (forall c :: 0 <= c < |s.pcs| ==> CallOk(s, c))
    && s.wire == WireOf(s.blocks)
    && HistoryInv(s)
  }

  // ---------------------------------------------------------------- lemmas on the history

  lemma {:induction false} PayloadGrow(payloads: seq<seq<byte>>, p: seq<byte>, members: seq<CallId>)
    requires Known(payloads, members)
    ensures Payload(payloads + [p], members) == Payload(payloads, members)
  {
    if members != [] {
      PayloadGrow(payloads, p, members[1..]);
    }
  }

  lemma {:induction false} PayloadConcat(payloads: seq<seq<byte>>, a: seq<CallId>, b: seq<CallId>)
    ensures Payload(payloads, a + b) == Payload(payloads, a) + Payload(payloads, b)
  {
    if a == [] {
      assert a + b == b;
    } else {
      assert (a + b)[1..] == a[1..] + b;
      PayloadConcat(payloads, a[1..], b);
    }
  }

  /** The leader, if there is one, is where it was. */
  ghost predicate LeadersKept(s: State, t: State) {
    |s.pcs| <= |t.pcs| && forall l :: 0 <= l < |s.pcs| && IsLeader(s.pcs[l]) ==> t.pcs[l] == s.pcs[l]
  }

  lemma {:induction false} BlockKept(s: State, t: State, i: nat)
    requires i < |s.blocks| && BlockOk(s, i) && LeadersKept(s, t)
    requires t.blocks == s.blocks && Known(t.payloads, s.blocks[i].members)
    requires Payload(t.payloads, s.blocks[i].members) == Payload(s.payloads, s.blocks[i].members)
    ensures BlockOk(t, i)
  {
    if s.blocks[i].outcome.Running? {
      var l :| 0 <= l < |s.pcs| && s.pcs[l].Flushing?;
      assert t.pcs[l].Flushing?;
    }
  }

  lemma {:induction false} BatchKept(s: State, t: State, b: BatchId)
    requires b < |s.batches| && BatchOk(s, b) && LeadersKept(s, t) && s.batch != Some(b) && t.batch != Some(b)
    requires b < |t.batches| && t.batches[b] == s.batches[b] && t.blocks == s.blocks
    requires Known(t.payloads, s.batches[b].members)
    requires Payload(t.payloads, s.batches[b].members) == Payload(s.payloads, s.batches[b].members)
    ensures BatchOk(t, b)
  {
    if !s.batches[b].closed {
      var l :| 0 <= l < |s.pcs| && InHand(s.pcs[l], b);
      assert InHand(t.pcs[l], b);
    }
  }

  lemma {:induction false} LeaderStays(s: State, t: State)
    requires s.writing ==> exists i :: 0 <= i < |s.pcs| && IsLeader(s.pcs[i])
    requires LeadersKept(s, t)
    ensures s.writing ==> exists i :: 0 <= i < |t.pcs| && IsLeader(t.pcs[i])
  {
    if s.writing {
      var l :| 0 <= l < |s.pcs| && IsLeader(s.pcs[l]);
      assert IsLeader(t.pcs[l]);
    }
  }

  lemma {:induction false} StepInvoke(s: State, p: seq<byte>)
    requires Inv(s)
    ensures Inv(Next(s, Invoke(p)))
  {
    var t := Next(s, Invoke(p));
    forall b | 0 <= b < |t.batches| ensures BatchOk(t, b) {
      assert BatchOk(s, b);
      PayloadGrow(s.payloads, p, s.batches[b].members);
      if s.batch != Some(b) { BatchKept(s, t, b); }
    }
    forall i | 0 <= i < |t.blocks| ensures BlockOk(t, i) {
      assert BlockOk(s, i);
      PayloadGrow(s.payloads, p, s.blocks[i].members);
      BlockKept(s, t, i);
    }
    forall c | 0 <= c < |t.pcs| ensures CallOk(t, c) {
      if c < |s.pcs| { assert CallOk(s, c); }
      InvokedCall(s, p, c);
    }
    LeaderStays(s, t);
  }

  lemma {:induction false} InvokedCall(s: State, p: seq<byte>, c: CallId)
    requires |s.payloads| == |s.pcs| == |s.places| && c <= |s.pcs| && (c < |s.pcs| ==> CallOk(s, c))
    ensures CallOk(Next(s, Invoke(p)), c)
  {
  }

  lemma {:induction false} StepLead(s: State, c: CallId)
    requires Inv(s) && Enabled(s, Enter(c)) && !s.writing
    ensures Inv(Next(s, Enter(c)))
  {
    var t := Next(s, Enter(c));
    assert t.blocks[..|t.blocks| - 1] == s.blocks;
    assert Payload(s.payloads, [c]) == s.payloads[c];
    assert IsLeader(t.pcs[c]) && t.pcs[c].Flushing?;
    assert CallOk(s, c);
    forall b | 0 <= b < |t.batches| ensures BatchOk(t, b) {
      assert BatchOk(s, b);
      assert s.batches[b].closed;
    }
    forall i | 0 <= i < |t.blocks| ensures BlockOk(t, i) {
      if i < |s.blocks| { assert BlockOk(s, i); }
    }
    forall k | 0 <= k < |t.pcs| ensures CallOk(t, k) {
      assert CallOk(s, k);
    }
    assert t.arrivals == Carried(t.blocks) + Waiters(t);
  }

  lemma {:induction false} JoinedBatches(s: State, c: CallId)
    requires Inv(s) && Enabled(s, Enter(c)) && s.writing
    ensures forall b :: 0 <= b < |JoinBatch(s, c).batches| ==> BatchOk(JoinBatch(s, c), b)
  {
    var t := JoinBatch(s, c);
    assert CallOk(s, c);
    PayloadConcat(s.payloads, Waiters(s), [c]);
    assert Payload(s.payloads, [c]) == s.payloads[c];
    assert Payload(s.payloads, []) == [];
    forall b | 0 <= b < |t.batches| ensures BatchOk(t, b) {
      if b < |s.batches| {
        assert BatchOk(s, b);
        if s.batch != Some(b) { BatchKept(s, t, b); }
      }
    }
  }

  lemma {:induction false} JoinedHistory(s: State, c: CallId)
    requires Inv(s) && Enabled(s, Enter(c)) && s.writing
    ensures HistoryInv(JoinBatch(s, c))
  {
    var t := JoinBatch(s, c);
    assert CallOk(s, c);
    assert Waiters(t) == Waiters(s) + [c];
    assert t.arrivals == Carried(t.blocks) + Waiters(t);
  }

  lemma {:induction false} StepJoin(s: State, c: CallId)
    requires Inv(s) && Enabled(s, Enter(c)) && s.writing
    ensures Inv(Next(s, Enter(c)))
  {
    var t := Next(s, Enter(c));
    JoinedBatches(s, c);
    JoinedHistory(s, c);
    assert CallOk(s, c);
    if s.batch.Some? { assert BatchOk(s, s.batch.value); }
    forall i | 0 <= i < |t.blocks| ensures BlockOk(t, i) {
      assert BlockOk(s, i);
      BlockKept(s, t, i);
    }
    forall k | 0 <= k < |t.pcs| ensures CallOk(t, k) {
      assert CallOk(s, k);
      JoinedCall(s, c, k);
    }
    LeaderStays(s, t);
  }

  lemma {:induction false} JoinedCall(s: State, c: CallId, k: CallId)
    requires Enabled(s, Enter(c)) && s.writing && k < |s.pcs| && CallOk(s, c) && CallOk(s, k)
    requires s.batch.Some? ==> BatchOk(s, s.batch.value)
    ensures CallOk(JoinBatch(s, c), k)
  {
    var t := JoinBatch(s, c);
    if k == c {
      var b := t.batch.value;
      var m := if s.batch.None? then [] else s.batches[b].members;
      assert t.batches[b].members == m + [c];
    }
  }

  lemma {:induction false} StepSocketWrite(s: State, c: CallId, n: nat, err: Option<Error>)
    requires Inv(s) && Enabled(s, SocketWrite(c, n, err))
    ensures Inv(Next(s, SocketWrite(c, n, err)))
  {
    var t := Next(s, SocketWrite(c, n, err));
    assert CallOk(s, c);
    LastBlockChanged(s, t, c);
    WireGrows(s.blocks, t.blocks[|t.blocks| - 1], n);
  }

  /** The last flush has sent n bytes more. */
  lemma {:induction false} WireGrows(blocks: seq<Block>, x: Block, n: nat)
    requires blocks != []
    requires var before := blocks[|blocks| - 1]; x.data == before.data && x.sent == before.sent + n <= |x.data|
    ensures var sent := blocks[|blocks| - 1].sent;
      WireOf(blocks[|blocks| - 1 := x]) == WireOf(blocks) + x.data[sent..sent + n]
  {
    var last := |blocks| - 1;
    LastFlush(blocks, x);
    LastFlush(blocks, blocks[last]);
    assert blocks[last := blocks[last]] == blocks;
    MoreSent(WireOf(blocks[..last]), blocks[last], x, n);
  }

  lemma {:induction false} LastFlush(blocks: seq<Block>, x: Block)
    requires blocks != []
    ensures WireOf(blocks[|blocks| - 1 := x]) == WireOf(blocks[..|blocks| - 1]) + SentBytes(x)
  {
    assert blocks[|blocks| - 1 := x][..|blocks| - 1] == blocks[..|blocks| - 1];
  }

  lemma {:induction false} MoreSent(wire: seq<byte>, before: Block, x: Block, n: nat)
    requires x.data == before.data && x.sent == before.sent + n <= |x.data|
    ensures wire + SentBytes(x) == (wire + SentBytes(before)) + x.data[before.sent..before.sent + n]
  {
    TakeMore(x.data, before.sent, n);
  }

  lemma {:induction false} TakeMore(data: seq<byte>, total: nat, n: nat)
    requires total + n <= |data|
    ensures data[..total + n] == data[..total] + data[total..total + n]
  {
  }

  lemma {:induction false} StepFlushEnd(s: State, c: CallId)
    requires Inv(s) && Enabled(s, FlushEnd(c))
    ensures Inv(Next(s, FlushEnd(c)))
  {
    var t := Next(s, FlushEnd(c));
    assert CallOk(s, c);
    assert BlockOk(s, |s.blocks| - 1);
    LastBlockChanged(s, t, c);
    assert t.blocks[..|t.blocks| - 1] == s.blocks[..|s.blocks| - 1];
  }

  /** A step of the flush changes only the running block and the leader's counter. */
  lemma {:induction false} LastBlockChanged(s: State, t: State, c: CallId)
    requires Inv(s) && c < |s.pcs| && s.pcs[c].Flushing?
    requires |s.blocks| > 0 && |t.blocks| == |s.blocks| && |t.pcs| == |s.pcs|
    requires t == s.(wire := t.wire, blocks := t.blocks, pcs := s.pcs[c := t.pcs[c]])
    requires t.blocks == s.blocks[|s.blocks| - 1 := t.blocks[|s.blocks| - 1]]
    requires t.blocks[|s.blocks| - 1].members == s.blocks[|s.blocks| - 1].members
    requires t.blocks[|s.blocks| - 1].data == s.blocks[|s.blocks| - 1].data
    requires var x := t.blocks[|s.blocks| - 1]; var pc := s.pcs[c];
      && s.blocks[|s.blocks| - 1].sent <= x.sent <= |x.data|
      && (match x.outcome
          case Running => t.pcs[c] == Flushing(pc.work, pc.data, x.sent)
          case Done(e) => t.pcs[c] == AfterFlush(pc.work, e) && (e.None? ==> x.sent == |x.data|))
    ensures LeaderInv(t) && HistoryInv(t)
    ensures forall b :: 0 <= b < |t.batches| ==> BatchOk(t, b)
    ensures forall i :: 0 <= i < |t.blocks| ==> BlockOk(t, i)
    ensures forall k :: 0 <= k < |t.pcs| ==> CallOk(t, k)
  {
    var last := |s.blocks| - 1;
    OneLeader(s, c);
    assert CallOk(s, c);
    assert IsLeader(s.pcs[c]) && IsLeader(t.pcs[c]);
    assert s.blocks[last].outcome.Running?;
    CarriedUpdate(s.blocks, t.blocks[last]);
    forall b | 0 <= b < |t.batches| ensures BatchOk(t, b) {
      assert BatchOk(s, b);
      if !s.batches[b].closed && s.batch != Some(b) {
        var l :| 0 <= l < |s.pcs| && InHand(s.pcs[l], b);
        assert InHand(t.pcs[l], b);
      }
    }
    forall i | 0 <= i < |t.blocks| ensures BlockOk(t, i) {
      assert BlockOk(s, i);
      if t.blocks[i].outcome.Running? { assert i == last && t.pcs[c].Flushing?; }
    }
    forall k | 0 <= k < |t.pcs| ensures CallOk(t, k) {
      assert CallOk(s, k);
    }
  }

  lemma {:induction false} CarriedUpdate(blocks: seq<Block>, x: Block)
    requires |blocks| > 0 && x.members == blocks[|blocks| - 1].members
    ensures Carried(blocks[|blocks| - 1 := x]) == Carried(blocks)
  {
    assert blocks[|blocks| - 1 := x][..|blocks| - 1] == blocks[..|blocks| - 1];
  }

  /** Everything in the hand of the leader is in the hand of the one leader there is. */
  lemma {:induction false} OneLeader(s: State, c: CallId)
    requires Inv(s) && c < |s.pcs| && IsLeader(s.pcs[c])
    ensures forall k :: 0 <= k < |s.pcs| && k != c ==> !IsLeader(s.pcs[k])
    ensures forall b :: 0 <= b < |s.batches| && !s.batches[b].closed && s.batch != Some(b) ==> InHand(s.pcs[c], b)
    ensures forall i :: 0 <= i < |s.blocks| && s.blocks[i].outcome.Running? ==> s.pcs[c].Flushing?
  {
    forall b | 0 <= b < |s.batches| && !s.batches[b].closed && s.batch != Some(b) ensures InHand(s.pcs[c], b) {
      assert BatchOk(s, b);
      var l :| 0 <= l < |s.pcs| && InHand(s.pcs[l], b);
      assert IsLeader(s.pcs[l]);
    }
    forall i | 0 <= i < |s.blocks| && s.blocks[i].outcome.Running? ensures s.pcs[c].Flushing? {
      assert BlockOk(s, i);
      var l :| 0 <= l < |s.pcs| && s.pcs[l].Flushing?;
      assert IsLeader(s.pcs[l]);
    }
  }

  lemma {:induction false} StepPublish(s: State, c: CallId)
    requires Inv(s) && Enabled(s, Publish(c))
    ensures Inv(Next(s, Publish(c)))
  {
    var t := Next(s, Publish(c));
    var b0 := s.pcs[c].b;
    OneLeader(s, c);
    assert CallOk(s, c) && BatchOk(s, b0);
    assert IsLeader(s.pcs[c]) && IsLeader(t.pcs[c]);
    forall b | 0 <= b < |t.batches| ensures BatchOk(t, b) {
      assert BatchOk(s, b);
    }
    forall i | 0 <= i < |t.blocks| ensures BlockOk(t, i) {
      assert BlockOk(s, i);
    }
    forall k | 0 <= k < |t.pcs| ensures CallOk(t, k) {
      assert CallOk(s, k);
    }
    assert Waiters(t) == Waiters(s);
  }

  lemma {:induction false} StepTakeBatch(s: State, c: CallId)
    requires Inv(s) && Enabled(s, TakeBatch(c)) && s.batch.Some?
    ensures Inv(Next(s, TakeBatch(c)))
  {
    var t := Next(s, TakeBatch(c));
    var b0 := s.batch.value;
    OneLeader(s, c);
    assert CallOk(s, c) && BatchOk(s, b0);
    assert IsLeader(s.pcs[c]) && IsLeader(t.pcs[c]) && t.pcs[c].Flushing?;
    assert t.blocks[..|t.blocks| - 1] == s.blocks;
    forall b | 0 <= b < |t.batches| ensures BatchOk(t, b) {
      assert BatchOk(s, b);
      if b == b0 { assert InHand(t.pcs[c], b0); }
    }
    forall i | 0 <= i < |t.blocks| ensures BlockOk(t, i) {
      if i < |s.blocks| { assert BlockOk(s, i); }
    }
    forall k | 0 <= k < |t.pcs| ensures CallOk(t, k) {
      assert CallOk(s, k);
    }
    assert t.arrivals == Carried(t.blocks) + Waiters(t);
  }

  lemma {:induction false} StepLeave(s: State, c: CallId)
    requires Inv(s) && Enabled(s, TakeBatch(c)) && s.batch.None?
    ensures Inv(Next(s, TakeBatch(c)))
  {
    var t := Next(s, TakeBatch(c));
    OneLeader(s, c);
    assert CallOk(s, c);
    assert IsLeader(s.pcs[c]);
    forall b | 0 <= b < |t.batches| ensures BatchOk(t, b) {
      assert BatchOk(s, b);
    }
    forall i | 0 <= i < |t.blocks| ensures BlockOk(t, i) {
      assert BlockOk(s, i);
    }
    forall k | 0 <= k < |t.pcs| ensures CallOk(t, k) {
      assert CallOk(s, k);
    }
    assert forall i :: 0 <= i < |t.pcs| ==> !IsLeader(t.pcs[i]);
  }

  lemma {:induction false} StepWake(s: State, c: CallId)
    requires Inv(s) && Enabled(s, Wake(c))
    ensures Inv(Next(s, Wake(c)))
  {
    var t := Next(s, Wake(c));
    assert CallOk(s, c) && BatchOk(s, s.pcs[c].batch);
    forall b | 0 <= b < |t.batches| ensures BatchOk(t, b) {
      assert BatchOk(s, b);
      if s.batch != Some(b) { BatchKept(s, t, b); }
    }
    forall i | 0 <= i < |t.blocks| ensures BlockOk(t, i) {
      assert BlockOk(s, i);
      BlockKept(s, t, i);
    }
    forall k | 0 <= k < |t.pcs| ensures CallOk(t, k) {
      assert CallOk(s, k);
    }
    LeaderStays(s, t);
  }

  lemma {:induction false} StepKeepsInv(s: State, a: Action)
    requires Inv(s) && Enabled(s, a)
    ensures Inv(Next(s, a))
  {
    match a
    case Invoke(p) => StepInvoke(s, p);
    case Enter(c) => if s.writing { StepJoin(s, c); } else { StepLead(s, c); }
    case SocketWrite(c, n, err) => StepSocketWrite(s, c, n, err);
    case FlushEnd(c) => StepFlushEnd(s, c);
    case Publish(c) => StepPublish(s, c);
    case TakeBatch(c) => if s.batch.Some? { StepTakeBatch(s, c); } else { StepLeave(s, c); }
    case Wake(c) => StepWake(s, c);
  }

  lemma {:induction false} RunKeepsInv(s: State, acts: seq<Action>)
    requires Inv(s) && CanRun(s, acts)
    ensures Inv(Run(s, acts))
    decreases |acts|
  {
    if acts != [] {
      StepKeepsInv(s, acts[0]);
      RunKeepsInv(Next(s, acts[0]), acts[1..]);
    }
  }

  /** The invariant holds after any interleaving of any number of calls. */
  lemma {:induction false} Reachable(acts: seq<Action>)
    requires CanRun(INIT, acts)
    ensures Inv(Run(INIT, acts))
  {
    RunKeepsInv(INIT, acts);
  }
}
