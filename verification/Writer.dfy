/** The code of the group-commit leader, each lock section and write tied to a step of the system. */
module Writer {
  import opened Basics
  import opened GroupCommit

  lemma {:induction false} RunSnoc(s: State, acts: seq<Action>, a: Action)
    requires CanRun(s, acts) && Enabled(Run(s, acts), a)
    ensures CanRun(s, acts + [a]) && Run(s, acts + [a]) == Next(Run(s, acts), a)
    decreases |acts|
  {
    if acts == [] {
      assert CanRun(Next(s, a), []);
    } else {
      assert (acts + [a])[1..] == acts[1..] + [a];
      RunSnoc(Next(s, acts[0]), acts[1..], a);
    }
  }

  /** The connection, with the lock sections and the leader's loops as the source writes them.
      `log` is the run of the step system that led to the present state; the fields from
      `payloads` on are the rest of that state: the calls in flight and the history. */
  class TCPConnection {
    var writing: bool
    var batch: Option<BatchId>
    var batches: seq<Batch>
    var wire: seq<byte>
    var payloads: seq<seq<byte>>
    var pcs: seq<Pc>
    var arrivals: seq<CallId>
    var blocks: seq<Block>
    var places: seq<Place>
    ghost var log: seq<Action>

    function Abs(): State
      reads this
    {
      State(writing, batch, batches, payloads, pcs, wire, arrivals, blocks, places)
    }

    ghost predicate Valid()
      reads this
    {
      CanRun(INIT, log) && Abs() == Run(INIT, log) && Inv(Abs())
    }

    constructor ()
      ensures Valid() && Abs() == INIT
    {
      writing, batch, batches, wire := false, None, [], [];
      payloads, pcs, arrivals, blocks, places := [], [], [], [], [];
      log := [];
    }

    /** Moves the calls and the history along after the code has made step a from state s. */
    method Record(s: State, a: Action)
      requires CanRun(INIT, log) && s == Run(INIT, log) && Inv(s) && Enabled(s, a)
      requires var t := Next(s, a); writing == t.writing && batch == t.batch && batches == t.batches && wire == t.wire
      modifies this`payloads, this`pcs, this`arrivals, this`blocks, this`places, this`log
      ensures Valid() && Abs() == Next(s, a) && log == old(log) + [a]
    {
      StepKeepsInv(s, a);
      RunSnoc(INIT, log, a);
      var t := Next(s, a);
      payloads, pcs, arrivals, blocks, places := t.payloads, t.pcs, t.arrivals, t.blocks, t.places;
      log := log + [a];
    }

    /** The first lock section of WriteRaw: join the current batch, or become the leader. */
    method Enter(c: CallId, data: seq<byte>) returns (joined: Option<BatchId>)
      requires Valid() && Enabled(Abs(), Action.Enter(c)) && data == payloads[c]
      modifies this
      ensures Valid() && Abs() == Next(old(Abs()), Action.Enter(c)) && log == old(log) + [Action.Enter(c)]
      ensures joined == if old(writing) then batch else None
      ensures pcs[c] == if old(writing) then Waiting(joined.value) else Flushing(Own, data, 0)
    {
      var s := Abs();
      if writing {
        if batch.None? {
          batch, batches := Some(|batches|), batches + [Batch([], false, None, [], None)];
        }
        var b := batch.value;
        batches := batches[b := batches[b].(buf := batches[b].buf + data, members := batches[b].members + [c])];
        joined := batch;
      } else {
        writing := true;
        joined := None;
      }
      Record(s, Action.Enter(c));
    }

    /** One write on the socket: any prefix may get out, and no error means progress. */
    method SocketWrite(c: CallId, data: seq<byte>) returns (n: nat, err: Option<Error>)
      requires Valid() && c < |pcs| && pcs[c].Flushing?
      requires pcs[c].total < |pcs[c].data| && data == pcs[c].data[pcs[c].total..]
      modifies this
      ensures n <= |data| && Enabled(old(Abs()), Action.SocketWrite(c, n, err))
      ensures Valid() && Abs() == Next(old(Abs()), Action.SocketWrite(c, n, err))
      ensures log == old(log) + [Action.SocketWrite(c, n, err)]
    {
      var s := Abs();
      assert CallOk(s, c);
      var fails: bool := *;
      var e: Error := *;
      err := if fails then Some(e) else None;
      var k: int := *;
      n := if k < 0 || k > |data| || (k == 0 && !fails) then |data| else k;
      wire := wire + data[..n];
      Record(s, Action.SocketWrite(c, n, err));
    }

    /** Another call arrives and joins, while c leads. */
    method Join(c: CallId, payload: seq<byte>)
      requires Valid() && c < |pcs| && IsLeader(pcs[c]) && payload != []
      modifies this
      ensures Valid() && old(log) <= log && |old(pcs)| <= |pcs| && pcs[c] == old(pcs)[c]
    {
      var s, d := Abs(), |pcs|;
      Record(s, Invoke(payload));
      assert CallOk(Abs(), c) && CallOk(Abs(), d) && IsLeader(pcs[c]);
      var _ := Enter(d, payload);
    }

    /** Other calls, while c leads and holds no lock: up to `budget` of them arrive and join. */
    method Others(c: CallId, budget: nat) returns (left: nat)
      requires Valid() && c < |pcs| && IsLeader(pcs[c])
      modifies this
      ensures Valid() && old(log) <= log
      ensures |old(pcs)| <= |pcs| && pcs[c] == old(pcs)[c] && left <= budget
      ensures left == budget ==> batch == old(batch)
    {
      left := budget;
      while left > 0
        invariant Valid() && old(log) <= log
        invariant |old(pcs)| <= |pcs| && pcs[c] == old(pcs)[c] && left <= budget
        invariant left == budget ==> batch == old(batch)
      {
        var stop: bool := *;
        if stop { return; }
        var first: byte, more: seq<byte> := *, *;
        Join(c, [first] + more);
        left := left - 1;
      }
    }

    /** One round of the write loop: others join, then the socket takes what it will. */
    method WriteSome(c: CallId, data: seq<byte>, total: nat, budget: nat)
      returns (n: nat, err: Option<Error>, left: nat)
      requires Valid() && c < |pcs| && pcs[c].Flushing? && pcs[c].data == data && pcs[c].total == total < |data|
      modifies this
      ensures Valid() && old(log) <= log && |old(pcs)| <= |pcs| && left <= budget
      ensures left == budget ==> batch == old(batch)
      ensures total + n <= |data| && (err.None? ==> n > 0)
      ensures pcs[c]
        == if err.None? then Flushing(old(pcs)[c].work, data, total + n) else AfterFlush(old(pcs)[c].work, err)
    {
      left := Others(c, budget);
      n, err := SocketWrite(c, data[total..]);
    }

    /** The end of the write loop, when everything is out. */
    method EndFlush(c: CallId)
      requires Valid() && c < |pcs| && pcs[c].Flushing? && pcs[c].total >= |pcs[c].data|
      modifies this
      ensures Valid() && old(log) <= log && |pcs| == |old(pcs)| && batch == old(batch)
      ensures pcs[c] == AfterFlush(old(pcs)[c].work, None)
    {
      var s := Abs();
      assert CallOk(s, c);
      Record(s, FlushEnd(c));
    }

    /** flush: writes until everything is out or the socket reports an error. */
    method Flush(c: CallId, data: seq<byte>, budget: nat) returns (err: Option<Error>, left: nat)
      requires Valid() && c < |pcs| && pcs[c].Flushing? && pcs[c].data == data && pcs[c].total == 0
      modifies this
      ensures Valid() && old(log) <= log
      ensures |old(pcs)| <= |pcs| && pcs[c] == AfterFlush(old(pcs)[c].work, err) && left <= budget
      ensures left == budget ==> batch == old(batch)
    {
      var total := 0;
      left := budget;
      while total < |data|
        invariant Valid() && old(log) <= log
        invariant |old(pcs)| <= |pcs| && pcs[c] == Flushing(old(pcs)[c].work, data, total) && total <= |data|
        invariant left <= budget && (left == budget ==> batch == old(batch))
        decreases |data| - total
      {
        var n;
        n, err, left := WriteSome(c, data, total, left);
        if err.Some? { return; }
        total := total + n;
      }
      err := None;
      EndFlush(c);
    }

    /** The later lock sections of the leader: detach the current batch, or stop leading. */
    method TakeBatch(c: CallId) returns (cur: Option<BatchId>)
      requires Valid() && c < |pcs| && pcs[c].Relock?
      modifies this
      ensures Valid() && Abs() == Next(old(Abs()), Action.TakeBatch(c)) && log == old(log) + [Action.TakeBatch(c)]
      ensures cur == old(batch) && batch.None? && writing == cur.Some? && |pcs| == |old(pcs)|
      ensures cur.None? ==> pcs[c] == Returned(old(pcs)[c].own)
      ensures cur.Some? ==> cur.value < |batches|
      ensures cur.Some? ==> pcs[c] == Flushing(ForBatch(cur.value, old(pcs)[c].own), batches[cur.value].buf, 0)
    {
      var s := Abs();
      cur := batch;
      if batch.Some? {
        batch := None;
        batches := batches[cur.value := batches[cur.value].(block := Some(|blocks|))];
      } else {
        writing := false;
      }
      Record(s, Action.TakeBatch(c));
    }

    /** Hands the result of its flush to a detached batch and wakes its waiters. */
    method Publish(c: CallId, b: BatchId, err: Option<Error>)
      requires Valid() && Enabled(Abs(), Action.Publish(c)) && pcs[c].b == b && pcs[c].err == err
      modifies this
      ensures Valid() && Abs() == Next(old(Abs()), Action.Publish(c)) && log == old(log) + [Action.Publish(c)]
    {
      var s := Abs();
      assert CallOk(s, c);
      batches := batches[b := batches[b].(buf := [], err := err, closed := true)];
      Record(s, Action.Publish(c));
    }

    /** WriteRaw of a call that finds nobody writing: it flushes its own bytes, then drains.
        `budget` bounds the calls that arrive meanwhile. */
    method LeaderWrite(c: CallId, data: seq<byte>, budget: nat) returns (writeErr: Option<Error>)
      requires Valid() && Enabled(Abs(), Action.Enter(c)) && data == payloads[c] && !writing
      modifies this
      ensures Valid() && old(log) <= log
      ensures |old(pcs)| <= |pcs| && pcs[c] == Returned(writeErr)
      ensures !writing && batch.None?
    {
      var _ := Enter(c, data);
      var left;
      writeErr, left := Flush(c, data, budget);
      left := Others(c, left);
      Drain(c, writeErr, left);
    }

    /** The drain loop: it stops only when no batch is left, for nobody else wakes the waiters. */
    method Drain(c: CallId, own: Option<Error>, budget: nat)
      requires Valid() && c < |pcs| && pcs[c] == Relock(own)
      modifies this
      ensures Valid() && old(log) <= log
      ensures |old(pcs)| <= |pcs| && pcs[c] == Returned(own)
      ensures !writing && batch.None?
    {
      var left := budget;
      while batch.Some?
        invariant Valid() && old(log) <= log && |old(pcs)| <= |pcs| && pcs[c] == Relock(own)
        decreases left, if batch.Some? then 1 else 0
      {
        var cur: Option<BatchId> := TakeBatch(c);
        left := WriteBatch(c, cur.value, own, left);
      }
      var _ := TakeBatch(c);
    }

    /** One round of the drain loop: flush the detached batch and publish its result. */
    method WriteBatch(c: CallId, b: BatchId, own: Option<Error>, budget: nat) returns (left: nat)
      requires Valid() && c < |pcs| && b < |batches|
      requires pcs[c] == Flushing(ForBatch(b, own), batches[b].buf, 0)
      modifies this
      ensures Valid() && old(log) <= log
      ensures |old(pcs)| <= |pcs| && pcs[c] == Relock(own) && left <= budget
      ensures left == budget ==> batch == old(batch)
    {
      var curErr;
      curErr, left := Flush(c, batches[b].buf, budget);
      assert CallOk(Abs(), c);
      Publish(c, b, curErr);
      left := Others(c, left);
    }
  }
}
