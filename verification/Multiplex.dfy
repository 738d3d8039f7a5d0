/** The life cycle of a multiplexed client connection as a step system.

    Any number of SendAsync and SendAsyncBatch calls, the read loop and any number of Close
    calls race.  Each step is one atomic operation: a load, an increment or a compare-and-swap,
    one shard lock section, the last socket write of a request, closing the socket, or one
    Future.Done.  `issued` and `received` are history. */
module Multiplex {
  import opened Basics
  import opened Pending

  const SEQ_MOD: int := 0x1_0000_0000_0000_0000

  type FutureId = nat
  type SenderId = nat

  datatype Error = ConnClosed | Io(code: int) | BadRequest(code: int) | Remote(text: seq<byte>)

  datatype Result = Body(body: seq<byte>) | Failed(err: Error)

  /** A message off the wire: any id, any error text, any body. */
  datatype Response = Response(id: RequestId, error: seq<byte>, body: seq<byte>)

  /** `owner` and `pos` say which sender created the future, and as which of its requests. */
  datatype Future = Future(id: RequestId, owner: SenderId, pos: nat, result: Option<Result>)

  datatype SenderPc =
    | Begin                                        // before the closed check
    | Filling                                      // about to take the next request id
    | Numbered(id: RequestId)                      // id taken, future not yet stored
    | Encoding                                     // future stored, request not yet encoded
    | Ready                                        // every request stored and encoded
    | Written                                      // the last byte is on the socket
    | Undoing(k: nat, fatal: bool, err: Error)     // deleting its own entries, k done
    | Failing(err: Error)                          // before the compare-and-swap of fail
    | InFail(err: Error)                           // won it; fail is running
    | Returned(result: Option<Error>)              // None: the futures were handed out

  datatype Sender = Sender(batch: bool, n: nat, items: seq<FutureId>, pc: SenderPc)

  datatype ReaderPc =
    | Reading
    | Got(msg: Response)                           // before LoadAndDelete
    | Holding(f: FutureId, res: Result)            // before Done
    | ReadFailing(err: Error)
    | ReadInFail
    | Stopped

  datatype Failer =
    | Idle
    | Closing(err: Error)
    | Draining(err: Error, next: nat, drained: map<RequestId, FutureId>)
    | Completing(err: Error, rest: map<RequestId, FutureId>)
    | Finished(err: Error)

  datatype State = State(
    seqNo: int,
    closed: bool,
    connClosed: bool,
    table: Table<FutureId>,
    futures: seq<Future>,
    senders: seq<Sender>,
    reader: ReaderPc,
    failer: Failer,
    issued: nat,
    received: seq<Response>)

  datatype Action =
    | Start(batch: bool, n: nat)
    | Check(i: SenderId)
    | TakeSeq(i: SenderId)
    | StoreFuture(i: SenderId)
    | EncodeOk(i: SenderId)
    | EncodeErr(i: SenderId, code: int)
    | WriteOk(i: SenderId)
    | WriteErr(i: SenderId, code: int)
    | HandOut(i: SenderId)
    | Undo(i: SenderId)
    | SenderCas(i: SenderId)
    | SenderLeave(i: SenderId)
    | Receive(msg: Response)
    | Dispatch
    | Complete
    | ReadErr(code: int)
    | ReaderCas
    | ReaderLeave
    | Close
    | CloseConn
    | DrainShard
    | EndDrain
    | FailOne(q: RequestId)
    | EndFail

  const INIT := State(0, false, false, EmptyTable(), [], [], Reading, Idle, 0, [])

  // ---------------------------------------------------------------- the steps

  predicate Enabled(s: State, a: Action) {
    match a
    case Start(batch, n) => batch || n == 1
    case Check(i) => i < |s.senders| && s.senders[i].pc.Begin?
    case TakeSeq(i) => i < |s.senders| && s.senders[i].pc.Filling?
    case StoreFuture(i) => i < |s.senders| && s.senders[i].pc.Numbered?
    case EncodeOk(i) => i < |s.senders| && s.senders[i].pc.Encoding?
    case EncodeErr(i, _) => i < |s.senders| && s.senders[i].pc.Encoding?
    case WriteOk(i) => i < |s.senders| && s.senders[i].pc.Ready? && !s.connClosed
    case WriteErr(i, _) => i < |s.senders| && s.senders[i].pc.Ready?
    case HandOut(i) => i < |s.senders| && s.senders[i].pc.Written?
    case Undo(i) => i < |s.senders| && s.senders[i].pc.Undoing? && UndoKnown(s, i)
    case SenderCas(i) => i < |s.senders| && s.senders[i].pc.Failing?
    case SenderLeave(i) => i < |s.senders| && s.senders[i].pc.InFail? && s.failer.Finished?
    case Receive(_) => s.reader.Reading?
    case Dispatch => s.reader.Got?
    case Complete => s.reader.Holding? && s.reader.f < |s.futures|
    case ReadErr(_) => s.reader.Reading?
    case ReaderCas => s.reader.ReadFailing?
    case ReaderLeave => s.reader.ReadInFail? && s.failer.Finished?
    case Close => true
    case CloseConn => s.failer.Closing?
    case DrainShard => s.failer.Draining? && s.failer.next < SHARDS
    case EndDrain => s.failer.Draining? && s.failer.next >= SHARDS
    case FailOne(q) => s.failer.Completing? && q in s.failer.rest && s.failer.rest[q] < |s.futures|
    case EndFail => s.failer.Completing? && s.failer.rest == map[]
  }

  predicate UndoKnown(s: State, i: SenderId)
    requires i < |s.senders| && s.senders[i].pc.Undoing?
  {
    var x := s.senders[i];
    x.pc.k < |x.items| ==> x.items[x.pc.k] < |s.futures|
  }

  function Goto(s: State, i: SenderId, pc: SenderPc): State
    requires i < |s.senders|
  {
    s.(senders := s.senders[i := s.senders[i].(pc := pc)])
  }

  /** The compare-and-swap at the head of fail: the first one wins. */
  function Cas(s: State, err: Error): State {
    if s.closed then s else s.(closed := true, failer := Closing(err))
  }

  /** Done: the first result stays. */
  function Resolve(futures: seq<Future>, f: FutureId, r: Result): seq<Future>
    requires f < |futures|
  {
    if futures[f].result.Some? then futures else futures[f := futures[f].(result := Some(r))]
  }

  function ResultOf(m: Response): Result {
    if m.error != [] then Failed(Remote(m.error)) else Body(m.body)
  }

  function Next(s: State, a: Action): State
    requires Enabled(s, a)
  {
    match a
    case Start(batch, n) => s.(senders := s.senders + [Sender(batch, n, [], Begin)])
    case Check(i) =>
      Goto(s, i, if s.senders[i].batch && s.senders[i].n == 0 then Returned(None)
                 else if s.closed then Returned(Some(ConnClosed)) else Filling)
    case TakeSeq(i) =>
      var id := (s.seqNo + 1) % SEQ_MOD;
      Goto(s, i, Numbered(id)).(seqNo := id, issued := s.issued + 1)
    case StoreFuture(i) =>
      var x := s.senders[i];
      s.(table := Put(s.table, x.pc.id, |s.futures|),
         futures := s.futures + [Future(x.pc.id, i, |x.items|, None)],
         senders := s.senders[i := x.(items := x.items + [|s.futures|], pc := Encoding)])
    case EncodeOk(i) => Goto(s, i, if |s.senders[i].items| < s.senders[i].n then Filling else Ready)
    case EncodeErr(i, code) => Goto(s, i, Undoing(0, !s.senders[i].batch, BadRequest(code)))
    case WriteOk(i) => Goto(s, i, Written)
    case WriteErr(i, code) => Goto(s, i, Undoing(0, true, Io(code)))
    case HandOut(i) => Goto(s, i, Returned(None))
    case Undo(i) =>
      var x := s.senders[i];
      if x.pc.k < |x.items| then
        Goto(s, i, x.pc.(k := x.pc.k + 1)).(table := Remove(s.table, s.futures[x.items[x.pc.k]].id))
      else
        Goto(s, i, if x.pc.fatal then Failing(x.pc.err) else Returned(Some(x.pc.err)))
    case SenderCas(i) =>
      var err := s.senders[i].pc.err;
      Goto(Cas(s, err), i, if s.closed then Returned(Some(err)) else InFail(err))
    case SenderLeave(i) => Goto(s, i, Returned(Some(s.senders[i].pc.err)))
    case Receive(m) => s.(reader := Got(m), received := s.received + [m])
    case Dispatch =>
      var m := s.reader.msg;
      var found := Lookup(s.table, m.id);
      if found.None? then s.(reader := Reading)
      else s.(table := Remove(s.table, m.id), reader := Holding(found.value, ResultOf(m)))
    case Complete => s.(futures := Resolve(s.futures, s.reader.f, s.reader.res), reader := Reading)
    case ReadErr(code) => s.(reader := ReadFailing(Io(code)))
    case ReaderCas => Cas(s, s.reader.err).(reader := if s.closed then Stopped else ReadInFail)
    case ReaderLeave => s.(reader := Stopped)
    case Close => Cas(s, ConnClosed)
    case CloseConn => s.(connClosed := true, failer := Draining(s.failer.err, 0, map[]))
    case DrainShard =>
      var j := s.failer.next;
      s.(table := s.table[j := map[]],
         failer := Draining(s.failer.err, j + 1, s.failer.drained + s.table[j]))
    case EndDrain => s.(failer := Completing(s.failer.err, s.failer.drained))
    case FailOne(q) =>
      s.(futures := Resolve(s.futures, s.failer.rest[q], Failed(s.failer.err)),
         failer := Completing(s.failer.err, s.failer.rest - {q}))
    case EndFail => s.(failer := Finished(s.failer.err))
  }

  predicate CanRun(s: State, acts: seq<Action>)
    decreases |acts|
  {
    acts == [] || (Enabled(s, acts[0]) && CanRun(Next(s, acts[0]), acts[1..]))
  }

  function Run(s: State, acts: seq<Action>): State
    requires CanRun(s, acts)
    decreases |acts|
  {
    if acts == [] then s else Run(Next(s, acts[0]), acts[1..])
  }

  // ---------------------------------------------------------------- where a future is

  predicate InTable(s: State, f: FutureId)
    requires f < |s.futures|
  {
    Lookup(s.table, s.futures[f].id) == Some(f)
  }

  predicate WithReader(s: State, f: FutureId) { s.reader.Holding? && s.reader.f == f }

  /** What the failer has drained and not yet completed. */
  function FailerHas(s: State): map<RequestId, FutureId> {
    if s.failer.Draining? then s.failer.drained else if s.failer.Completing? then s.failer.rest else map[]
  }

  predicate WithFailer(s: State, f: FutureId)
    requires f < |s.futures|
  {
    var q := s.futures[f].id;
    q in FailerHas(s) && FailerHas(s)[q] == f
  }

  predicate Completed(s: State, f: FutureId)
    requires f < |s.futures|
  {
    s.futures[f].result.Some?
  }

  function B(b: bool): nat { if b then 1 else 0 }

  /** In how many of the four places the future is. */
  function Places(s: State, f: FutureId): nat
    requires f < |s.futures|
  {
    B(InTable(s, f)) + B(WithReader(s, f)) + B(WithFailer(s, f)) + B(Completed(s, f))
  }

  /** The sender may still hand its futures out, or has. */
  predicate Building(pc: SenderPc) { pc.Filling? || pc.Numbered? || pc.Encoding? || pc.Ready? }

  predicate Sent(pc: SenderPc) { pc.Written? || pc == Returned(None) }

  /** The failer has been through shard j. */
  predicate Passed(s: State, j: nat) {
    (s.failer.Draining? && j < s.failer.next) || s.failer.Completing? || s.failer.Finished?
  }

  /** The message that answers request id with result r has been received. */
  ghost predicate Answered(s: State, id: RequestId, r: Result) {
    exists k :: 0 <= k < |s.received| && s.received[k].id == id && ResultOf(s.received[k]) == r
  }

  // ---------------------------------------------------------------- the invariant

  ghost predicate EntriesOk(futures: seq<Future>, m: map<RequestId, FutureId>) {
    forall q :: q in m ==> m[q] < |futures| && futures[m[q]].id == q
  }

  ghost predicate TableOk(s: State) {
    && Placed(s.table)
    && forall j :: 0 <= j < SHARDS ==> EntriesOk(s.futures, s.table[j])
  }

  /** Sender i has taken request id q and not yet stored its future. */
  predicate Takes(s: State, i: SenderId, q: RequestId) {
    i < |s.senders| && s.senders[i].pc == Numbered(q)
  }

  ghost predicate IdsOk(s: State) {
    && s.seqNo == s.issued
    && (forall f, g :: 0 <= f < |s.futures| && 0 <= g < |s.futures| && s.futures[f].id == s.futures[g].id ==> f == g)
    && (forall i: SenderId, j: SenderId, q: RequestId :: Takes(s, i, q) && Takes(s, j, q) ==> i == j)
    && (forall i: SenderId, f :: 0 <= f < |s.futures| ==> !Takes(s, i, s.futures[f].id))
  }

  ghost predicate SenderOk(s: State, i: SenderId)
    requires i < |s.senders|
  {
    var x := s.senders[i];
    && (forall k :: 0 <= k < |x.items| ==>
          x.items[k] < |s.futures| && s.futures[x.items[k]].owner == i && s.futures[x.items[k]].pos == k)
    && (x.pc.Numbered? ==> x.pc.id <= s.issued)
    && (x.pc.InFail? ==> !s.failer.Idle?)
    && (x.pc.Begin? ==> x.items == [])
    && (Sent(x.pc) || x.pc.Ready? ==> |x.items| >= x.n)
  }

  ghost predicate FutureOk(s: State, f: FutureId)
    requires f < |s.futures|
  {
    var x := s.futures[f];
    && x.id <= s.issued
    && x.owner < |s.senders| && x.pos < |s.senders[x.owner].items| && s.senders[x.owner].items[x.pos] == f
    && var pc := s.senders[x.owner].pc;
    && !pc.Begin?
    && Places(s, f) <= 1
    && (Building(pc) || Sent(pc) ==> Places(s, f) == 1)
    && (InTable(s, f) ==> Building(pc) || Sent(pc) || (pc.Undoing? && x.pos >= pc.k))
    && (InTable(s, f) && Passed(s, ShardOf(x.id)) ==> !Sent(pc))
    && (x.result.Some? ==>
          Answered(s, x.id, x.result.value) || (!s.failer.Idle? && x.result.value == Failed(s.failer.err)))
  }

  ghost predicate LoopsOk(s: State) {
    && (s.closed <==> !s.failer.Idle?)
    && (s.connClosed <==> s.failer.Draining? || s.failer.Completing? || s.failer.Finished?)
    && (s.reader.ReadInFail? ==> s.closed)
    && (s.reader.Stopped? ==> s.closed)
    && (s.reader.Got? ==> exists k :: 0 <= k < |s.received| && s.received[k] == s.reader.msg)
    && (s.reader.Holding? ==> s.reader.f < |s.futures| && Answered(s, s.futures[s.reader.f].id, s.reader.res))
    && EntriesOk(s.futures, FailerHas(s))
  }

  ghost predicate Core(s: State) {
    && TableOk(s) && IdsOk(s) && LoopsOk(s)
    && (forall i :: 0 <= i < |s.senders| ==> SenderOk(s, i))
    && (forall f :: 0 <= f < |s.futures| ==> FutureOk(s, f))
  }

  /** Request ids repeat only after 2^64 requests. */
  predicate NoWrap(s: State) { s.issued < SEQ_MOD }

  ghost predicate Inv(s: State) { NoWrap(s) ==> Core(s) }

  // ---------------------------------------------------------------- every step keeps it

  lemma {:induction false} StepStart(s: State, batch: bool, n: nat)
    requires Core(s)
    ensures Core(s.(senders := s.senders + [Sender(batch, n, [], Begin)]))
  {
    var t := s.(senders := s.senders + [Sender(batch, n, [], Begin)]);
    forall i | 0 <= i < |t.senders| ensures SenderOk(t, i) {
      if i < |s.senders| { assert SenderOk(s, i); }
    }
    forall f | 0 <= f < |t.futures| ensures FutureOk(t, f) { assert FutureOk(s, f); }
    forall i: SenderId, q | Takes(t, i, q) ensures Takes(s, i, q) {}
  }

  /** A step that moves one sender and touches nothing else. */
  lemma {:induction false} MoveSender(s: State, i: SenderId, pc: SenderPc)
    requires Core(s) && i < |s.senders| && !pc.Numbered? && !pc.Begin?
    requires var old_ := s.senders[i].pc;
      && (Building(pc) || Sent(pc) ==> Building(old_) || Sent(old_) || s.senders[i].items == [])
      && (pc.Undoing? ==> Building(old_) && pc.k == 0)
      && (Sent(pc) ==> Sent(old_) || s.senders[i].items == [] || !s.connClosed)
      && (Sent(pc) || pc.Ready? ==> |s.senders[i].items| >= s.senders[i].n)
      && (pc.InFail? ==> !s.failer.Idle?)
    requires Building(pc) || Sent(pc) || pc.Undoing? ||
      forall f :: 0 <= f < |s.futures| && s.futures[f].owner == i ==> !InTable(s, f)
    ensures Core(Goto(s, i, pc))
  {
    var t := Goto(s, i, pc);
    forall k | 0 <= k < |t.senders| ensures SenderOk(t, k) { assert SenderOk(s, k); }
    forall f | 0 <= f < |t.futures| ensures FutureOk(t, f) {
      assert FutureOk(s, f) && SenderOk(s, s.futures[f].owner);
      assert Places(t, f) == Places(s, f) && InTable(t, f) == InTable(s, f);
    }
    forall k: SenderId, q | Takes(t, k, q) ensures Takes(s, k, q) {}
  }

  lemma {:induction false} StepTakeSeq(s: State, i: SenderId)
    requires Core(s) && Enabled(s, TakeSeq(i)) && NoWrap(Next(s, TakeSeq(i)))
    ensures Core(Next(s, TakeSeq(i)))
  {
    var t := Next(s, TakeSeq(i));
    assert t.seqNo == t.issued == s.issued + 1;
    forall k | 0 <= k < |t.senders| ensures SenderOk(t, k) { assert SenderOk(s, k); }
    forall f | 0 <= f < |t.futures| ensures FutureOk(t, f) {
      assert FutureOk(s, f);
      assert Places(t, f) == Places(s, f) && InTable(t, f) == InTable(s, f);
    }
    forall k: SenderId, q | Takes(t, k, q) && k != i ensures Takes(s, k, q) && q <= s.issued { assert SenderOk(s, k); }
    forall k: SenderId, f | 0 <= f < |t.futures| ensures !Takes(t, k, t.futures[f].id) {
      assert FutureOk(s, f) && !Takes(s, k, s.futures[f].id);
    }
  }

  lemma {:induction false} StepStore(s: State, i: SenderId)
    requires Core(s) && Enabled(s, StoreFuture(i))
    ensures Core(Next(s, StoreFuture(i)))
  {
    var t := Next(s, StoreFuture(i));
    var id := s.senders[i].pc.id;
    assert Takes(s, i, id) && SenderOk(s, i);
    forall j | 0 <= j < SHARDS ensures EntriesOk(t.futures, t.table[j]) { assert EntriesOk(s.futures, s.table[j]); }
    assert EntriesOk(t.futures, FailerHas(t)) by { assert EntriesOk(s.futures, FailerHas(s)); }
    assert EntriesOk(s.futures, s.table[ShardOf(id)]);
    assert id !in s.table[ShardOf(id)];
    forall k | 0 <= k < |t.senders| ensures SenderOk(t, k) { assert SenderOk(s, k); }
    forall f | 0 <= f < |t.futures| ensures FutureOk(t, f) {
      if f < |s.futures| {
        StoreKeepsFuture(s, i, f);
      } else {
        assert InTable(t, f) && !WithReader(t, f) && !WithFailer(t, f) && !Completed(t, f);
        if Passed(t, ShardOf(id)) { assert !Sent(t.senders[i].pc); }
      }
    }
    forall k: SenderId, q | Takes(t, k, q) ensures Takes(s, k, q) && k != i {}
  }

  lemma {:induction false} StoreKeepsFuture(s: State, i: SenderId, f: FutureId)
    requires Core(s) && Enabled(s, StoreFuture(i)) && f < |s.futures|
    ensures FutureOk(Next(s, StoreFuture(i)), f)
  {
    var t := Next(s, StoreFuture(i));
    assert FutureOk(s, f) && Takes(s, i, s.senders[i].pc.id) && !Takes(s, i, s.futures[f].id);
    assert Places(t, f) == Places(s, f) && InTable(t, f) == InTable(s, f);
  }

  lemma {:induction false} StepUndo(s: State, i: SenderId)
    requires Core(s) && Enabled(s, Undo(i)) && s.senders[i].pc.k < |s.senders[i].items|
    ensures Core(Next(s, Undo(i)))
  {
    var g := s.senders[i].items[s.senders[i].pc.k];
    assert SenderOk(s, i);
    DropEntry(s, i, g);
    AdvanceUndo(s.(table := Remove(s.table, s.futures[g].id)), i);
  }

  lemma {:induction false} AdvanceUndo(s: State, i: SenderId)
    requires Core(s) && i < |s.senders| && s.senders[i].pc.Undoing? && s.senders[i].pc.k < |s.senders[i].items|
    requires var g := s.senders[i].items[s.senders[i].pc.k]; g < |s.futures| && !InTable(s, g)
    ensures Core(Goto(s, i, s.senders[i].pc.(k := s.senders[i].pc.k + 1)))
  {
    var t := Goto(s, i, s.senders[i].pc.(k := s.senders[i].pc.k + 1));
    forall k | 0 <= k < |t.senders| ensures SenderOk(t, k) { assert SenderOk(s, k); }
    forall f | 0 <= f < |t.futures| ensures FutureOk(t, f) {
      assert FutureOk(s, f) && SenderOk(s, s.futures[f].owner);
      assert Places(t, f) == Places(s, f) && InTable(t, f) == InTable(s, f);
    }
    forall k: SenderId, q | Takes(t, k, q) ensures Takes(s, k, q) {}
  }

  /** A sender that is undoing deletes the entry of one of its futures. */
  lemma {:induction false} DropEntry(s: State, i: SenderId, g: FutureId)
    requires Core(s) && i < |s.senders| && s.senders[i].pc.Undoing? && g < |s.futures| && s.futures[g].owner == i
    ensures Core(s.(table := Remove(s.table, s.futures[g].id)))
    ensures !InTable(s.(table := Remove(s.table, s.futures[g].id)), g)
  {
    var id := s.futures[g].id;
    var t := s.(table := Remove(s.table, id));
    RemoveKeepsTable(s, t, id);
    forall k | 0 <= k < |t.senders| ensures SenderOk(t, k) { assert SenderOk(s, k); }
    forall f | 0 <= f < |t.futures| ensures FutureOk(t, f) {
      assert FutureOk(s, f);
      if f != g {
        assert s.futures[f].id != id;
        assert Places(t, f) == Places(s, f) && InTable(t, f) == InTable(s, f);
      }
    }
    forall k: SenderId, q | Takes(t, k, q) ensures Takes(s, k, q) {}
  }

  lemma {:induction false} RemoveKeepsTable(s: State, t: State, id: RequestId)
    requires TableOk(s) && t.table == Remove(s.table, id) && t.futures == s.futures
    ensures TableOk(t)
  {
    forall j | 0 <= j < SHARDS ensures EntriesOk(t.futures, t.table[j]) { assert EntriesOk(s.futures, s.table[j]); }
  }

  lemma {:induction false} UndoneNotInTable(s: State, i: SenderId)
    requires Core(s) && i < |s.senders|
    requires var x := s.senders[i];
      !(Building(x.pc) || Sent(x.pc)) && (x.pc.Undoing? ==> x.pc.k >= |x.items|)
    ensures forall f :: 0 <= f < |s.futures| && s.futures[f].owner == i ==> !InTable(s, f)
  {
    forall f | 0 <= f < |s.futures| && s.futures[f].owner == i ensures !InTable(s, f) { assert FutureOk(s, f); }
  }

  /** A step of the loops that leaves every future where it was. */
  lemma {:induction false} MoveLoops(s: State, t: State)
    requires Core(s) && LoopsOk(t)
    requires t == s.(reader := t.reader, failer := t.failer, closed := t.closed, connClosed := t.connClosed,
                     received := t.received)
    requires forall f :: 0 <= f < |s.futures| ==>
      WithReader(s, f) == WithReader(t, f) && WithFailer(s, f) == WithFailer(t, f)
    requires forall j: nat :: j < SHARDS && Passed(t, j) ==> Passed(s, j)
    requires !s.failer.Idle? ==> !t.failer.Idle? && t.failer.err == s.failer.err
    requires s.received <= t.received
    ensures Core(t)
  {
    forall i | 0 <= i < |t.senders| ensures SenderOk(t, i) { assert SenderOk(s, i); }
    forall f | 0 <= f < |t.futures| ensures FutureOk(t, f) {
      assert FutureOk(s, f);
      assert Places(t, f) == Places(s, f) && InTable(t, f) == InTable(s, f);
      var x := s.futures[f];
      if x.result.Some? && Answered(s, x.id, x.result.value) { StillAnswered(s, t, x.id, x.result.value); }
    }
    forall i: SenderId, q | Takes(t, i, q) ensures Takes(s, i, q) {}
  }

  lemma {:induction false} StillAnswered(s: State, t: State, id: RequestId, r: Result)
    requires Answered(s, id, r) && s.received <= t.received
    ensures Answered(t, id, r)
  {
    var k :| 0 <= k < |s.received| && s.received[k].id == id && ResultOf(s.received[k]) == r;
    assert t.received[k] == s.received[k];
  }

  lemma {:induction false} StepCas(s: State, err: Error)
    requires Core(s)
    ensures Core(Cas(s, err))
  {
    if !s.closed { MoveLoops(s, Cas(s, err)); }
  }

  lemma {:induction false} StepReceive(s: State, m: Response)
    requires Core(s) && s.reader.Reading?
    ensures Core(s.(reader := Got(m), received := s.received + [m]))
  {
    var t := s.(reader := Got(m), received := s.received + [m]);
    assert t.received[|s.received|] == m;
    MoveLoops(s, t);
  }

  lemma {:induction false} StepDispatch(s: State)
    requires Core(s) && s.reader.Got?
    ensures Core(Next(s, Dispatch))
  {
    var t := Next(s, Dispatch);
    var m := s.reader.msg;
    var found := Lookup(s.table, m.id);
    if found.None? {
      MoveLoops(s, t);
    } else {
      var g := found.value;
      assert Answered(t, m.id, ResultOf(m));
      RemoveKeepsTable(s, t, m.id);
      assert FutureOk(s, g) && InTable(s, g);
      forall i | 0 <= i < |t.senders| ensures SenderOk(t, i) { assert SenderOk(s, i); }
      forall f | 0 <= f < |t.futures| ensures FutureOk(t, f) { DispatchKeepsFuture(s, f); }
      forall i: SenderId, q | Takes(t, i, q) ensures Takes(s, i, q) {}
    }
  }

  lemma {:induction false} DispatchKeepsFuture(s: State, f: FutureId)
    requires Core(s) && s.reader.Got? && f < |s.futures| && Lookup(s.table, s.reader.msg.id).Some?
    ensures FutureOk(Next(s, Dispatch), f)
  {
    var t := Next(s, Dispatch);
    var id := s.reader.msg.id;
    EntryInTable(s, id);
    OwnId(s, id);
    assert FutureOk(s, f);
    if f != Lookup(s.table, id).value {
      assert s.futures[f].id != id;
      assert Places(t, f) == Places(s, f) && InTable(t, f) == InTable(s, f);
    } else {
      assert !InTable(t, f) && WithReader(t, f);
    }
  }

  lemma {:induction false} StepComplete(s: State)
    requires Core(s) && Enabled(s, Complete)
    ensures Core(Next(s, Complete)) && s.futures[s.reader.f].result.None?
  {
    var t := Next(s, Complete);
    var g := s.reader.f;
    assert FutureOk(s, g) && WithReader(s, g);
    assert Answered(t, s.futures[g].id, s.reader.res);
    forall i | 0 <= i < |t.senders| ensures SenderOk(t, i) { assert SenderOk(s, i); }
    forall f | 0 <= f < |t.futures| ensures FutureOk(t, f) { CompleteKeepsFuture(s, f); }
    forall i: SenderId, q | Takes(t, i, q) ensures Takes(s, i, q) {}
  }

  lemma {:induction false} CompleteKeepsFuture(s: State, f: FutureId)
    requires Core(s) && Enabled(s, Complete) && f < |s.futures|
    ensures FutureOk(Next(s, Complete), f)
  {
    var t := Next(s, Complete);
    assert FutureOk(s, f) && FutureOk(s, s.reader.f) && WithReader(s, s.reader.f);
    assert Answered(t, s.futures[s.reader.f].id, s.reader.res);
    assert Places(t, f) == Places(s, f) && InTable(t, f) == InTable(s, f);
  }

  lemma {:induction false} StepCloseConn(s: State)
    requires Core(s) && s.failer.Closing?
    ensures Core(Next(s, CloseConn))
  {
    MoveLoops(s, Next(s, CloseConn));
  }

  lemma {:induction false} StepDrainShard(s: State)
    requires Core(s) && Enabled(s, DrainShard)
    ensures Core(Next(s, DrainShard))
  {
    var t := Next(s, DrainShard);
    var j0 := s.failer.next;
    forall j | 0 <= j < SHARDS ensures EntriesOk(t.futures, t.table[j]) { assert EntriesOk(s.futures, s.table[j]); }
    assert EntriesOk(s.futures, s.table[j0]) && EntriesOk(s.futures, FailerHas(s));
    forall i | 0 <= i < |t.senders| ensures SenderOk(t, i) { assert SenderOk(s, i); }
    forall f | 0 <= f < |t.futures| ensures FutureOk(t, f) {
      assert FutureOk(s, f);
      var id := s.futures[f].id;
      if InTable(s, f) && ShardOf(id) == j0 {
        assert !InTable(t, f) && WithFailer(t, f) && !WithFailer(s, f);
      } else {
        assert InTable(t, f) == InTable(s, f);
        assert id !in s.table[j0];
        assert WithFailer(t, f) == WithFailer(s, f);
        assert Places(t, f) == Places(s, f);
      }
    }
    forall i: SenderId, q | Takes(t, i, q) ensures Takes(s, i, q) {}
  }

  lemma {:induction false} StepEndDrain(s: State)
    requires Core(s) && Enabled(s, EndDrain)
    ensures Core(Next(s, EndDrain))
  {
    MoveLoops(s, Next(s, EndDrain));
  }

  lemma {:induction false} StepFailOne(s: State, q: RequestId)
    requires Core(s) && Enabled(s, FailOne(q))
    ensures Core(Next(s, FailOne(q))) && s.futures[s.failer.rest[q]].result.None?
  {
    var t := Next(s, FailOne(q));
    var g := s.failer.rest[q];
    assert EntriesOk(s.futures, FailerHas(s));
    assert FutureOk(s, g) && WithFailer(s, g);
    forall i | 0 <= i < |t.senders| ensures SenderOk(t, i) { assert SenderOk(s, i); }
    forall f | 0 <= f < |t.futures| ensures FutureOk(t, f) {
      assert FutureOk(s, f);
      assert Places(t, f) == Places(s, f) && InTable(t, f) == InTable(s, f);
    }
    forall i: SenderId, q | Takes(t, i, q) ensures Takes(s, i, q) {}
  }

  lemma {:induction false} StepEndFail(s: State)
    requires Core(s) && Enabled(s, EndFail)
    ensures Core(Next(s, EndFail))
  {
    MoveLoops(s, Next(s, EndFail));
  }

  predicate OfReader(a: Action) {
    a.Receive? || a.Dispatch? || a.Complete? || a.ReadErr? || a.ReaderCas? || a.ReaderLeave?
  }

  predicate OfFailer(a: Action) {
    a.Close? || a.CloseConn? || a.DrainShard? || a.EndDrain? || a.FailOne? || a.EndFail?
  }

  lemma {:induction false} StepReader(s: State, a: Action)
    requires Core(s) && Enabled(s, a) && OfReader(a)
    ensures Core(Next(s, a))
  {
    if a.Receive? {
      StepReceive(s, a.msg);
    } else if a.Dispatch? {
      StepDispatch(s);
    } else if a.Complete? {
      StepComplete(s);
    } else if a.ReaderCas? {
      StepCas(s, s.reader.err);
      MoveLoops(Cas(s, s.reader.err), Next(s, a));
    } else {
      MoveLoops(s, Next(s, a));
    }
  }

  lemma {:induction false} StepFailer(s: State, a: Action)
    requires Core(s) && Enabled(s, a) && OfFailer(a)
    ensures Core(Next(s, a))
  {
    if a.Close? {
      StepCas(s, ConnClosed);
    } else if a.CloseConn? {
      StepCloseConn(s);
    } else if a.DrainShard? {
      StepDrainShard(s);
    } else if a.EndDrain? {
      StepEndDrain(s);
    } else if a.FailOne? {
      StepFailOne(s, a.q);
    } else {
      StepEndFail(s);
    }
  }

  /** The steps that leave a sender with its entries in the table. */
  lemma {:induction false} StepSenderKeeps(s: State, a: Action)
    requires Core(s) && Enabled(s, a)
    requires a.Check? || a.EncodeOk? || a.EncodeErr? || a.WriteOk? || a.WriteErr? || a.HandOut?
    ensures Core(Next(s, a))
  {
    assert SenderOk(s, a.i);
    if a.Check? { NoItems(s, a.i); }
    MoveSender(s, a.i, Next(s, a).senders[a.i].pc);
  }

  lemma {:induction false} StepSenderCas(s: State, i: SenderId)
    requires Core(s) && Enabled(s, SenderCas(i))
    ensures Core(Next(s, SenderCas(i)))
  {
    var err := s.senders[i].pc.err;
    StepCas(s, err);
    UndoneNotInTable(Cas(s, err), i);
    MoveSender(Cas(s, err), i, Next(s, SenderCas(i)).senders[i].pc);
  }

  lemma {:induction false} StepSenderDone(s: State, a: Action)
    requires Core(s) && Enabled(s, a) && (a.Undo? || a.SenderLeave?)
    ensures Core(Next(s, a))
  {
    if a.Undo? && s.senders[a.i].pc.k < |s.senders[a.i].items| {
      StepUndo(s, a.i);
    } else {
      UndoneNotInTable(s, a.i);
      MoveSender(s, a.i, Next(s, a).senders[a.i].pc);
    }
  }

  lemma {:induction false} StepCore(s: State, a: Action)
    requires Core(s) && Enabled(s, a) && NoWrap(Next(s, a))
    ensures Core(Next(s, a))
  {
    if OfReader(a) {
      StepReader(s, a);
    } else if OfFailer(a) {
      StepFailer(s, a);
    } else if a.Start? {
      StepStart(s, a.batch, a.n);
    } else if a.TakeSeq? {
      StepTakeSeq(s, a.i);
    } else if a.StoreFuture? {
      StepStore(s, a.i);
    } else if a.SenderCas? {
      StepSenderCas(s, a.i);
    } else if a.Undo? || a.SenderLeave? {
      StepSenderDone(s, a);
    } else {
      StepSenderKeeps(s, a);
    }
  }

  lemma {:induction false} NoItems(s: State, i: SenderId)
    requires Core(s) && i < |s.senders| && s.senders[i].pc.Begin?
    ensures s.senders[i].items == [] && forall f :: 0 <= f < |s.futures| ==> s.futures[f].owner != i
  {
    assert SenderOk(s, i);
    forall f | 0 <= f < |s.futures| ensures s.futures[f].owner != i { assert FutureOk(s, f); }
  }

  lemma {:induction false} StepKeepsInv(s: State, a: Action)
    requires Inv(s) && Enabled(s, a)
    ensures Inv(Next(s, a)) && s.issued <= Next(s, a).issued
  {
    if NoWrap(Next(s, a)) { StepCore(s, a); }
  }

  lemma {:induction false} RunKeepsInv(s: State, acts: seq<Action>)
    requires Inv(s) && CanRun(s, acts)
    ensures Inv(Run(s, acts)) && s.issued <= Run(s, acts).issued
    decreases |acts|
  {
    if acts != [] {
      StepKeepsInv(s, acts[0]);
      RunKeepsInv(Next(s, acts[0]), acts[1..]);
    }
  }

  lemma {:induction false} Reachable(acts: seq<Action>)
    requires CanRun(INIT, acts)
    ensures Inv(Run(INIT, acts))
  {
    RunKeepsInv(INIT, acts);
  }

  // ---------------------------------------------------------------- no lost future

  /** Every future that was, or still may be, handed to a caller is in exactly one place:
      pending under its own id, held by the read loop, in the failer's list, or completed. */
  lemma {:induction false} ExactlyOnePlace(acts: seq<Action>, f: FutureId)
    requires CanRun(INIT, acts) && NoWrap(Run(INIT, acts)) && f < |Run(INIT, acts).futures|
    ensures var s := Run(INIT, acts); var x := s.futures[f];
      && x.owner < |s.senders| && x.pos < |s.senders[x.owner].items| && s.senders[x.owner].items[x.pos] == f
      && Places(s, f) <= 1
      && (Building(s.senders[x.owner].pc) || Sent(s.senders[x.owner].pc) ==> Places(s, f) == 1)
  {
    Reachable(acts);
    assert FutureOk(Run(INIT, acts), f);
  }

  lemma {:induction false} EntryInTable(s: State, q: RequestId)
    requires Core(s) && Lookup(s.table, q).Some?
    ensures Lookup(s.table, q).value < |s.futures| && InTable(s, Lookup(s.table, q).value)
  {
    assert EntriesOk(s.futures, s.table[ShardOf(q)]);
  }

  /** A call that returned an error has left none of its futures in the table. */
  lemma {:induction false} AllOrNothing(acts: seq<Action>, f: FutureId)
    requires CanRun(INIT, acts) && NoWrap(Run(INIT, acts)) && f < |Run(INIT, acts).futures|
    requires var s := Run(INIT, acts);
      && s.futures[f].owner < |s.senders|
      && s.senders[s.futures[f].owner].pc.Returned? && s.senders[s.futures[f].owner].pc.result.Some?
    ensures forall q: RequestId :: Lookup(Run(INIT, acts).table, q) != Some(f)
  {
    var s := Run(INIT, acts);
    Reachable(acts);
    assert FutureOk(s, f);
    forall q: RequestId | Lookup(s.table, q) == Some(f) ensures false { EntryInTable(s, q); OwnId(s, q); }
  }

  lemma {:induction false} OwnId(s: State, q: RequestId)
    requires Core(s) && Lookup(s.table, q).Some?
    ensures Lookup(s.table, q).value < |s.futures| && s.futures[Lookup(s.table, q).value].id == q
  {
    assert EntriesOk(s.futures, s.table[ShardOf(q)]);
  }

  /** The call that created the future has returned it to its caller. */
  predicate HandedOut(s: State, f: FutureId)
    requires f < |s.futures|
  {
    s.futures[f].owner < |s.senders| && s.senders[s.futures[f].owner].pc == Returned(None)
  }

  predicate Quiescent(s: State) {
    s.failer.Finished? && s.reader.Stopped? && forall i :: 0 <= i < |s.senders| ==> s.senders[i].pc.Returned?
  }

  /** Once failure processing, the read loop and all senders are through, every future a caller
      holds is completed and the table is empty. */
  lemma {:induction false} NoLostFuture(acts: seq<Action>)
    requires CanRun(INIT, acts) && NoWrap(Run(INIT, acts)) && Quiescent(Run(INIT, acts))
    ensures var s := Run(INIT, acts);
      && View(s.table) == map[]
      && forall f :: 0 <= f < |s.futures| && HandedOut(s, f) ==> s.futures[f].result.Some?
  {
    var s := Run(INIT, acts);
    Reachable(acts);
    forall f | 0 <= f < |s.futures| ensures !InTable(s, f) { assert FutureOk(s, f); }
    forall q: RequestId | Lookup(s.table, q).Some? ensures false { EntryInTable(s, q); }
    SameView(s.table, map[]);
    forall f | 0 <= f < |s.futures| && HandedOut(s, f) ensures s.futures[f].result.Some? {
      assert FutureOk(s, f);
    }
  }

  // ---------------------------------------------------------------- multiplexing

  /** Request ids of live futures are distinct until the counter wraps. */
  lemma {:induction false} DistinctIds(acts: seq<Action>, f: FutureId, g: FutureId)
    requires CanRun(INIT, acts) && NoWrap(Run(INIT, acts))
    requires f < |Run(INIT, acts).futures| && g < |Run(INIT, acts).futures| && f != g
    ensures Run(INIT, acts).futures[f].id != Run(INIT, acts).futures[g].id
  {
    Reachable(acts);
  }

  /** The message carries the result: its error if it has one, and otherwise its body. */
  predicate Carries(m: Response, r: Result) {
    if m.error == [] then r == Body(m.body) else r == Failed(Remote(m.error))
  }

  /** A result is carried by a received message with the future's own request id, or is the error
      that killed the connection; so a future all of whose messages have errors has no body. */
  lemma {:induction false} OwnAnswer(acts: seq<Action>, f: FutureId)
    requires CanRun(INIT, acts) && NoWrap(Run(INIT, acts))
    requires f < |Run(INIT, acts).futures| && Run(INIT, acts).futures[f].result.Some?
    ensures var s := Run(INIT, acts); var x := s.futures[f];
      || (exists k :: 0 <= k < |s.received| && s.received[k].id == x.id && Carries(s.received[k], x.result.value))
      || (s.closed && !s.failer.Idle? && x.result.value == Failed(s.failer.err) && Killed(acts, s.failer.err))
    ensures var s := Run(INIT, acts); var x := s.futures[f];
      (forall k :: 0 <= k < |s.received| && s.received[k].id == x.id ==> s.received[k].error != []) ==>
        x.result.value.Failed?
  {
    var s := Run(INIT, acts);
    Reachable(acts);
    Reasons(acts);
    assert FutureOk(s, f);
    if Answered(s, s.futures[f].id, s.futures[f].result.value) {
      var k :| 0 <= k < |s.received| && s.received[k].id == s.futures[f].id
               && ResultOf(s.received[k]) == s.futures[f].result.value;
      assert Carries(s.received[k], s.futures[f].result.value);
    }
  }

  /** A message with the id of a pending future completes that future with what it carries, and
      takes it out of the table; one with another id changes nothing. */
  lemma {:induction false} AnswerArrives(acts: seq<Action>, m: Response)
    requires CanRun(INIT, acts) && NoWrap(Run(INIT, acts)) && Run(INIT, acts).reader == Got(m)
    ensures var s := Run(INIT, acts); var t := Next(s, Dispatch);
      match Lookup(s.table, m.id)
      case None => t == s.(reader := Reading)
      case Some(f) =>
        && f < |s.futures| && s.futures[f].id == m.id && Lookup(t.table, m.id).None?
        && Enabled(t, Complete) && Next(t, Complete).reader.Reading?
        && Next(t, Complete).futures[f].result.Some? && Carries(m, Next(t, Complete).futures[f].result.value)
  {
    var s := Run(INIT, acts);
    Reachable(acts);
    if Lookup(s.table, m.id).Some? {
      OwnId(s, m.id);
      EntryInTable(s, m.id);
      assert FutureOk(s, Lookup(s.table, m.id).value);
    }
  }

  // ---------------------------------------------------------------- what a call hands out

  /** How many futures a call has made by then. */
  predicate Counted(x: Sender) {
    match x.pc
    case Begin => x.items == [] && (x.batch || x.n == 1)
    case Filling => |x.items| < x.n
    case Numbered(_) => |x.items| < x.n
    case Encoding => |x.items| <= x.n
    case Ready => |x.items| == x.n
    case Written => |x.items| == x.n
    case Returned(None) => |x.items| == x.n
    case _ => true
  }

  lemma {:induction false} StepCounted(s: State, a: Action, i: SenderId)
    requires Enabled(s, a) && i < |Next(s, a).senders| && (i < |s.senders| ==> Counted(s.senders[i]))
    ensures Counted(Next(s, a).senders[i])
  {
  }

  lemma {:induction false} RunCounted(s: State, acts: seq<Action>)
    requires CanRun(s, acts) && forall i :: 0 <= i < |s.senders| ==> Counted(s.senders[i])
    ensures forall i :: 0 <= i < |Run(s, acts).senders| ==> Counted(Run(s, acts).senders[i])
    decreases |acts|
  {
    if acts != [] {
      var t := Next(s, acts[0]);
      forall i | 0 <= i < |t.senders| ensures Counted(t.senders[i]) { StepCounted(s, acts[0], i); }
      RunCounted(t, acts[1..]);
    }
  }

  /** A call that succeeds hands out one future for each of its requests, made by it, in order. */
  lemma {:induction false} OneFutureEach(acts: seq<Action>, i: SenderId)
    requires CanRun(INIT, acts) && NoWrap(Run(INIT, acts)) && i < |Run(INIT, acts).senders|
    requires Run(INIT, acts).senders[i].pc == Returned(None)
    ensures var s := Run(INIT, acts); var x := s.senders[i];
      && |x.items| == x.n
      && forall k :: 0 <= k < x.n ==>
           x.items[k] < |s.futures| && s.futures[x.items[k]].owner == i && s.futures[x.items[k]].pos == k
  {
    Reachable(acts);
    RunCounted(INIT, acts);
    assert SenderOk(Run(INIT, acts), i);
  }

  // ---------------------------------------------------------------- why a call fails

  /** What went wrong for sender i: a message that does not encode, or a write that fails.  It is
      fatal for the connection unless a message of a batch does not encode. */
  ghost predicate Fault(acts: seq<Action>, i: SenderId, batch: bool, fatal: bool, err: Error) {
    || (err.BadRequest? && EncodeErr(i, err.code) in acts && fatal == !batch)
    || (err.Io? && WriteErr(i, err.code) in acts && fatal)
  }

  /** A fatal fault of a sender. */
  ghost predicate Fatal(acts: seq<Action>, senders: seq<Sender>, err: Error) {
    exists i :: 0 <= i < |senders| && Fault(acts, i, senders[i].batch, true, err)
  }

  /** What killed the connection: Close, a read that failed, or a fatal fault of a sender. */
  ghost predicate Killed(acts: seq<Action>, err: Error) {
    || (err == ConnClosed && Close in acts)
    || (err.Io? && ReadErr(err.code) in acts)
    || (CanRun(INIT, acts) && Fatal(acts, Run(INIT, acts).senders, err))
  }

  ghost predicate SenderReason(acts: seq<Action>, s: State, i: SenderId)
    requires i < |s.senders|
  {
    var x := s.senders[i];
    match x.pc
    case Undoing(_, fatal, err) => Fault(acts, i, x.batch, fatal, err)
    case Failing(err) => Fault(acts, i, x.batch, true, err)
    case InFail(err) => Fault(acts, i, x.batch, true, err)
    case Returned(Some(err)) =>
      (err == ConnClosed && s.closed) || Fault(acts, i, x.batch, true, err) || Fault(acts, i, x.batch, false, err)
    case _ => true
  }

  ghost predicate KilledBy(acts: seq<Action>, s: State, err: Error) {
    (err == ConnClosed && Close in acts) || (err.Io? && ReadErr(err.code) in acts) || Fatal(acts, s.senders, err)
  }

  ghost predicate Reasoned(acts: seq<Action>, s: State) {
    && (forall i :: 0 <= i < |s.senders| ==> SenderReason(acts, s, i))
    && (s.reader.ReadFailing? ==> s.reader.err.Io? && ReadErr(s.reader.err.code) in acts)
    && (!s.failer.Idle? ==> s.closed && KilledBy(acts, s, s.failer.err))
    && (s.closed ==> !s.failer.Idle?)
  }

  lemma {:induction false} KindsKept(s: State, a: Action)
    requires Enabled(s, a)
    ensures |s.senders| <= |Next(s, a).senders|
    ensures forall i :: 0 <= i < |s.senders| ==> Next(s, a).senders[i].batch == s.senders[i].batch
  {
  }

  /** Steps of a sender that fails. */
  predicate OfFailing(a: Action) { a.EncodeErr? || a.WriteErr? || a.Undo? || a.SenderCas? || a.SenderLeave? }

  lemma {:induction false} FailingReasoned(acts: seq<Action>, s: State, a: Action, i: SenderId)
    requires Enabled(s, a) && i < |s.senders| && a in acts && OfFailing(a) && SenderReason(acts, s, i)
    ensures i < |Next(s, a).senders| && SenderReason(acts, Next(s, a), i)
  {
  }

  lemma {:induction false} OthersReasoned(acts: seq<Action>, s: State, a: Action, i: SenderId)
    requires Enabled(s, a) && i < |Next(s, a).senders| && !OfFailing(a)
    requires i < |s.senders| ==> SenderReason(acts, s, i)
    ensures SenderReason(acts, Next(s, a), i)
  {
  }

  lemma {:induction false} SenderReasoned(acts: seq<Action>, s: State, a: Action, i: SenderId)
    requires Enabled(s, a) && i < |Next(s, a).senders| && a in acts
    requires i < |s.senders| ==> SenderReason(acts, s, i)
    ensures SenderReason(acts, Next(s, a), i)
  {
    if OfFailing(a) { FailingReasoned(acts, s, a, i); } else { OthersReasoned(acts, s, a, i); }
  }

  lemma {:induction false} FaultsKept(acts: seq<Action>, a: Action, s: State, i: SenderId)
    requires i < |s.senders| && SenderReason(acts, s, i)
    ensures SenderReason(acts + [a], s, i)
  {
  }

  lemma {:induction false} FatalKept(acts: seq<Action>, s: State, a: Action, err: Error)
    requires Enabled(s, a) && KilledBy(acts, s, err)
    ensures KilledBy(acts + [a], Next(s, a), err)
  {
    KindsKept(s, a);
    if Fatal(acts, s.senders, err) {
      var i :| 0 <= i < |s.senders| && Fault(acts, i, s.senders[i].batch, true, err);
      assert Fault(acts + [a], i, Next(s, a).senders[i].batch, true, err);
    }
  }

  lemma {:induction false} StepReasoned(acts: seq<Action>, s: State, a: Action)
    requires Reasoned(acts, s) && Enabled(s, a)
    ensures Reasoned(acts + [a], Next(s, a))
  {
    var t := Next(s, a);
    forall i | 0 <= i < |t.senders| ensures SenderReason(acts + [a], t, i) {
      if i < |s.senders| { FaultsKept(acts, a, s, i); }
      SenderReasoned(acts + [a], s, a, i);
    }
    if s.closed { FatalKept(acts, s, a, s.failer.err); }
    KindsKept(s, a);
    if a.SenderCas? {
      FaultsKept(acts, a, s, a.i);
      assert Fault(acts + [a], a.i, t.senders[a.i].batch, true, s.senders[a.i].pc.err);
    }
  }

  lemma {:induction false} RunReasoned(done: seq<Action>, s: State, acts: seq<Action>)
    requires Reasoned(done, s) && CanRun(s, acts)
    ensures Reasoned(done + acts, Run(s, acts))
    decreases |acts|
  {
    if acts == [] {
      assert done + acts == done;
    } else {
      StepReasoned(done, s, acts[0]);
      RunReasoned(done + [acts[0]], Next(s, acts[0]), acts[1..]);
      assert (done + [acts[0]]) + acts[1..] == done + acts;
    }
  }

  /** Why a call was refused, and what killed the connection: a call returns an error only for a
      closed connection, for a message of its own that did not encode, or for its own write that
      failed; the connection dies only of Close, of a read, or of a fatal fault of a call. */
  lemma {:induction false} Reasons(acts: seq<Action>)
    requires CanRun(INIT, acts)
    ensures var s := Run(INIT, acts);
      && (forall i :: 0 <= i < |s.senders| ==> SenderReason(acts, s, i))
      && (s.closed <==> !s.failer.Idle?) && (s.closed ==> Killed(acts, s.failer.err))
  {
    RunReasoned([], INIT, acts);
    assert [] + acts == acts;
  }

  /** A call that finds the connection closed returns that and leaves everything alone; an empty
      batch returns at once; any other call goes on. */
  lemma {:induction false} ClosedRefuses(s: State, i: SenderId)
    requires Enabled(s, Check(i))
    ensures var t := Next(s, Check(i)); var x := s.senders[i];
      && t == s.(senders := t.senders) && |t.senders| == |s.senders|
      && (forall j :: 0 <= j < |s.senders| && j != i ==> t.senders[j] == s.senders[j])
      && (t.senders[i].pc.Returned? <==> s.closed || (x.batch && x.n == 0))
      && (t.senders[i].pc.Returned? ==>
          t.senders[i].pc.result == if x.batch && x.n == 0 then None else Some(ConnClosed))
  {
  }

  ghost predicate Settles(s: State, t: State) {
    && |s.futures| <= |t.futures|
    && forall f :: 0 <= f < |s.futures| ==>
         && t.futures[f].id == s.futures[f].id
         && (s.futures[f].result.Some? ==> t.futures[f] == s.futures[f])
  }

  lemma {:induction false} RunSettles(s: State, acts: seq<Action>)
    requires CanRun(s, acts)
    ensures Settles(s, Run(s, acts))
    decreases |acts|
  {
    if acts != [] {
      RunSettles(Next(s, acts[0]), acts[1..]);
    }
  }

  /** Once a future has a result, no later step changes it. */
  lemma {:induction false} ResultIsFinal(acts: seq<Action>, later: seq<Action>, f: FutureId)
    requires CanRun(INIT, acts) && CanRun(Run(INIT, acts), later)
    requires f < |Run(INIT, acts).futures| && Run(INIT, acts).futures[f].result.Some?
    ensures f < |Run(Run(INIT, acts), later).futures|
    ensures Run(Run(INIT, acts), later).futures[f] == Run(INIT, acts).futures[f]
  {
    RunSettles(Run(INIT, acts), later);
  }

  /** A step that calls Done finds the future without a result, so Done takes effect at most once
      and is never wasted. */
  lemma {:induction false} DoneFindsNoResult(acts: seq<Action>, a: Action)
    requires CanRun(INIT, acts) && Enabled(Run(INIT, acts), a) && NoWrap(Run(INIT, acts))
    ensures a.Complete? ==> Run(INIT, acts).futures[Run(INIT, acts).reader.f].result.None?
    ensures a.FailOne? ==> Run(INIT, acts).futures[Run(INIT, acts).failer.rest[a.q]].result.None?
  {
    Reachable(acts);
    match a
    case Complete => StepComplete(Run(INIT, acts));
    case FailOne(q) => StepFailOne(Run(INIT, acts), q);
    case _ =>
  }
}
