/** A closed client comes to rest: once no call and no message is added, every run is finite with
    a bound known in advance, and it can only stop where all senders, the read loop and the failer
    are through. */
module Shutdown {
  import opened Pending
  import opened Multiplex

  /** What comes from outside: a call of SendAsync, SendAsyncBatch or Close, or a message. */
  predicate New(a: Action) { a.Start? || a.Receive? || a.Close? }

  predicate Internal(acts: seq<Action>) { forall i :: 0 <= i < |acts| ==> !New(acts[i]) }

  /** A sender has stored no more futures than it has requests, and fewer while it takes the next. */
  predicate SenderSized(x: Sender) {
    && (x.batch || x.n == 1) && |x.items| <= x.n
    && (x.pc.Begin? ==> x.items == [])
    && (x.pc.Filling? || x.pc.Numbered? ==> |x.items| < x.n)
  }

  ghost predicate Sized(s: State) { forall i :: 0 <= i < |s.senders| ==> SenderSized(s.senders[i]) }

  lemma {:induction false} StepSized(s: State, a: Action)
    requires Sized(s) && Enabled(s, a)
    ensures Sized(Next(s, a)) && (s.closed ==> Next(s, a).closed)
  {
    if OfReader(a) || OfFailer(a) {
      assert Next(s, a).senders == s.senders;
    } else if !a.Start? {
      SenderKept(s, a);
    }
  }

  lemma {:induction false} SenderKept(s: State, a: Action)
    requires Sized(s) && Enabled(s, a) && !a.Start? && !OfReader(a) && !OfFailer(a)
    ensures a.i < |s.senders| && |Next(s, a).senders| == |s.senders| && SenderSized(Next(s, a).senders[a.i])
    ensures Next(s, a).senders == s.senders[a.i := Next(s, a).senders[a.i]] && (s.closed ==> Next(s, a).closed)
  {
    assert SenderSized(s.senders[a.i]);
  }

  // ---------------------------------------------------------------- the measure

  /** An upper bound on the steps a sender still takes, counting double the one that makes a
      future, which the failer may have to complete. */
  function SenderRank(x: Sender): nat
    requires SenderSized(x)
  {
    match x.pc
    case Begin => 5 * x.n + 10
    case Filling => 4 * (x.n - |x.items|) + x.n + 9
    case Numbered(_) => 4 * (x.n - |x.items|) + x.n + 8
    case Encoding => 4 * (x.n - |x.items|) + x.n + 10
    case Ready => x.n + 9
    case Undoing(k, _, _) => (if k <= |x.items| then |x.items| - k else 0) + 6
    case Failing(_) => 4
    case InFail(_) => 2
    case Written => 2
    case Returned(_) => 0
  }

  function SenderRanks(senders: seq<Sender>): nat
    requires forall i :: 0 <= i < |senders| ==> SenderSized(senders[i])
  {
    if senders == [] then 0 else SenderRank(senders[0]) + SenderRanks(senders[1..])
  }

  function ReaderRank(r: ReaderPc): nat {
    match r
    case Got(_) => 6
    case Holding(_, _) => 5
    case Reading => 4
    case ReadFailing(_) => 3
    case ReadInFail => 1
    case Stopped => 0
  }

  function FailerRank(s: State): nat {
    match s.failer
    case Idle => |s.futures| + SHARDS + 5
    case Closing(_) => |s.futures| + SHARDS + 4
    case Draining(_, next, _) => |s.futures| + (if next <= SHARDS then SHARDS - next else 0) + 3
    case Completing(_, rest) => |rest| + 1
    case Finished(_) => 0
  }

  ghost function Measure(s: State): nat
    requires Sized(s)
  {
    SenderRanks(s.senders) + ReaderRank(s.reader) + FailerRank(s)
  }

  lemma {:induction false} RanksUpdate(senders: seq<Sender>, i: nat, x: Sender)
    requires i < |senders| && SenderSized(x) && forall k :: 0 <= k < |senders| ==> SenderSized(senders[k])
    ensures SenderRanks(senders[i := x]) + SenderRank(senders[i]) == SenderRanks(senders) + SenderRank(x)
  {
    if i == 0 {
      assert senders[0 := x][1..] == senders[1..];
    } else {
      assert senders[i := x][1..] == senders[1..][i - 1 := x];
      RanksUpdate(senders[1..], i - 1, x);
    }
  }

  /** q is the own id of one of the first n futures, the one m gives for it. */
  predicate Owns(futures: seq<Future>, m: map<RequestId, FutureId>, q: RequestId, n: nat) {
    q in m && m[q] < n <= |futures| && futures[m[q]].id == q
  }

  /** Entries of the first n futures under their own ids are no more than n. */
  lemma {:induction false} EntriesCount(futures: seq<Future>, m: map<RequestId, FutureId>, n: nat)
    requires n <= |futures| && forall q :: q in m ==> Owns(futures, m, q, n)
    ensures |m| <= n
  {
    if n == 0 {
      forall q: RequestId ensures q !in m { assert !Owns(futures, m, q, 0); }
      assert m == map[];
    } else {
      var id := futures[n - 1].id;
      var less := m - {id};
      if id in m { Fewer(m, id); } else { assert less == m; }
      forall q | q in less ensures Owns(futures, less, q, n - 1) { assert Owns(futures, m, q, n); }
      EntriesCount(futures, less, n - 1);
    }
  }

  lemma {:induction false} Fewer(m: map<RequestId, FutureId>, q: RequestId)
    requires q in m
    ensures |m - {q}| == |m| - 1
  {
    assert (m - {q}).Keys == m.Keys - {q};
  }

  lemma {:induction false} SenderDecreases(s: State, a: Action)
    requires Sized(s) && s.closed && Enabled(s, a) && !New(a) && !OfReader(a) && !OfFailer(a)
    ensures a.i < |s.senders| == |Next(s, a).senders| && SenderSized(Next(s, a).senders[a.i])
    ensures SenderRank(Next(s, a).senders[a.i]) + (if a.StoreFuture? then 2 else 1) <= SenderRank(s.senders[a.i])
  {
    assert SenderSized(s.senders[a.i]);
    SenderKept(s, a);
  }

  /** What a sender does to the other ranks: it may add a future. */
  lemma {:induction false} SenderElsewhere(s: State, a: Action)
    requires Sized(s) && s.closed && Enabled(s, a) && !New(a) && !OfReader(a) && !OfFailer(a)
    ensures Next(s, a).reader == s.reader && Next(s, a).failer == s.failer
    ensures FailerRank(Next(s, a)) <= FailerRank(s) + if a.StoreFuture? then 1 else 0
  {
  }

  lemma {:induction false} ReaderDecreases(s: State, a: Action)
    requires s.closed && Enabled(s, a) && !New(a) && OfReader(a)
    ensures Next(s, a).senders == s.senders
    ensures ReaderRank(Next(s, a).reader) < ReaderRank(s.reader) && FailerRank(Next(s, a)) == FailerRank(s)
  {
  }

  /** In a closed client every step but those from outside decreases the measure. */
  lemma {:induction false} StepDecreases(s: State, a: Action)
    requires Core(s) && Sized(s) && s.closed && Enabled(s, a) && !New(a)
    ensures Sized(Next(s, a)) && Measure(Next(s, a)) < Measure(s)
  {
    StepSized(s, a);
    if OfReader(a) {
      ReaderDecreases(s, a);
    } else if OfFailer(a) {
      FailerDecreases(s, a);
    } else {
      SenderKept(s, a);
      SenderDecreases(s, a);
      SenderElsewhere(s, a);
      RanksUpdate(s.senders, a.i, Next(s, a).senders[a.i]);
    }
  }

  lemma {:induction false} FailerDecreases(s: State, a: Action)
    requires Core(s) && Enabled(s, a) && OfFailer(a) && !New(a)
    ensures Next(s, a).senders == s.senders && Next(s, a).reader == s.reader && FailerRank(Next(s, a)) < FailerRank(s)
  {
    if a.EndDrain? {
      var m := FailerHas(s);
      forall q | q in m ensures Owns(s.futures, m, q, |s.futures|) {}
      EntriesCount(s.futures, m, |s.futures|);
    }
    if a.FailOne? { Fewer(s.failer.rest, a.q); }
  }

  // ---------------------------------------------------------------- no dead end

  ghost predicate Halted(s: State) { forall a: Action :: Enabled(s, a) ==> New(a) }

  lemma {:induction false} SenderMoves(s: State, i: SenderId)
    requires Core(s) && s.failer.Finished? && i < |s.senders| && !s.senders[i].pc.Returned?
    ensures !Halted(s)
  {
    assert SenderOk(s, i);
    match s.senders[i].pc
    case Begin => assert Enabled(s, Check(i));
    case Filling => assert Enabled(s, TakeSeq(i));
    case Numbered(_) => assert Enabled(s, StoreFuture(i));
    case Encoding => assert Enabled(s, EncodeOk(i));
    case Ready => assert Enabled(s, WriteErr(i, 0));
    case Written => assert Enabled(s, HandOut(i));
    case Undoing(k, _, _) => assert Enabled(s, Undo(i));
    case Failing(_) => assert Enabled(s, SenderCas(i));
    case InFail(_) => assert Enabled(s, SenderLeave(i));
  }

  lemma {:induction false} ReaderMoves(s: State)
    requires Core(s) && s.failer.Finished? && !s.reader.Stopped?
    ensures !Halted(s)
  {
    match s.reader
    case Reading => assert Enabled(s, ReadErr(0));
    case Got(_) => assert Enabled(s, Dispatch);
    case Holding(_, _) => assert Enabled(s, Complete);
    case ReadFailing(_) => assert Enabled(s, ReaderCas);
    case ReadInFail => assert Enabled(s, ReaderLeave);
  }

  lemma {:induction false} FailerMoves(s: State)
    requires Core(s) && s.closed && !s.failer.Finished?
    ensures !Halted(s)
  {
    match s.failer
    case Closing(_) => assert Enabled(s, CloseConn);
    case Draining(_, next, _) => assert Enabled(s, if next < SHARDS then DrainShard else EndDrain);
    case Completing(_, rest) =>
      assert EntriesOk(s.futures, FailerHas(s));
      if q :| q in rest {
        assert Enabled(s, FailOne(q));
      } else {
        assert forall q: RequestId :: q !in rest;
        assert rest == map[];
        assert Enabled(s, EndFail);
      }
  }

  /** A closed client halts exactly where everything is through. */
  lemma {:induction false} HaltedWhenQuiet(s: State)
    requires Core(s) && s.closed
    ensures Halted(s) <==> Quiescent(s)
  {
    if !Quiescent(s) {
      if !s.failer.Finished? {
        FailerMoves(s);
      } else if !s.reader.Stopped? {
        ReaderMoves(s);
      } else {
        var i :| 0 <= i < |s.senders| && !s.senders[i].pc.Returned?;
        SenderMoves(s, i);
      }
    }
  }

  // ---------------------------------------------------------------- runs

  lemma {:induction false} RunConcat(s: State, acts: seq<Action>, more: seq<Action>)
    requires CanRun(s, acts) && CanRun(Run(s, acts), more)
    ensures CanRun(s, acts + more) && Run(s, acts + more) == Run(Run(s, acts), more)
    decreases |acts|
  {
    if acts == [] {
      assert [] + more == more;
    } else {
      assert (acts + more)[1..] == acts[1..] + more;
      RunConcat(Next(s, acts[0]), acts[1..], more);
    }
  }

  lemma {:induction false} RunSized(s: State, acts: seq<Action>)
    requires Sized(s) && CanRun(s, acts)
    ensures Sized(Run(s, acts)) && (s.closed ==> Run(s, acts).closed)
    decreases |acts|
  {
    if acts != [] {
      StepSized(s, acts[0]);
      RunSized(Next(s, acts[0]), acts[1..]);
    }
  }

  lemma {:induction false} RunBounded(s: State, acts: seq<Action>)
    requires Inv(s) && Sized(s) && s.closed && CanRun(s, acts) && Internal(acts) && NoWrap(Run(s, acts))
    ensures |acts| <= Measure(s)
    decreases |acts|
  {
    if acts != [] {
      RunKeepsInv(s, acts);
      StepKeepsInv(s, acts[0]);
      RunKeepsInv(Next(s, acts[0]), acts[1..]);
      StepDecreases(s, acts[0]);
      StepSized(s, acts[0]);
      RunBounded(Next(s, acts[0]), acts[1..]);
    }
  }

  /** From any reachable state of a closed client, once nothing comes from outside: every run is
      finite, and one that cannot go on has every sender returned, the read loop stopped and the
      failer finished, an empty table, and every future that was handed out completed. */
  lemma {:induction false} ComesToRest(acts: seq<Action>, rest: seq<Action>)
    requires CanRun(INIT, acts) && Run(INIT, acts).closed
    requires CanRun(Run(INIT, acts), rest) && Internal(rest) && NoWrap(Run(Run(INIT, acts), rest))
    ensures Sized(Run(INIT, acts)) && |rest| <= Measure(Run(INIT, acts))
    ensures var t := Run(Run(INIT, acts), rest);
      && (Halted(t) <==> Quiescent(t))
      && (Halted(t) ==> View(t.table) == map[])
      && (Halted(t) ==> forall f :: 0 <= f < |t.futures| && HandedOut(t, f) ==> t.futures[f].result.Some?)
  {
    var s := Run(INIT, acts);
    var t := Run(s, rest);
    Reachable(acts);
    RunSized(INIT, acts);
    RunSized(s, rest);
    RunBounded(s, rest);
    RunKeepsInv(s, rest);
    HaltedWhenQuiet(t);
    if Quiescent(t) {
      RunConcat(INIT, acts, rest);
      NoLostFuture(acts + rest);
    }
  }
}
