/** No waiter is stranded: some call can always move, and every run without new calls ends. */
module Progress {
  import opened Basics
  import opened GroupCommit

  function Left(total: nat, size: nat): nat { if total <= size then size - total else 0 }

  /** An upper bound on the steps a call still takes, with the work it may cause. */
  function Rank(payload: seq<byte>, pc: Pc): nat {
    match pc
    case Invoked => |payload| + 8
    case Waiting(_) => 1
    case Flushing(_, data, total) => Left(total, |data|) + 3
    case Publishing(_, _, _) => 2
    case Relock(_) => 1
    case Returned(_) => 0
  }

  function Ranks(payloads: seq<seq<byte>>, pcs: seq<Pc>): nat
    requires |payloads| == |pcs|
  {
    if pcs == [] then 0 else Rank(payloads[0], pcs[0]) + Ranks(payloads[1..], pcs[1..])
  }

  function Measure(s: State): nat
    requires |s.payloads| == |s.pcs|
  {
    Ranks(s.payloads, s.pcs)
    + (if s.batch.Some? && s.batch.value < |s.batches| then |s.batches[s.batch.value].buf| + 4 else 0)
  }

  lemma {:induction false} RanksUpdate(payloads: seq<seq<byte>>, pcs: seq<Pc>, c: nat, pc: Pc)
    requires |payloads| == |pcs| && c < |pcs|
    ensures Ranks(payloads, pcs[c := pc]) + Rank(payloads[c], pcs[c]) == Ranks(payloads, pcs) + Rank(payloads[c], pc)
  {
    if c > 0 {
      RanksUpdate(payloads[1..], pcs[1..], c - 1, pc);
      assert pcs[c := pc][1..] == pcs[1..][c - 1 := pc];
    } else {
      assert pcs[c := pc][1..] == pcs[1..];
    }
  }

  /** Every step other than the arrival of a new call decreases the measure. */
  lemma {:induction false} StepDecreases(s: State, a: Action)
    requires Inv(s) && Enabled(s, a) && !a.Invoke?
    ensures |Next(s, a).payloads| == |Next(s, a).pcs| && Measure(Next(s, a)) < Measure(s)
  {
    if a.Enter? {
      EnterDecreases(s, a.c);
    } else {
      RanksUpdate(s.payloads, s.pcs, a.c, Next(s, a).pcs[a.c]);
      assert CallOk(s, a.c);
      if a.Publish? && s.batch.Some? { assert BatchOk(s, s.batch.value); }
    }
  }

  lemma {:induction false} EnterDecreases(s: State, c: CallId)
    requires Inv(s) && Enabled(s, Enter(c))
    ensures |Next(s, Enter(c)).payloads| == |Next(s, Enter(c)).pcs| && Measure(Next(s, Enter(c))) < Measure(s)
  {
    RanksUpdate(s.payloads, s.pcs, c, Next(s, Enter(c)).pcs[c]);
    assert CallOk(s, c);
  }

  predicate Internal(acts: seq<Action>) {
    forall i :: 0 <= i < |acts| ==> !acts[i].Invoke?
  }

  lemma {:induction false} RunBounded(s: State, acts: seq<Action>)
    requires Inv(s) && CanRun(s, acts) && Internal(acts)
    ensures |acts| <= Measure(s)
    decreases |acts|
  {
    if acts != [] {
      StepDecreases(s, acts[0]);
      StepKeepsInv(s, acts[0]);
      RunBounded(Next(s, acts[0]), acts[1..]);
    }
  }

  /** No step is left but the arrival of a new call. */
  ghost predicate Stuck(s: State) { forall a: Action :: Enabled(s, a) ==> a.Invoke? }

  /** While some call has not returned, some call can take a step. */
  lemma {:induction false} SomeoneMoves(s: State, c: CallId)
    requires Inv(s) && c < |s.pcs| && !s.pcs[c].Returned?
    ensures !Stuck(s)
  {
    assert CallOk(s, c);
    match s.pcs[c]
    case Invoked => assert Enabled(s, Enter(c));
    case Waiting(b) =>
      assert BatchOk(s, b);
      if s.batches[b].closed {
        assert Enabled(s, Wake(c));
      } else {
        var l :| 0 <= l < |s.pcs| && IsLeader(s.pcs[l]);
        LeaderMoves(s, l);
      }
    case _ => LeaderMoves(s, c);
  }

  lemma {:induction false} LeaderMoves(s: State, l: CallId)
    requires Inv(s) && l < |s.pcs| && IsLeader(s.pcs[l])
    ensures !Stuck(s)
  {
    assert CallOk(s, l);
    var pc := s.pcs[l];
    if pc.Flushing? {
      assert Enabled(s, if pc.total < |pc.data| then SocketWrite(l, |pc.data| - pc.total, None) else FlushEnd(l));
    } else if pc.Publishing? {
      assert Enabled(s, Publish(l));
    } else {
      assert Enabled(s, TakeBatch(l));
    }
  }

  /** From any reachable state, once no new call arrives: every run is finite, with a bound known
      in advance, and a run that cannot go on has returned every call. */
  lemma {:induction false} Terminates(acts: seq<Action>, rest: seq<Action>)
    requires CanRun(INIT, acts) && CanRun(Run(INIT, acts), rest) && Internal(rest)
    ensures |Run(INIT, acts).payloads| == |Run(INIT, acts).pcs| && |rest| <= Measure(Run(INIT, acts))
    ensures var t := Run(Run(INIT, acts), rest);
      Stuck(t) <==> forall c :: 0 <= c < |t.pcs| ==> t.pcs[c].Returned?
  {
    var s := Run(INIT, acts);
    var t := Run(s, rest);
    Reachable(acts);
    RunKeepsInv(s, rest);
    RunBounded(s, rest);
    StuckWhenDone(t);
  }

  lemma {:induction false} StuckWhenDone(t: State)
    requires Inv(t)
    ensures Stuck(t) <==> forall c :: 0 <= c < |t.pcs| ==> t.pcs[c].Returned?
  {
    if c :| 0 <= c < |t.pcs| && !t.pcs[c].Returned? { SomeoneMoves(t, c); }
  }
}
