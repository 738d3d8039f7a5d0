/** Future: one result, one close of the channel, and callbacks that fire once.

    The step system interleaves any number of Done and OnComplete calls.  A callback is named
    by the OnComplete call that registered it.  `winner` and `fired` are history. */
module Futures {
  import opened Basics

  type Error = int
  type CallId = nat

  datatype Call =
    | DoneCall(res: seq<byte>, err: Option<Error>, dpc: DonePc)
    | RegisterCall(hasFn: bool, rpc: RegisterPc)

  datatype DonePc =
    | DoneStart
    | Fire(fn: Option<CallId>)   // completed the future, before the callback
    | CloseChannel
    | DoneEnd

  datatype RegisterPc =
    | RegisterStart
    | FireNow(err: Option<Error>)  // found the future completed
    | Early                        // registered before completion
    | Late                         // ran its callback itself

  datatype State = State(
    res: seq<byte>,
    err: Option<Error>,
    completed: bool,
    onComplete: Option<CallId>,
    closes: nat,
    calls: seq<Call>,
    winner: Option<CallId>,
    fired: seq<(CallId, Option<Error>)>)

  datatype Action =
    | Arrive(call: Call)
    | DoneLock(c: CallId)
    | DoneFire(c: CallId)
    | DoneClose(c: CallId)
    | RegisterLock(c: CallId)
    | RegisterFire(c: CallId)

  const INIT := State([], None, false, None, 0, [], None, [])

  predicate Enabled(s: State, a: Action) {
    match a
    case Arrive(call) => if call.DoneCall? then call.dpc.DoneStart? else call.rpc.RegisterStart?
    case DoneLock(c) => c < |s.calls| && s.calls[c].DoneCall? && s.calls[c].dpc.DoneStart?
    case DoneFire(c) => c < |s.calls| && s.calls[c].DoneCall? && s.calls[c].dpc.Fire?
    case DoneClose(c) => c < |s.calls| && s.calls[c].DoneCall? && s.calls[c].dpc.CloseChannel?
    case RegisterLock(c) => c < |s.calls| && s.calls[c].RegisterCall? && s.calls[c].rpc.RegisterStart?
    case RegisterFire(c) => c < |s.calls| && s.calls[c].RegisterCall? && s.calls[c].rpc.FireNow?
  }

  function Next(s: State, a: Action): State
    requires Enabled(s, a)
  {
    match a
    case Arrive(call) => s.(calls := s.calls + [call])
    case DoneLock(c) =>
      var x := s.calls[c];
      if s.completed then s.(calls := s.calls[c := x.(dpc := DoneEnd)])
      else s.(res := x.res, err := x.err, completed := true, winner := Some(c),
              calls := s.calls[c := x.(dpc := Fire(s.onComplete))])
    case DoneFire(c) =>
      var x := s.calls[c];
      s.(fired := if x.dpc.fn.Some? then s.fired + [(x.dpc.fn.value, x.err)] else s.fired,
         calls := s.calls[c := x.(dpc := CloseChannel)])
    case DoneClose(c) => s.(closes := s.closes + 1, calls := s.calls[c := s.calls[c].(dpc := DoneEnd)])
    case RegisterLock(c) =>
      var x := s.calls[c];
      if s.completed then s.(calls := s.calls[c := x.(rpc := FireNow(s.err))])
      else s.(onComplete := if x.hasFn then Some(c) else None, calls := s.calls[c := x.(rpc := Early)])
    case RegisterFire(c) =>
      var x := s.calls[c];
      s.(fired := if x.hasFn then s.fired + [(c, x.rpc.err)] else s.fired,
         calls := s.calls[c := x.(rpc := Late)])
  }

  predicate CanRun(s: State, acts: seq<Action>)
    decreases |acts|
  {
    acts == [] || (Enabled(s, acts[0]) && CanRun(Next(s, acts[0]), acts[1..]))
  }

  function Run(s: State, acts: seq<Action>): State
    requires CanRun(s, acts)
    decreases |acts|
  {
    if acts == [] then s else Run(Next(s, acts[0]), acts[1..])
  }

  /** How often the callback of call c has been invoked. */
  function Fired(fired: seq<(CallId, Option<Error>)>, c: CallId): nat {
    if fired == [] then 0
    else Fired(fired[..|fired| - 1], c) + (if fired[|fired| - 1].0 == c then 1 else 0)
  }

  lemma {:induction false} FiredSnoc(fired: seq<(CallId, Option<Error>)>, e: (CallId, Option<Error>), c: CallId)
    ensures Fired(fired + [e], c) == Fired(fired, c) + (if e.0 == c then 1 else 0)
  {
    assert (fired + [e])[..|fired|] == fired;
  }

  /** The completing call has been past its callback. */
  predicate WinnerFired(s: State) {
    s.winner.Some? && s.winner.value < |s.calls| && s.calls[s.winner.value].DoneCall?
    && (s.calls[s.winner.value].dpc.CloseChannel? || s.calls[s.winner.value].dpc.DoneEnd?)
  }

  /** The callback of call c is due to be invoked, or has been: it was registered after
      completion, or is the last one registered before. */
  predicate Due(s: State, c: CallId)
    requires c < |s.calls|
  {
    s.calls[c].RegisterCall? && s.calls[c].hasFn &&
    (s.calls[c].rpc.Late? || (s.onComplete == Some(c) && WinnerFired(s)))
  }

  ghost predicate CallOk(s: State, c: CallId)
    requires c < |s.calls|
  {
    && Fired(s.fired, c) == (if Due(s, c) then 1 else 0)
    && match s.calls[c]
       case DoneCall(res, err, dpc) =>
         if s.winner == Some(c) then
           && s.res == res && s.err == err && !dpc.DoneStart?
           && (dpc.Fire? ==> dpc.fn == s.onComplete)
           && s.closes == (if dpc.DoneEnd? then 1 else 0)
         else dpc.DoneStart? || (dpc.DoneEnd? && s.completed)
       case RegisterCall(hasFn, rpc) =>
         && (rpc.FireNow? ==> s.completed && rpc.err == s.err)
         && (rpc.Late? ==> s.completed)
         && (s.onComplete == Some(c) ==> rpc.Early? && hasFn)
  }

  ghost predicate Inv(s: State) {
    && (s.completed <==> s.winner.Some?)
    && (s.winner.Some? ==> s.winner.value < |s.calls| && s.calls[s.winner.value].DoneCall?)
    && (s.winner.None? ==> s.closes == 0)
    && (s.onComplete.Some? ==> s.onComplete.value < |s.calls| && s.calls[s.onComplete.value].RegisterCall?)
    && (forall c :: 0 <= c < |s.calls| ==> CallOk(s, c))
    && (forall k :: 0 <= k < |s.fired| ==> s.completed && s.fired[k].1 == s.err && s.fired[k].0 < |s.calls|)
  }

  lemma {:induction false} FiredBelow(fired: seq<(CallId, Option<Error>)>, n: nat)
    requires forall k :: 0 <= k < |fired| ==> fired[k].0 < n
    ensures Fired(fired, n) == 0
  {
    if fired != [] {
      FiredBelow(fired[..|fired| - 1], n);
    }
  }

  lemma {:induction false} StepKeepsCall(s: State, a: Action, c: CallId)
    requires Inv(s) && Enabled(s, a) && c < |Next(s, a).calls|
    ensures CallOk(Next(s, a), c)
  {
    if c >= |s.calls| {
      FiredBelow(s.fired, |s.calls|);
    } else {
      match a
      case DoneFire(d) => DoneFireKeepsCall(s, d, c);
      case RegisterFire(d) => RegisterFireKeepsCall(s, d, c);
      case _ => QuietKeepsCall(s, a, c);
    }
  }

  lemma {:induction false} RegisterFireKeepsCall(s: State, d: CallId, c: CallId)
    requires Inv(s) && Enabled(s, RegisterFire(d)) && c < |s.calls|
    ensures CallOk(Next(s, RegisterFire(d)), c)
  {
    var t := Next(s, RegisterFire(d));
    assert CallOk(s, c) && CallOk(s, d);
    FiredSnoc(s.fired, (d, s.calls[d].rpc.err), c);
    assert WinnerFired(t) == WinnerFired(s);
    assert Due(t, c) == if c == d then s.calls[d].hasFn else Due(s, c);
    assert Fired(t.fired, c) == if Due(t, c) then 1 else 0;
  }

  lemma {:induction false} DoneFireKeepsCall(s: State, d: CallId, c: CallId)
    requires Inv(s) && Enabled(s, DoneFire(d)) && c < |s.calls|
    ensures CallOk(Next(s, DoneFire(d)), c)
  {
    var t := Next(s, DoneFire(d));
    assert CallOk(s, c) && CallOk(s, d);
    assert s.winner == Some(d) && s.calls[d].dpc.fn == s.onComplete;
    if s.onComplete.Some? { FiredSnoc(s.fired, (s.onComplete.value, s.calls[d].err), c); }
    assert WinnerFired(t) && !WinnerFired(s);
    if s.onComplete == Some(c) { assert Due(t, c) && !Due(s, c); } else { assert Due(t, c) == Due(s, c); }
    assert Fired(t.fired, c) == if Due(t, c) then 1 else 0;
  }

  lemma {:induction false} QuietKeepsCall(s: State, a: Action, c: CallId)
    requires Inv(s) && Enabled(s, a) && c < |s.calls| && !a.DoneFire? && !a.RegisterFire?
    ensures CallOk(Next(s, a), c)
  {
    assert CallOk(s, c);
    if !a.Arrive? { assert CallOk(s, a.c); }
    if s.winner.Some? { assert CallOk(s, s.winner.value); }
  }

  lemma {:induction false} StepKeepsInv(s: State, a: Action)
    requires Inv(s) && Enabled(s, a)
    ensures Inv(Next(s, a))
  {
    var t := Next(s, a);
    forall c | 0 <= c < |t.calls| ensures CallOk(t, c) { StepKeepsCall(s, a, c); }
    if !a.Arrive? { assert CallOk(s, a.c); }
    if s.winner.Some? { assert CallOk(s, s.winner.value); }
  }

  lemma {:induction false} RunKeepsInv(s: State, acts: seq<Action>)
    requires Inv(s) && CanRun(s, acts)
    ensures Inv(Run(s, acts))
    ensures s.completed ==> Run(s, acts).completed && Run(s, acts).res == s.res && Run(s, acts).err == s.err
    decreases |acts|
  {
    if acts != [] {
      StepKeepsInv(s, acts[0]);
      RunKeepsInv(Next(s, acts[0]), acts[1..]);
    }
  }

  /** The channel is closed at most once, every callback runs at most once and only with the
      final error, and a completed future never changes its result. */
  lemma {:induction false} AtMostOnce(acts: seq<Action>, later: seq<Action>, c: CallId)
    requires CanRun(INIT, acts) && CanRun(Run(INIT, acts), later) && c < |Run(INIT, acts).calls|
    ensures var s := Run(INIT, acts); var t := Run(s, later);
      && s.closes <= 1 && Fired(s.fired, c) <= 1
      && (forall k :: 0 <= k < |s.fired| ==> s.completed && s.fired[k].1 == s.err)
      && (s.completed ==> t.completed && t.res == s.res && t.err == s.err)
  {
    var s := Run(INIT, acts);
    RunKeepsInv(INIT, acts);
    RunKeepsInv(s, later);
    assert CallOk(s, c);
    if s.winner.Some? { assert CallOk(s, s.winner.value); }
  }

  /** Call c was the first to be Done, with this result. */
  ghost predicate FirstDone(acts: seq<Action>, s: State) {
    exists k, c: CallId :: 0 <= k < |acts| && acts[k] == DoneLock(c) && (forall j :: 0 <= j < k ==> !acts[j].DoneLock?)
      && c < |s.calls| && s.calls[c].DoneCall? && s.res == s.calls[c].res && s.err == s.calls[c].err
  }

  lemma {:induction false} RunFirstDone(done: seq<Action>, s: State, acts: seq<Action>)
    requires CanRun(s, acts)
    requires if s.completed then FirstDone(done, s) else forall j :: 0 <= j < |done| ==> !done[j].DoneLock?
    ensures var t := Run(s, acts);
      if t.completed then FirstDone(done + acts, t)
      else forall j :: 0 <= j < |done + acts| ==> !(done + acts)[j].DoneLock?
    decreases |acts|
  {
    if acts == [] {
      assert done + acts == done;
    } else {
      StepFirstDone(done, s, acts[0]);
      RunFirstDone(done + [acts[0]], Next(s, acts[0]), acts[1..]);
      assert (done + [acts[0]]) + acts[1..] == done + acts;
    }
  }

  lemma {:induction false} StepFirstDone(done: seq<Action>, s: State, a: Action)
    requires Enabled(s, a)
    requires if s.completed then FirstDone(done, s) else forall j :: 0 <= j < |done| ==> !done[j].DoneLock?
    ensures var t := Next(s, a); var more := done + [a];
      if t.completed then FirstDone(more, t) else forall j :: 0 <= j < |more| ==> !more[j].DoneLock?
  {
    var t, more := Next(s, a), done + [a];
    assert forall j :: 0 <= j < |done| ==> more[j] == done[j];
    if s.completed {
      var k, c: CallId :| 0 <= k < |done| && done[k] == DoneLock(c) && (forall j :: 0 <= j < k ==> !done[j].DoneLock?)
        && c < |s.calls| && s.calls[c].DoneCall? && s.res == s.calls[c].res && s.err == s.calls[c].err;
      assert more[k] == DoneLock(c) && t.calls[c].DoneCall? && t.res == t.calls[c].res && t.err == t.calls[c].err;
    } else if a.DoneLock? {
      assert more[|done|] == DoneLock(a.c) && t.calls[a.c].DoneCall?;
    }
  }

  /** The result is that of the call that was the first to be Done. */
  lemma {:induction false} FirstDoneWins(acts: seq<Action>)
    requires CanRun(INIT, acts)
    ensures Run(INIT, acts).completed <==> exists k :: 0 <= k < |acts| && acts[k].DoneLock?
    ensures Run(INIT, acts).completed ==> FirstDone(acts, Run(INIT, acts))
  {
    RunFirstDone([], INIT, acts);
    assert [] + acts == acts;
  }

  /** The callback of the last OnComplete before the first Done, if that had one. */
  function EarlyCallback(acts: seq<Action>, calls: seq<Call>): Option<CallId> {
    if acts == [] then None
    else
      var front, a := acts[..|acts| - 1], acts[|acts| - 1];
      if a.RegisterLock? && forall j :: 0 <= j < |front| ==> !front[j].DoneLock? then
        if a.c < |calls| && calls[a.c].RegisterCall? && calls[a.c].hasFn then Some(a.c) else None
      else EarlyCallback(front, calls)
  }

  lemma {:induction false} EarlyKept(acts: seq<Action>, calls: seq<Call>, more: seq<Call>)
    requires |calls| <= |more| && forall c :: 0 <= c < |calls| ==> more[c].DoneCall? == calls[c].DoneCall?
    requires forall c :: 0 <= c < |calls| && calls[c].RegisterCall? ==> more[c].hasFn == calls[c].hasFn
    requires forall k :: 0 <= k < |acts| && acts[k].RegisterLock? ==> acts[k].c < |calls|
    ensures EarlyCallback(acts, more) == EarlyCallback(acts, calls)
  {
    if acts != [] { EarlyKept(acts[..|acts| - 1], calls, more); }
  }

  /** What is registered is that callback, and completion means that some call was Done. */
  ghost predicate Registered(done: seq<Action>, s: State) {
    && s.onComplete == EarlyCallback(done, s.calls)
    && (s.completed <==> exists j :: 0 <= j < |done| && done[j].DoneLock?)
    && (forall k :: 0 <= k < |done| && done[k].RegisterLock? ==> done[k].c < |s.calls|)
  }

  lemma {:induction false} StepRegistered(done: seq<Action>, s: State, a: Action)
    requires Registered(done, s) && Enabled(s, a)
    ensures Registered(done + [a], Next(s, a))
  {
    var t, more := Next(s, a), done + [a];
    assert more[..|done|] == done && more[|done|] == a;
    assert forall j :: 0 <= j < |done| ==> more[j] == done[j];
    EarlyKept(done, s.calls, t.calls);
    if s.completed {
      var j :| 0 <= j < |done| && done[j].DoneLock?;
      assert more[j].DoneLock?;
    }
  }

  lemma {:induction false} RunRegistered(done: seq<Action>, s: State, acts: seq<Action>)
    requires Registered(done, s) && CanRun(s, acts)
    ensures Registered(done + acts, Run(s, acts))
    decreases |acts|
  {
    if acts == [] {
      assert done + acts == done;
    } else {
      StepRegistered(done, s, acts[0]);
      RunRegistered(done + [acts[0]], Next(s, acts[0]), acts[1..]);
      assert (done + [acts[0]]) + acts[1..] == done + acts;
    }
  }

  predicate Quiescent(s: State) {
    forall c :: 0 <= c < |s.calls| ==>
      if s.calls[c].DoneCall? then s.calls[c].dpc.DoneEnd? else s.calls[c].rpc.Early? || s.calls[c].rpc.Late?
  }

  /** When all calls are through and one of them was Done: the channel is closed exactly once,
      and a callback has run, exactly once, if and only if it was registered after completion or
      no later registration replaced it before. */
  lemma {:induction false} ExactlyOnce(acts: seq<Action>, c: CallId, d: CallId)
    requires CanRun(INIT, acts) && Quiescent(Run(INIT, acts))
    requires c < |Run(INIT, acts).calls| && Run(INIT, acts).calls[c].RegisterCall? && Run(INIT, acts).calls[c].hasFn
    requires d < |Run(INIT, acts).calls| && Run(INIT, acts).calls[d].DoneCall?
    ensures var s := Run(INIT, acts);
      && s.completed && s.closes == 1
      && Fired(s.fired, c) == (if s.calls[c].rpc.Late? || EarlyCallback(acts, s.calls) == Some(c) then 1 else 0)
  {
    var s := Run(INIT, acts);
    RunRegistered([], INIT, acts);
    assert [] + acts == acts;
    RunKeepsInv(INIT, acts);
    assert CallOk(s, c) && CallOk(s, d);
    assert CallOk(s, s.winner.value);
  }

  /** A callback registered by the only OnComplete call runs exactly once, whoever locks first. */
  lemma {:induction false} SoleCallback(acts: seq<Action>, c: CallId, d: CallId)
    requires CanRun(INIT, acts) && Quiescent(Run(INIT, acts))
    requires c < |Run(INIT, acts).calls| && Run(INIT, acts).calls[c].RegisterCall? && Run(INIT, acts).calls[c].hasFn
    requires d < |Run(INIT, acts).calls| && Run(INIT, acts).calls[d].DoneCall?
    requires forall e :: 0 <= e < |Run(INIT, acts).calls| && e != c ==> Run(INIT, acts).calls[e].DoneCall?
    ensures Fired(Run(INIT, acts).fired, c) == 1
  {
    ExactlyOnce(acts, c, d);
    LastRegistered(INIT, acts, c);
    RunRegistered([], INIT, acts);
    assert [] + acts == acts;
  }

  lemma {:induction false} LastRegistered(s: State, acts: seq<Action>, c: CallId)
    requires Inv(s) && CanRun(s, acts) && c < |Run(s, acts).calls|
    requires forall e :: 0 <= e < |Run(s, acts).calls| && e != c ==> Run(s, acts).calls[e].DoneCall?
    requires Run(s, acts).calls[c].RegisterCall? && Run(s, acts).calls[c].hasFn
    requires c < |s.calls| && s.calls[c].RegisterCall? && s.calls[c].hasFn && s.calls[c].rpc.Early? ==>
      s.onComplete == Some(c)
    ensures Run(s, acts).calls[c].rpc.Early? ==> Run(s, acts).onComplete == Some(c)
    decreases |acts|
  {
    if acts != [] {
      var t := Next(s, acts[0]);
      StepKeepsInv(s, acts[0]);
      KindsKept(t, acts[1..]);
      if acts[0].RegisterLock? { assert t.calls[acts[0].c].RegisterCall? && acts[0].c == c; }
      LastRegistered(t, acts[1..], c);
    }
  }

  lemma {:induction false} KindsKept(s: State, acts: seq<Action>)
    requires CanRun(s, acts)
    ensures |s.calls| <= |Run(s, acts).calls|
    ensures forall e :: 0 <= e < |s.calls| ==> Run(s, acts).calls[e].DoneCall? == s.calls[e].DoneCall?
    ensures forall e :: 0 <= e < |s.calls| && s.calls[e].RegisterCall? ==>
      Run(s, acts).calls[e].hasFn == s.calls[e].hasFn
    decreases |acts|
  {
    if acts != [] {
      KindsKept(Next(s, acts[0]), acts[1..]);
    }
  }

  // ---------------------------------------------------------------- the code

  lemma {:induction false} RunSnoc(s: State, acts: seq<Action>, a: Action)
    requires CanRun(s, acts) && Enabled(Run(s, acts), a)
    ensures CanRun(s, acts + [a]) && Run(s, acts + [a]) == Next(Run(s, acts), a)
    decreases |acts|
  {
    if acts == [] {
      assert [] + [a] == [a];
    } else {
      assert (acts + [a])[1..] == acts[1..] + [a];
      RunSnoc(Next(s, acts[0]), acts[1..], a);
    }
  }

  /** The call a step belongs to. */
  function Mover(a: Action): Option<CallId> { if a.Arrive? then None else Some(a.c) }

  /** The fields of a future, and the calls on it.  Each lock section, callback and close of the
      channel is one step; between them other calls may do anything. */
  class Future {
    var res: seq<byte>
    var err: Option<Error>
    var completed: bool
    var onComplete: Option<CallId>
    var closes: nat
    var calls: seq<Call>
    var winner: Option<CallId>
    var fired: seq<(CallId, Option<Error>)>
    ghost var log: seq<Action>

    function Abs(): State
      reads this
    {
      State(res, err, completed, onComplete, closes, calls, winner, fired)
    }

    ghost predicate Valid()
      reads this
    {
      CanRun(INIT, log) && Abs() == Run(INIT, log) && Inv(Abs())
    }

    constructor ()
      ensures Valid() && Abs() == INIT
    {
      res, err, completed, onComplete, closes := [], None, false, None, 0;
      calls, winner, fired, log := [], None, [], [];
    }

    /** Moves the calls and the history along after the code has made step a from state s. */
    method Record(s: State, a: Action)
      requires CanRun(INIT, log) && s == Run(INIT, log) && Inv(s) && Enabled(s, a)
      requires var t := Next(s, a);
        && res == t.res && err == t.err && completed == t.completed
        && onComplete == t.onComplete && closes == t.closes && fired == t.fired
      modifies this`calls, this`winner, this`log
      ensures Valid() && Abs() == Next(s, a) && log == old(log) + [a]
    {
      StepKeepsInv(s, a);
      RunSnoc(INIT, log, a);
      calls, winner := Next(s, a).calls, Next(s, a).winner;
      log := log + [a];
    }

    /** Any steps of other calls. */
    method Others(c: CallId, budget: nat)
      requires Valid() && c < |calls|
      modifies this
      ensures Valid() && old(log) <= log && c < |calls| && calls[c] == old(calls)[c]
      ensures old(completed) ==> completed && res == old(res) && err == old(err) && winner == old(winner)
    {
      var left := budget;
      while left > 0
        invariant Valid() && old(log) <= log && c < |calls| && calls[c] == old(calls)[c]
        invariant old(completed) ==> completed && res == old(res) && err == old(err) && winner == old(winner)
      {
        var a: Action := *;
        var s := Abs();
        if !Enabled(s, a) || Mover(a) == Some(c) { return; }
        var t := Next(s, a);
        res, err, completed, onComplete, closes, fired := t.res, t.err, t.completed, t.onComplete, t.closes, t.fired;
        Record(s, a);
        left := left - 1;
      }
    }

    /** Done: only the first one fills the result in, calls back and closes the channel. */
    method Done(c: CallId, body: seq<byte>, error: Option<Error>, budget: nat)
      requires Valid() && c < |calls| && calls[c] == DoneCall(body, error, DoneStart)
      modifies this
      ensures Valid() && old(log) <= log && completed
      ensures c < |calls| && calls[c] == DoneCall(body, error, DoneEnd)
      ensures old(completed) ==> res == old(res) && err == old(err) && winner == old(winner)
      ensures !old(completed) ==> res == body && err == error && winner == Some(c)
    {
      var s := Abs();
      if completed {
        Record(s, DoneLock(c));
        return;
      }
      res, err, completed := body, error, true;
      var fn := onComplete;
      Record(s, DoneLock(c));

      Finish(c, body, error, fn, budget);
    }

    /** The rest of the Done that filled the result in: the callback, then the channel. */
    method Finish(c: CallId, body: seq<byte>, error: Option<Error>, fn: Option<CallId>, budget: nat)
      requires Valid() && completed && c < |calls| && calls[c] == DoneCall(body, error, Fire(fn))
      modifies this
      ensures Valid() && old(log) <= log && completed && res == old(res) && err == old(err) && winner == old(winner)
      ensures c < |calls| && calls[c] == DoneCall(body, error, DoneEnd)
    {
      Others(c, budget);
      var s := Abs();
      if fn.Some? { fired := fired + [(fn.value, error)]; }
      Record(s, DoneFire(c));

      Others(c, budget);
      s := Abs();
      closes := closes + 1;
      Record(s, DoneClose(c));
    }

    /** OnComplete: before completion it leaves the callback behind, afterwards it calls it. */
    method OnComplete(c: CallId, hasFn: bool, budget: nat)
      requires Valid() && c < |calls| && calls[c] == RegisterCall(hasFn, RegisterStart)
      modifies this
      ensures Valid() && old(log) <= log
      ensures c < |calls| && calls[c] == RegisterCall(hasFn, if old(completed) then Late else Early)
      ensures !old(completed) ==> fired == old(fired) && onComplete == if hasFn then Some(c) else None
      ensures old(completed) && hasFn ==> fired != [] && fired[|fired| - 1] == (c, old(err))
    {
      var s := Abs();
      if completed {
        var error := err;
        Record(s, RegisterLock(c));
        Others(c, budget);
        s := Abs();
        if hasFn { fired := fired + [(c, error)]; }
        Record(s, RegisterFire(c));
        return;
      }
      onComplete := if hasFn then Some(c) else None;
      Record(s, RegisterLock(c));
    }
  }
}
