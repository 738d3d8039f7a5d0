/** The circuit breaker: a class that does what the source does, the state machine it refines,
    and what holds over every history of calls. */
module Breakers {

  datatype State = Closed | Open | HalfOpen

  datatype Config = Config(windowSize: int, threshold: real, openTimeout: int)

  datatype Breaker = Breaker(state: State, failures: nat, successes: nat, lastChange: int, probe: bool)

  /** A call of the breaker, with what the clock says then.  Allow reads the clock twice: to see
      how long the breaker has been open, and for the time of the change. */
  datatype Event = Allow(now: int, stamp: int) | Success(now: int) | Failure(now: int)

  function Fresh(now: int): Breaker { Breaker(Closed, 0, 0, now, false) }

  predicate Admits(cfg: Config, b: Breaker, now: int) {
    match b.state
    case Closed => true
    case Open => now - b.lastChange > cfg.openTimeout
    case HalfOpen => !b.probe
  }

  /** One more failure on top of these counts opens a closed breaker. */
  predicate Trips(cfg: Config, failures: nat, successes: nat) {
    var total := failures + 1 + successes;
    total >= cfg.windowSize && (failures + 1) as real / total as real >= cfg.threshold
  }

  function Next(cfg: Config, b: Breaker, e: Event): Breaker {
    match e
    case Allow(now, stamp) =>
      if b.state.Open? && Admits(cfg, b, now) then b.(state := HalfOpen, lastChange := stamp, probe := true)
      else if b.state.HalfOpen? then b.(probe := true)
      else b
    case Success(now) =>
      if b.state.Closed? then b.(successes := b.successes + 1)
      else if b.state.HalfOpen? then Fresh(now)
      else b
    case Failure(now) =>
      if b.state.HalfOpen? then Breaker(Open, 0, 0, now, false)
      else if b.state.Open? then b
      else if b.failures + 1 + b.successes < cfg.windowSize then b.(failures := b.failures + 1)
      else if Trips(cfg, b.failures, b.successes) then Breaker(Open, 0, 0, now, false)
      else b.(failures := 0, successes := 0)
  }

  /** The breaker object of the source. */
  class CircuitBreaker {
    const cfg: Config
    var state: State
    var failureCount: nat
    var successCount: nat
    var lastStateChange: int
    var halfOpenProbe: bool

    function Abs(): Breaker
      reads this
    {
      Breaker(state, failureCount, successCount, lastStateChange, halfOpenProbe)
    }

    constructor (cfg: Config, now: int)
      ensures this.cfg == cfg && Abs() == Fresh(now)
    {
      this.cfg := cfg;
      state, failureCount, successCount, lastStateChange, halfOpenProbe := Closed, 0, 0, now, false;
    }

    method AllowCall(now: int, stamp: int) returns (ok: bool)
      modifies this
      ensures ok == Admits(cfg, old(Abs()), now) && Abs() == Next(cfg, old(Abs()), Allow(now, stamp))
    {
      match state
      case Closed => return true;
      case Open =>
        if now - lastStateChange > cfg.openTimeout {
          state := HalfOpen;
          lastStateChange := stamp;
          halfOpenProbe := true;
          return true;
        }
        return false;
      case HalfOpen =>
        if halfOpenProbe { return false; }
        halfOpenProbe := true;
        return true;
    }

    method RecordSuccess(now: int)
      modifies this
      ensures Abs() == Next(cfg, old(Abs()), Success(now))
    {
      match state
      case Closed => successCount := successCount + 1;
      case HalfOpen => ToClosed(now);
      case Open =>
    }

    method RecordFailure(now: int)
      modifies this
      ensures Abs() == Next(cfg, old(Abs()), Failure(now))
    {
      match state
      case Closed =>
        failureCount := failureCount + 1;
        var total := failureCount + successCount;
        if total < cfg.windowSize { return; }
        var rate := failureCount as real / total as real;
        if rate >= cfg.threshold {
          ToOpen(now);
          return;
        }
        ResetCounts();
      case HalfOpen => ToOpen(now);
      case Open =>
    }

    method ToOpen(now: int)
      modifies this
      ensures Abs() == Breaker(Open, 0, 0, now, false)
    {
      state := Open;
      lastStateChange := now;
      ResetCounts();
      halfOpenProbe := false;
    }

    method ToClosed(now: int)
      modifies this
      ensures Abs() == Fresh(now)
    {
      state := Closed;
      lastStateChange := now;
      ResetCounts();
      halfOpenProbe := false;
    }

    method ResetCounts()
      modifies this`failureCount, this`successCount
      ensures failureCount == successCount == 0
    {
      failureCount, successCount := 0, 0;
    }
  }

  // ---------------------------------------------------------------- histories

  function Run(cfg: Config, b: Breaker, es: seq<Event>): Breaker {
    if es == [] then b else Next(cfg, Run(cfg, b, es[..|es| - 1]), es[|es| - 1])
  }

  /** The event makes the breaker forget its counts. */
  predicate Resets(cfg: Config, b: Breaker, e: Event) {
    || (b.state.Closed? && e.Failure? && b.failures + 1 + b.successes >= cfg.windowSize)
    || (b.state.HalfOpen? && !e.Allow?)
  }

  /** The part of a history behind its last reset. */
  function SinceReset(cfg: Config, b: Breaker, es: seq<Event>): seq<Event> {
    if es == [] then []
    else if Resets(cfg, Run(cfg, b, es[..|es| - 1]), es[|es| - 1]) then []
    else SinceReset(cfg, b, es[..|es| - 1]) + [es[|es| - 1]]
  }

  function Failures(es: seq<Event>): nat {
    if es == [] then 0 else Failures(es[..|es| - 1]) + (if es[|es| - 1].Failure? then 1 else 0)
  }

  function Successes(es: seq<Event>): nat {
    if es == [] then 0 else Successes(es[..|es| - 1]) + (if es[|es| - 1].Success? then 1 else 0)
  }

  /** A closed breaker has counted the failures and successes of `since`, an open or half-open one
      none, and a half-open one has given its probe away.  A closed breaker with a window of at
      least one call is below it; a smaller window leaves no failure uncounted. */
  ghost predicate Counted(cfg: Config, b: Breaker, since: seq<Event>) {
    match b.state
    case Closed => b.failures == Failures(since) && b.successes == Successes(since) && !b.probe
                   && b.failures < (if cfg.windowSize >= 1 then cfg.windowSize else 1)
    case Open => b.failures == b.successes == 0 && !b.probe
    case HalfOpen => b.failures == b.successes == 0 && b.probe
  }

  lemma {:induction false} CountedStep(cfg: Config, b: Breaker, since: seq<Event>, e: Event)
    requires Counted(cfg, b, since)
    ensures Counted(cfg, Next(cfg, b, e), if Resets(cfg, b, e) then [] else since + [e])
  {
    CountsSnoc(since, e);
  }

  /** In every reachable state the counters are those of the events since the last reset, and a
      half-open breaker admits nothing. */
  lemma {:induction false} History(cfg: Config, t0: int, es: seq<Event>)
    ensures Counted(cfg, Run(cfg, Fresh(t0), es), SinceReset(cfg, Fresh(t0), es))
    ensures Run(cfg, Fresh(t0), es).state.HalfOpen? ==> forall now :: !Admits(cfg, Run(cfg, Fresh(t0), es), now)
  {
    if es != [] {
      var front, e := es[..|es| - 1], es[|es| - 1];
      History(cfg, t0, front);
      CountedStep(cfg, Run(cfg, Fresh(t0), front), SinceReset(cfg, Fresh(t0), front), e);
    }
  }

  /** A closed breaker opens exactly on a failure that fills the window and brings the share of
      failures since the last reset to the threshold; no other event opens it. */
  lemma {:induction false} OpensExactly(cfg: Config, t0: int, es: seq<Event>, e: Event)
    requires Run(cfg, Fresh(t0), es).state.Closed?
    ensures var since := SinceReset(cfg, Fresh(t0), es) + [e];
      Next(cfg, Run(cfg, Fresh(t0), es), e).state != Closed <==>
        e.Failure? && EnoughFailures(cfg, Failures(since), Failures(since) + Successes(since))
  {
    History(cfg, t0, es);
    CountsSnoc(SinceReset(cfg, Fresh(t0), es), e);
    OpensOn(cfg, Run(cfg, Fresh(t0), es), e);
  }

  lemma {:induction false} CountsSnoc(es: seq<Event>, e: Event)
    ensures Failures(es + [e]) == Failures(es) + (if e.Failure? then 1 else 0)
    ensures Successes(es + [e]) == Successes(es) + (if e.Success? then 1 else 0)
  {
    assert (es + [e])[..|es|] == es;
  }

  predicate EnoughFailures(cfg: Config, failures: nat, total: nat) {
    total >= cfg.windowSize && failures as real >= cfg.threshold * total as real
  }

  lemma {:induction false} OpensOn(cfg: Config, b: Breaker, e: Event)
    requires b.state.Closed?
    ensures Next(cfg, b, e).state != Closed <==>
      e.Failure? && EnoughFailures(cfg, b.failures + 1, b.failures + 1 + b.successes)
  {
    if e.Failure? { TripsByShare(cfg, b.failures, b.successes); }
  }

  lemma {:induction false} TripsByShare(cfg: Config, failures: nat, successes: nat)
    ensures Trips(cfg, failures, successes) <==> EnoughFailures(cfg, failures + 1, failures + 1 + successes)
  {
    Ratio(failures + 1, failures + 1 + successes, cfg.threshold);
  }

  lemma {:induction false} Ratio(f: nat, n: nat, threshold: real)
    requires n > 0
    ensures f as real / n as real >= threshold <==> f as real >= threshold * n as real
  {
    var q := f as real / n as real;
    assert q * n as real == f as real;
    if q >= threshold { Scale(threshold, q, n as real); } else { ScaleStrict(q, threshold, n as real); }
  }

  lemma {:induction false} Scale(a: real, b: real, n: real)
    requires a <= b && n > 0.0
    ensures a * n <= b * n
  {
  }

  lemma {:induction false} ScaleStrict(a: real, b: real, n: real)
    requires a < b && n > 0.0
    ensures a * n < b * n
  {
  }

  // ---------------------------------------------------------------- recovery

  lemma {:induction false} RunSnoc(cfg: Config, b: Breaker, es: seq<Event>, e: Event)
    ensures Run(cfg, b, es + [e]) == Next(cfg, Run(cfg, b, es), e)
  {
    assert (es + [e])[..|es|] == es;
  }

  /** From a half-open state a success closes the breaker with nothing counted, and it admits at
      once; a failure opens it anew, and it admits only after the timeout; nothing else leaves it. */
  lemma {:induction false} ProbeDecides(cfg: Config, t0: int, es: seq<Event>, e: Event)
    requires Run(cfg, Fresh(t0), es).state.HalfOpen?
    ensures var c := Run(cfg, Fresh(t0), es + [e]);
      match e
      case Success(now) =>
        c.state == Closed && c.failures == 0 && c.successes == 0 && forall at :: Admits(cfg, c, at)
      case Failure(now) =>
        c.state == Open && c.lastChange == now && forall at :: Admits(cfg, c, at) <==> at - now > cfg.openTimeout
      case Allow(now, stamp) => c == Run(cfg, Fresh(t0), es)
  {
    History(cfg, t0, es);
    RunSnoc(cfg, Fresh(t0), es, e);
  }

  /** An open breaker ignores successes and failures; once more than the timeout has passed, a call
      is admitted and makes it half-open, and before it changes nothing. */
  lemma {:induction false} OpenWaits(cfg: Config, t0: int, es: seq<Event>, e: Event)
    requires Run(cfg, Fresh(t0), es).state.Open?
    ensures var b := Run(cfg, Fresh(t0), es); var c := Run(cfg, Fresh(t0), es + [e]);
      match e
      case Success(_) => c == b
      case Failure(_) => c == b
      case Allow(now, stamp) =>
        && (Admits(cfg, b, now) <==> now - b.lastChange > cfg.openTimeout)
        && (if now - b.lastChange > cfg.openTimeout then c.state == HalfOpen && c.lastChange == stamp else c == b)
  {
    RunSnoc(cfg, Fresh(t0), es, e);
  }

  /** A closed breaker admits always, and stays closed unless it opens: then at the time of the
      failure. */
  lemma {:induction false} ClosedAdmits(cfg: Config, t0: int, es: seq<Event>, e: Event)
    requires Run(cfg, Fresh(t0), es).state.Closed?
    ensures var b := Run(cfg, Fresh(t0), es); var c := Run(cfg, Fresh(t0), es + [e]);
      && (forall at :: Admits(cfg, b, at)) && !c.state.HalfOpen? && (e.Allow? ==> c == b)
      && (c.state.Open? ==> e.Failure? && c.lastChange == e.now)
  {
    RunSnoc(cfg, Fresh(t0), es, e);
  }

  // ---------------------------------------------------------------- probe spacing

  /** The last time the clock was read for an event. */
  function After(e: Event): int { if e.Allow? then e.stamp else e.now }

  /** Times from `from` on never go back. */
  predicate Clocked(from: int, es: seq<Event>) {
    && (es != [] ==> from <= es[0].now)
    && (forall i :: 0 <= i < |es| ==> es[i].now <= After(es[i]))
    && (forall i :: 0 <= i < |es| - 1 ==> After(es[i]) <= es[i + 1].now)
  }

  function LastTime(from: int, es: seq<Event>): int { if es == [] then from else After(es[|es| - 1]) }

  /** How many calls a run admits. */
  function Admitted(cfg: Config, b: Breaker, es: seq<Event>): nat {
    if es == [] then 0
    else
      var front, e := es[..|es| - 1], es[|es| - 1];
      Admitted(cfg, b, front) + (if e.Allow? && Admits(cfg, Run(cfg, b, front), e.now) then 1 else 0)
  }

  /** More than k timeouts after t, or not before t when k is 0. */
  predicate Later(t: int, k: nat, timeout: int, x: int) {
    if k == 0 then x >= t else x > t + k * timeout
  }

  /** Once open, and as long as no success is recorded, k further admitted calls take more than k
      times the open timeout. */
  lemma {:induction false} ProbeSpacing(cfg: Config, b: Breaker, es: seq<Event>)
    requires b.state.Open? && Clocked(b.lastChange, es)
    requires forall i :: 0 <= i < |es| ==> !es[i].Success?
    ensures var k := Admitted(cfg, b, es); var c := Run(cfg, b, es);
      && Later(b.lastChange, k, cfg.openTimeout, LastTime(b.lastChange, es))
      && !c.state.Closed?
      && (c.state.Open? ==> Later(b.lastChange, k, cfg.openTimeout, c.lastChange))
      && (c.state.HalfOpen? ==> c.probe)
  {
    if es != [] {
      var front, e := es[..|es| - 1], es[|es| - 1];
      ProbeSpacing(cfg, b, front);
      if front != [] { assert After(es[|front| - 1]) <= es[|front|].now; }
      LaterStill(b.lastChange, Admitted(cfg, b, front), cfg.openTimeout, LastTime(b.lastChange, front), e.now);
      SpacedOut(cfg, b.lastChange, Admitted(cfg, b, front), Run(cfg, b, front), e);
    }
  }

  lemma {:induction false} LaterStill(t: int, k: nat, timeout: int, x: int, y: int)
    requires Later(t, k, timeout, x) && x <= y
    ensures Later(t, k, timeout, y)
  {
  }

  /** One more event that is no success. */
  lemma {:induction false} SpacedOut(cfg: Config, t: int, k: nat, c: Breaker, e: Event)
    requires e.now <= After(e) && !e.Success? && !c.state.Closed? && (c.state.HalfOpen? ==> c.probe)
    requires Later(t, k, cfg.openTimeout, e.now)
    requires c.state.Open? ==> Later(t, k, cfg.openTimeout, c.lastChange)
    ensures var admitted := e.Allow? && Admits(cfg, c, e.now);
      var d := Next(cfg, c, e);
      var n := if admitted then k + 1 else k;
      && Later(t, n, cfg.openTimeout, After(e)) && !d.state.Closed? && (d.state.HalfOpen? ==> d.probe)
      && (d.state.Open? ==> Later(t, n, cfg.openTimeout, d.lastChange))
  {
    assert (k + 1) * cfg.openTimeout == k * cfg.openTimeout + cfg.openTimeout;
  }

  // ---------------------------------------------------------------- the calling side

  /** An admitted invocation: n requests under one admission (a single call has n = 1). */
  datatype Call = Call(n: nat, pc: CallPc, outcomes: nat)

  datatype CallPc =
    | Pending             // admitted, not yet sent
    | InFlight(left: nat) // sent; futures still open
    | Settled             // every outcome recorded
    | Leaked              // arguments did not marshal: nothing is ever recorded

  /** `prober` is the call that took the probe when the breaker last went half-open. */
  datatype System = System(breaker: Breaker, calls: seq<Call>, prober: nat)

  datatype Action =
    | Ask(n: nat, now: int, stamp: int)
    | AcquireFails(i: nat, now: int)
    | MarshalFails(i: nat)
    | SendFails(i: nat, now: int)
    | Send(i: nat)
    | Complete(i: nat, ok: bool, now: int)

  predicate Enabled(s: System, a: Action) {
    match a
    case Ask(n, _, _) => n > 0
    case AcquireFails(i, _) => i < |s.calls| && s.calls[i].pc.Pending?
    case MarshalFails(i) => i < |s.calls| && s.calls[i].pc.Pending?
    case SendFails(i, _) => i < |s.calls| && s.calls[i].pc.Pending?
    case Send(i) => i < |s.calls| && s.calls[i].pc.Pending?
    case Complete(i, _, _) => i < |s.calls| && s.calls[i].pc.InFlight? && s.calls[i].pc.left > 0
  }

  function FailsNow(cfg: Config, s: System, i: nat, now: int): System
    requires i < |s.calls|
  {
    s.(breaker := Next(cfg, s.breaker, Failure(now)),
       calls := s.calls[i := s.calls[i].(pc := Settled, outcomes := s.calls[i].outcomes + 1)])
  }

  function Act(cfg: Config, s: System, a: Action): System
    requires Enabled(s, a)
  {
    match a
    case Ask(n, now, stamp) =>
      var b := Next(cfg, s.breaker, Allow(now, stamp));
      if !Admits(cfg, s.breaker, now) then s.(breaker := b)
      else System(b, s.calls + [Call(n, Pending, 0)], if b.state.HalfOpen? then |s.calls| else s.prober)
    case AcquireFails(i, now) => FailsNow(cfg, s, i, now)
    case MarshalFails(i) => s.(calls := s.calls[i := s.calls[i].(pc := Leaked)])
    case SendFails(i, now) => FailsNow(cfg, s, i, now)
    case Send(i) => s.(calls := s.calls[i := s.calls[i].(pc := InFlight(s.calls[i].n))])
    case Complete(i, ok, now) =>
      var c := s.calls[i];
      s.(breaker := Next(cfg, s.breaker, if ok then Success(now) else Failure(now)),
         calls := s.calls[i := Call(c.n, if c.pc.left == 1 then Settled else InFlight(c.pc.left - 1), c.outcomes + 1)])
  }

  predicate CanAct(cfg: Config, s: System, acts: seq<Action>)
    decreases |acts|
  {
    acts == [] || (Enabled(s, acts[0]) && CanAct(cfg, Act(cfg, s, acts[0]), acts[1..]))
  }

  function ActAll(cfg: Config, s: System, acts: seq<Action>): System
    requires CanAct(cfg, s, acts)
    decreases |acts|
  {
    if acts == [] then s else ActAll(cfg, Act(cfg, s, acts[0]), acts[1..])
  }

  predicate Outstanding(c: Call) { c.pc.Pending? || c.pc.InFlight? }

  ghost predicate Inv(s: System) {
    && (s.breaker.state.HalfOpen? ==> s.breaker.probe && s.prober < |s.calls|)
    && (s.breaker.state.HalfOpen? ==> !s.calls[s.prober].pc.Settled? && s.calls[s.prober].outcomes == 0)
    && forall i :: 0 <= i < |s.calls| ==>
         var c := s.calls[i];
         && c.n > 0
         && (c.pc.Pending? || c.pc.Leaked? ==> c.outcomes == 0)
         && (c.pc.InFlight? ==> 0 < c.pc.left && c.outcomes + c.pc.left == c.n)
         && (c.pc.Settled? ==> c.outcomes == 1 || c.outcomes == c.n)
  }

  lemma {:induction false} ActKeepsInv(cfg: Config, s: System, a: Action)
    requires Inv(s) && Enabled(s, a)
    ensures Inv(Act(cfg, s, a))
  {
  }

  lemma {:induction false} RunKeepsInv(cfg: Config, s: System, acts: seq<Action>)
    requires Inv(s) && CanAct(cfg, s, acts)
    ensures Inv(ActAll(cfg, s, acts))
    decreases |acts|
  {
    if acts != [] {
      ActKeepsInv(cfg, s, acts[0]);
      RunKeepsInv(cfg, Act(cfg, s, acts[0]), acts[1..]);
    }
  }

  function Start(t0: int): System { System(Fresh(t0), [], 0) }

  /** A single invocation that was admitted and got past marshalling records exactly one outcome
      by the time it is through; one that did not marshal never records any. */
  lemma {:induction false} OneOutcome(cfg: Config, t0: int, acts: seq<Action>, i: nat)
    requires CanAct(cfg, Start(t0), acts) && i < |ActAll(cfg, Start(t0), acts).calls|
    requires ActAll(cfg, Start(t0), acts).calls[i].n == 1 && !Outstanding(ActAll(cfg, Start(t0), acts).calls[i])
    ensures var c := ActAll(cfg, Start(t0), acts).calls[i];
      c.outcomes == if c.pc.Leaked? then 0 else 1
  {
    RunKeepsInv(cfg, Start(t0), acts);
  }

  /** What recording a success, or a failure, does to a breaker. */
  predicate Recorded(b: Breaker, ok: bool, c: Breaker) {
    match b.state
    case Open => c == b
    case HalfOpen => c.state == (if ok then Closed else Open) && c.failures == c.successes == 0
    case Closed =>
      if ok then c.state.Closed? && c.successes == b.successes + 1 && c.failures == b.failures
      else c.state.Open? || (c.state.Closed? && c.failures == b.failures + 1 && c.successes == b.successes)
           || (c.state.Closed? && c.failures == c.successes == 0)
  }

  /** A completed request records a success exactly if it ended without an error; a call that gets
      no connection, or that cannot be sent, records a failure; marshalling and sending record
      nothing, and a call is refused exactly if the breaker does not admit it. */
  lemma {:induction false} OutcomeRecorded(cfg: Config, t0: int, acts: seq<Action>, a: Action)
    requires CanAct(cfg, Start(t0), acts) && Enabled(ActAll(cfg, Start(t0), acts), a)
    ensures var s := ActAll(cfg, Start(t0), acts); var t := Act(cfg, s, a);
      match a
      case Complete(i, ok, _) => Recorded(s.breaker, ok, t.breaker) && t.calls[i].outcomes == s.calls[i].outcomes + 1
      case AcquireFails(i, _) => Recorded(s.breaker, false, t.breaker) && t.calls[i].outcomes == 1
      case SendFails(i, _) => Recorded(s.breaker, false, t.breaker) && t.calls[i].outcomes == 1
      case MarshalFails(_) => t.breaker == s.breaker
      case Send(_) => t.breaker == s.breaker
      case Ask(_, now, _) => |t.calls| == |s.calls| + if Admits(cfg, s.breaker, now) then 1 else 0
  {
    RunKeepsInv(cfg, Start(t0), acts);
  }

  /** When all calls are through, the breaker is half-open only if the call that took the probe
      failed to marshal. */
  lemma {:induction false} ProbeSettles(cfg: Config, t0: int, acts: seq<Action>)
    requires CanAct(cfg, Start(t0), acts)
    requires var s := ActAll(cfg, Start(t0), acts); forall i :: 0 <= i < |s.calls| ==> !Outstanding(s.calls[i])
    ensures var s := ActAll(cfg, Start(t0), acts);
      s.breaker.state.HalfOpen? ==> s.prober < |s.calls| && s.calls[s.prober].pc.Leaked?
  {
    RunKeepsInv(cfg, Start(t0), acts);
  }

  /** A breaker left half-open with nothing outstanding rejects every call from then on. */
  lemma {:induction false} StuckForEver(cfg: Config, s: System, acts: seq<Action>)
    requires Inv(s) && s.breaker.state.HalfOpen? && CanAct(cfg, s, acts)
    requires forall i :: 0 <= i < |s.calls| ==> !Outstanding(s.calls[i])
    ensures ActAll(cfg, s, acts) == s
    decreases |acts|
  {
    if acts != [] {
      assert acts[0].Ask?;
      StuckForEver(cfg, Act(cfg, s, acts[0]), acts[1..]);
    }
  }

  lemma {:induction false} OneAct(cfg: Config, s: System, a: Action)
    requires Enabled(s, a)
    ensures CanAct(cfg, s, [a]) && ActAll(cfg, s, [a]) == Act(cfg, s, a)
  {
    assert [a][1..] == [] && CanAct(cfg, Act(cfg, s, a), []);
  }

  /** A half-open breaker stays so in every continuation exactly if no call is outstanding; and
      then the probe is one whose arguments did not marshal. */
  lemma {:induction false} StuckExactly(cfg: Config, s: System)
    requires Inv(s) && s.breaker.state.HalfOpen?
    ensures (forall acts: seq<Action> :: CanAct(cfg, s, acts) ==> ActAll(cfg, s, acts).breaker.state.HalfOpen?)
       <==> (forall i :: 0 <= i < |s.calls| ==> !Outstanding(s.calls[i]))
    ensures (forall i :: 0 <= i < |s.calls| ==> !Outstanding(s.calls[i])) ==> s.calls[s.prober].pc.Leaked?
  {
    if i :| 0 <= i < |s.calls| && Outstanding(s.calls[i]) {
      var a := if s.calls[i].pc.Pending? then SendFails(i, 0) else Complete(i, true, 0);
      assert Enabled(s, a) && !Act(cfg, s, a).breaker.state.HalfOpen?;
      OneAct(cfg, s, a);
    } else {
      forall acts: seq<Action> | CanAct(cfg, s, acts) ensures ActAll(cfg, s, acts).breaker.state.HalfOpen? {
        StuckForEver(cfg, s, acts);
      }
    }
  }

  /** From a half-open breaker whose probe is the only call outstanding, with no other call asked:
      however that call ends, once it is through the breaker is half-open exactly when the
      arguments of the probe did not marshal. */
  lemma {:induction false} LoneProbe(cfg: Config, s: System, acts: seq<Action>)
    requires Inv(s) && s.breaker.state.HalfOpen? && CanAct(cfg, s, acts)
    requires forall i :: 0 <= i < |s.calls| ==> (Outstanding(s.calls[i]) <==> i == s.prober)
    requires var t := ActAll(cfg, s, acts); forall i :: 0 <= i < |t.calls| ==> !Outstanding(t.calls[i])
    requires forall k :: 0 <= k < |acts| ==> !acts[k].Ask?
    ensures var t := ActAll(cfg, s, acts);
      && s.prober < |t.calls|
      && (t.breaker.state.HalfOpen? <==> t.calls[s.prober].pc.Leaked?)
    decreases |acts|
  {
    var t := Act(cfg, s, acts[0]);
    ActKeepsInv(cfg, s, acts[0]);
    assert ActAll(cfg, s, acts) == ActAll(cfg, t, acts[1..]);
    if t.breaker.state.HalfOpen? && t.calls[s.prober].pc.InFlight? {
      LoneProbe(cfg, t, acts[1..]);
    } else {
      Unasked(cfg, t, acts[1..], s.prober);
    }
  }

  /** Without a new admission the breaker cannot become half-open, and a call that is through
      stays as it is. */
  lemma {:induction false} Unasked(cfg: Config, s: System, acts: seq<Action>, p: nat)
    requires Inv(s) && CanAct(cfg, s, acts) && p < |s.calls|
    requires forall k :: 0 <= k < |acts| ==> !acts[k].Ask?
    requires forall i :: 0 <= i < |s.calls| && i != p ==> !Outstanding(s.calls[i])
    requires s.breaker.state.HalfOpen? <==> s.calls[p].pc.Leaked?
    requires !s.calls[p].pc.Pending?
    ensures var t := ActAll(cfg, s, acts);
      p < |t.calls| && (t.breaker.state.HalfOpen? <==> t.calls[p].pc.Leaked?)
    decreases |acts|
  {
    if acts != [] {
      ActKeepsInv(cfg, s, acts[0]);
      Unasked(cfg, Act(cfg, s, acts[0]), acts[1..], p);
    }
  }

  /** The loss is real: one failed call opens a breaker of window 1, the probe after the timeout
      does not marshal, and the breaker stays half-open. */
  lemma {:induction false} LeakedProbe()
    ensures var cfg := Config(1, 0.6, 5);
      var acts := [Ask(1, 0, 0), SendFails(0, 1), Ask(1, 7, 7), MarshalFails(1)];
      && CanAct(cfg, Start(0), acts)
      && ActAll(cfg, Start(0), acts).breaker.state.HalfOpen?
      && forall i :: 0 <= i < |ActAll(cfg, Start(0), acts).calls| ==> !Outstanding(ActAll(cfg, Start(0), acts).calls[i])
  {
    var cfg := Config(1, 0.6, 5);
    var s1 := Act(cfg, Start(0), Ask(1, 0, 0));
    var s2 := Act(cfg, s1, SendFails(0, 1));
    assert Trips(cfg, 0, 0);
    assert s2.breaker == Breaker(Open, 0, 0, 1, false);
    var s3 := Act(cfg, s2, Ask(1, 7, 7));
    var s4 := Act(cfg, s3, MarshalFails(1));
    assert CanAct(cfg, s4, []);
    assert CanAct(cfg, s3, [MarshalFails(1)]);
    assert CanAct(cfg, s2, [Ask(1, 7, 7), MarshalFails(1)]);
    assert CanAct(cfg, s1, [SendFails(0, 1), Ask(1, 7, 7), MarshalFails(1)]);
  }
}
