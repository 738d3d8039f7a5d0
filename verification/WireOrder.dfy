/** What is on the wire: whole payloads, each carried by one flush, at their places, in real-time
    order. */
module WireOrder {
  import opened Basics
  import opened GroupCommit

  // ---------------------------------------------------------------- byte integrity

  predicate NoFailure(s: State) {
    forall i :: 0 <= i < |s.blocks| ==> s.blocks[i].outcome in {Running, Done(None)}
  }

  /** The flushes that have ended. */
  function Ended(s: State): seq<Block> {
    if |s.blocks| > 0 && s.blocks[|s.blocks| - 1].outcome.Running? then s.blocks[..|s.blocks| - 1] else s.blocks
  }

  lemma {:induction false} WholeBlocks(s: State, n: nat)
    requires n <= |s.blocks|
    requires forall i :: 0 <= i < n ==> BlockOk(s, i) && s.blocks[i].outcome == Done(None)
    ensures WireOf(s.blocks[..n]) == Payload(s.payloads, Carried(s.blocks[..n]))
  {
    if n > 0 {
      assert BlockOk(s, n - 1);
      assert s.blocks[..n][..n - 1] == s.blocks[..n - 1];
      SentWhole(s.blocks[n - 1]);
      WholeBlocks(s, n - 1);
      PayloadConcat(s.payloads, Carried(s.blocks[..n - 1]), s.blocks[n - 1].members);
    }
  }

  lemma {:induction false} EndedWhole(s: State)
    requires Inv(s) && NoFailure(s)
    ensures forall i :: 0 <= i < |Ended(s)| ==> BlockOk(s, i) && s.blocks[i].outcome == Done(None)
    ensures Ended(s) == s.blocks[..|Ended(s)|] && |Ended(s)| >= |s.blocks| - 1
    ensures WireOf(Ended(s)) == Payload(s.payloads, Carried(Ended(s)))
  {
    var n := |Ended(s)|;
    forall i | 0 <= i < n ensures BlockOk(s, i) && s.blocks[i].outcome == Done(None) { assert BlockOk(s, i); }
    assert s.blocks[..n] == Ended(s);
    WholeBlocks(s, n);
  }

  /** The block in flight is the beginning of what comes next in lock order. */
  lemma {:induction false} InFlight(s: State)
    requires Inv(s) && Ended(s) != s.blocks
    ensures var x := s.blocks[|s.blocks| - 1];
      && s.wire == WireOf(Ended(s)) + SentBytes(x) && Carried(s.blocks) == Carried(Ended(s)) + x.members
      && SentBytes(x) <= Payload(s.payloads, x.members)
  {
    assert BlockOk(s, |s.blocks| - 1);
  }

  /** While no flush has failed, the wire holds the payloads of the ended flushes whole and in
      the order in which their calls took the lock, then a prefix of the block in flight; so it
      is a prefix of all payloads in lock order. */
  lemma {:induction false} Integrity(acts: seq<Action>)
    requires CanRun(INIT, acts) && NoFailure(Run(INIT, acts))
    ensures var s := Run(INIT, acts);
      && Distinct(s.arrivals) && Carried(Ended(s)) <= s.arrivals
      && s.wire == Payload(s.payloads, Carried(Ended(s)))
           + (if Ended(s) == s.blocks then [] else SentBytes(s.blocks[|s.blocks| - 1]))
      && s.wire <= Payload(s.payloads, s.arrivals)
  {
    var s := Run(INIT, acts);
    Reachable(acts);
    EndedWhole(s);
    PayloadConcat(s.payloads, Carried(s.blocks), Waiters(s));
    if Ended(s) != s.blocks {
      InFlight(s);
      PayloadConcat(s.payloads, Carried(Ended(s)), s.blocks[|s.blocks| - 1].members);
    }
  }

  /** The first position of c, or the length. */
  function IndexOf(members: seq<CallId>, c: CallId): nat {
    if members == [] || members[0] == c then 0 else 1 + IndexOf(members[1..], c)
  }

  lemma {:induction false} IndexFound(members: seq<CallId>, c: CallId)
    ensures IndexOf(members, c) <= |members| && c !in members[..IndexOf(members, c)]
    ensures c in members <==> IndexOf(members, c) < |members|
    ensures c in members ==> members[IndexOf(members, c)] == c
  {
    if members != [] && members[0] != c {
      IndexFound(members[1..], c);
      assert members[..IndexOf(members, c)] == [members[0]] + members[1..][..IndexOf(members[1..], c)];
    }
  }

  lemma {:induction false} IndexWithin(members: seq<CallId>, more: seq<CallId>, a: CallId, b: CallId)
    requires members <= more && a in members && b !in members
    ensures IndexOf(more, a) < IndexOf(more, b)
  {
    if members[0] != a { IndexWithin(members[1..], more[1..], a, b); }
  }

  /** Where on the wire the bytes of a carried call begin. */
  function Start(s: State, c: CallId): nat
    requires c < |s.places| && Carrier(s, c).Some? && Carrier(s, c).value < |s.blocks|
    requires c in s.blocks[Carrier(s, c).value].members
  {
    var i := Carrier(s, c).value;
    IndexFound(s.blocks[i].members, c);
    |WireOf(s.blocks[..i])| + |Payload(s.payloads, s.blocks[i].members[..IndexOf(s.blocks[i].members, c)])|
  }

  /** Every call that has returned with bytes to send has one carrying flush. */
  lemma {:induction false} CarrierOf(s: State, c: CallId)
    requires Inv(s) && c < |s.pcs| && s.pcs[c].Returned? && |s.payloads[c]| > 0
    ensures Carrier(s, c).Some? && Carrier(s, c).value < |s.blocks|
    ensures c in s.blocks[Carrier(s, c).value].members
    ensures s.blocks[Carrier(s, c).value].outcome == Done(s.pcs[c].result)
  {
    assert CallOk(s, c);
    if s.places[c].Shared? { assert BatchOk(s, s.places[c].batch); }
  }

  lemma {:induction false} CarriedAt(blocks: seq<Block>, i: nat, c: CallId)
    requires i < |blocks| && c in blocks[i].members
    ensures c in Carried(blocks) && (i < |blocks| - 1 ==> c in Carried(blocks[..|blocks| - 1]))
  {
    if i < |blocks| - 1 {
      CarriedAt(blocks[..|blocks| - 1], i, c);
    }
  }

  lemma {:induction false} DistinctParts(a: seq<CallId>, b: seq<CallId>)
    requires Distinct(a + b)
    ensures Distinct(a) && Distinct(b)
    ensures forall x :: x in a ==> x !in b
  {
    forall i, j | 0 <= i < j < |a| ensures a[i] != a[j] { assert (a + b)[i] != (a + b)[j]; }
    forall i, j | 0 <= i < j < |b| ensures b[i] != b[j] { assert (a + b)[|a| + i] != (a + b)[|a| + j]; }
    forall i, j | 0 <= i < |a| && 0 <= j < |b| ensures a[i] != b[j] { assert (a + b)[i] != (a + b)[|a| + j]; }
  }

  lemma {:induction false} OneCarrier(blocks: seq<Block>, i: nat, j: nat, c: CallId)
    requires Distinct(Carried(blocks))
    requires i <= j < |blocks| && c in blocks[i].members && c in blocks[j].members
    ensures i == j
  {
    assert Carried(blocks) == Carried(blocks[..|blocks| - 1]) + blocks[|blocks| - 1].members;
    DistinctParts(Carried(blocks[..|blocks| - 1]), blocks[|blocks| - 1].members);
    if j < |blocks| - 1 {
      OneCarrier(blocks[..|blocks| - 1], i, j, c);
    } else if i < j {
      CarriedAt(blocks, i, c);
      assert false;
    }
  }

  /** Each call gets the outcome of the flush that carried its own bytes, and there is exactly
      one such flush; the call occurs in it once. */
  lemma {:induction false} Attribution(acts: seq<Action>, c: CallId)
    requires CanRun(INIT, acts) && c < |Run(INIT, acts).pcs|
    requires Run(INIT, acts).pcs[c].Returned? && c < |Run(INIT, acts).payloads| && |Run(INIT, acts).payloads[c]| > 0
    ensures var s := Run(INIT, acts);
      exists i :: 0 <= i < |s.blocks|
        && (forall j :: 0 <= j < |s.blocks| ==> (c in s.blocks[j].members <==> j == i))
        && s.blocks[i].outcome == Done(s.pcs[c].result)
        && multiset(s.blocks[i].members)[c] == 1
  {
    var s := Run(INIT, acts);
    Reachable(acts);
    CarrierOf(s, c);
    var i := Carrier(s, c).value;
    DistinctParts(Carried(s.blocks), Waiters(s));
    forall j | 0 <= j < |s.blocks| && c in s.blocks[j].members ensures j == i {
      OneCarrier(s.blocks, if i < j then i else j, if i < j then j else i, c);
    }
    MembersDistinct(s.blocks, i);
    CountOnce(s.blocks[i].members, c);
  }

  lemma {:induction false} MembersDistinct(blocks: seq<Block>, i: nat)
    requires Distinct(Carried(blocks))
    requires i < |blocks|
    ensures Distinct(blocks[i].members)
  {
    assert Carried(blocks) == Carried(blocks[..|blocks| - 1]) + blocks[|blocks| - 1].members;
    DistinctParts(Carried(blocks[..|blocks| - 1]), blocks[|blocks| - 1].members);
    if i < |blocks| - 1 {
      MembersDistinct(blocks[..|blocks| - 1], i);
    }
  }

  lemma {:induction false} CountOnce(members: seq<CallId>, c: CallId)
    requires c in members
    requires Distinct(members)
    ensures multiset(members)[c] == 1
  {
    var k := IndexOf(members, c);
    IndexFound(members, c);
    assert members == members[..k] + [c] + members[k + 1..];
    assert c !in members[k + 1..];
  }

  // ---------------------------------------------------------------- errors

  /** Every error of a flush was reported by a write on the socket. */
  ghost predicate ErrorsReported(acts: seq<Action>, s: State) {
    forall i, e: Error :: 0 <= i < |s.blocks| && s.blocks[i].outcome == Done(Some(e)) ==> Reported(acts, e)
  }

  ghost predicate Reported(acts: seq<Action>, e: Error) {
    exists k :: 0 <= k < |acts| && acts[k].SocketWrite? && acts[k].err == Some(e)
  }

  lemma {:induction false} StepReported(done: seq<Action>, s: State, a: Action)
    requires ErrorsReported(done, s) && Enabled(s, a)
    ensures ErrorsReported(done + [a], Next(s, a))
  {
    var t := Next(s, a);
    forall i, e: Error | 0 <= i < |t.blocks| && t.blocks[i].outcome == Done(Some(e)) ensures Reported(done + [a], e) {
      if i < |s.blocks| && s.blocks[i].outcome == Done(Some(e)) {
        var k :| 0 <= k < |done| && done[k].SocketWrite? && done[k].err == Some(e);
        assert (done + [a])[k] == done[k];
      } else {
        assert (done + [a])[|done|] == a;
      }
    }
  }

  lemma {:induction false} RunReported(done: seq<Action>, s: State, acts: seq<Action>)
    requires ErrorsReported(done, s) && CanRun(s, acts)
    ensures ErrorsReported(done + acts, Run(s, acts))
    decreases |acts|
  {
    if acts == [] {
      assert done + acts == done;
    } else {
      StepReported(done, s, acts[0]);
      RunReported(done + [acts[0]], Next(s, acts[0]), acts[1..]);
      assert (done + [acts[0]]) + acts[1..] == done + acts;
    }
  }

  /** A call returns an error only if a write on the socket reported it. */
  lemma {:induction false} ErrorIsSockets(acts: seq<Action>, c: CallId, e: Error)
    requires CanRun(INIT, acts) && c < |Run(INIT, acts).pcs| && Run(INIT, acts).pcs[c] == Returned(Some(e))
    ensures Reported(acts, e)
  {
    Reachable(acts);
    var s := Run(INIT, acts);
    assert CallOk(s, c);
    RunReported([], INIT, acts);
    assert [] + acts == acts;
    assert s.blocks[Carrier(s, c).value].outcome == Done(Some(e));
  }

  /** And when one does, every call whose bytes the flush carries returns exactly that error. */
  lemma {:induction false} ErrorReachesAll(acts: seq<Action>, l: CallId, n: nat, e: Error, later: seq<Action>,
                                           c: CallId)
    requires CanRun(INIT, acts) && Enabled(Run(INIT, acts), SocketWrite(l, n, Some(e)))
    requires var t := Next(Run(INIT, acts), SocketWrite(l, n, Some(e)));
      CanRun(t, later) && c < |Run(t, later).pcs| && c in t.blocks[|t.blocks| - 1].members
    ensures var u := Run(Next(Run(INIT, acts), SocketWrite(l, n, Some(e))), later);
      u.pcs[c].Returned? ==> u.pcs[c].result == Some(e)
  {
    var s := Run(INIT, acts);
    var t := Next(s, SocketWrite(l, n, Some(e)));
    var u := Run(t, later);
    Reachable(acts);
    StepKeepsInv(s, SocketWrite(l, n, Some(e)));
    RunKeepsInv(t, later);
    RunExtends(t, later);
    var i := |t.blocks| - 1;
    assert u.blocks[i].members == t.blocks[i].members && u.blocks[i] == t.blocks[i];
    assert u.blocks[i].outcome == Done(Some(e));
    if u.pcs[c].Returned? { CarriedBy(u, i, c); }
  }

  /** The flush that has a call among its members carries it. */
  lemma {:induction false} CarriedBy(u: State, i: nat, c: CallId)
    requires Inv(u) && i < |u.blocks| && c in u.blocks[i].members && c < |u.pcs| && u.pcs[c].Returned?
    ensures u.blocks[i].outcome == Done(u.pcs[c].result)
  {
    CarriedAt(u.blocks, i, c);
    assert c in u.arrivals && CallOk(u, c);
    DistinctParts(Carried(u.blocks), Waiters(u));
    var j := Carrier(u, c).value;
    if u.places[c].Shared? { assert BatchOk(u, u.places[c].batch); }
    OneCarrier(u.blocks, if i < j then i else j, if i < j then j else i, c);
  }

  // ---------------------------------------------------------------- places on the wire

  lemma {:induction false} WireSplit(blocks: seq<Block>, i: nat)
    requires i < |blocks|
    ensures |WireOf(blocks[..i])| + |SentBytes(blocks[i])| <= |WireOf(blocks)|
    ensures WireOf(blocks)[|WireOf(blocks[..i])|..][..|SentBytes(blocks[i])|] == SentBytes(blocks[i])
  {
    var front := blocks[..|blocks| - 1];
    if i < |front| {
      assert front[..i] == blocks[..i];
      WireSplit(front, i);
      assert WireOf(blocks) == WireOf(front) + SentBytes(blocks[|blocks| - 1]);
    } else {
      assert front == blocks[..i];
    }
  }

  /** The bytes of call c stand whole on the wire, at Start. */
  ghost predicate OnWire(s: State, c: CallId) {
    && c < |s.places| && c < |s.payloads| && Carrier(s, c).Some? && Carrier(s, c).value < |s.blocks|
    && c in s.blocks[Carrier(s, c).value].members
    && Start(s, c) + |s.payloads[c]| <= |s.wire|
    && s.wire[Start(s, c)..Start(s, c) + |s.payloads[c]|] == s.payloads[c]
  }

  lemma {:induction false} CarriedWhole(s: State, c: CallId)
    requires Inv(s) && c < |s.pcs| && s.pcs[c] == Returned(None) && |s.payloads[c]| > 0
    ensures OnWire(s, c)
  {
    CarrierOf(s, c);
    assert BlockOk(s, Carrier(s, c).value);
    WholeOfCall(s, c);
  }

  lemma {:induction false} WholeOfCall(s: State, c: CallId)
    requires c < |s.places| && c < |s.payloads| && Carrier(s, c).Some? && Carrier(s, c).value < |s.blocks|
    requires BlockOk(s, Carrier(s, c).value) && s.blocks[Carrier(s, c).value].outcome == Done(None)
    requires c in s.blocks[Carrier(s, c).value].members && s.wire == WireOf(s.blocks)
    ensures OnWire(s, c)
  {
    var i := Carrier(s, c).value;
    IndexFound(s.blocks[i].members, c);
    WholeInFlush(s.payloads, s.blocks, i, IndexOf(s.blocks[i].members, c));
  }

  lemma {:induction false} SentWhole(x: Block)
    requires x.sent == |x.data|
    ensures SentBytes(x) == x.data
  {
  }

  /** A flush that sent all its bytes has each of its payloads whole on the wire. */
  lemma {:induction false} WholeInFlush(payloads: seq<seq<byte>>, blocks: seq<Block>, i: nat, k: nat)
    requires i < |blocks| && k < |blocks[i].members| && blocks[i].members[k] < |payloads|
    requires blocks[i].data == Payload(payloads, blocks[i].members) && blocks[i].sent == |blocks[i].data|
    ensures var at := |WireOf(blocks[..i])| + |Payload(payloads, blocks[i].members[..k])|;
      var p := payloads[blocks[i].members[k]];
      at + |p| <= |WireOf(blocks)| && WireOf(blocks)[at..at + |p|] == p
  {
    WireSplit(blocks, i);
    SentWhole(blocks[i]);
    WholeInData(WireOf(blocks), |WireOf(blocks[..i])|, payloads, blocks[i].members, k);
  }

  lemma {:induction false} WholeInData(wire: seq<byte>, at: nat, payloads: seq<seq<byte>>, members: seq<CallId>, k: nat)
    requires k < |members| && members[k] < |payloads|
    requires var data := Payload(payloads, members); at + |data| <= |wire| && wire[at..][..|data|] == data
    ensures var off := |Payload(payloads, members[..k])|; var p := payloads[members[k]];
      at + off + |p| <= |wire| && wire[at + off..at + off + |p|] == p
  {
    PayloadAt(payloads, members, k);
    Within(wire, at, Payload(payloads, members), |Payload(payloads, members[..k])|, payloads[members[k]]);
  }

  lemma {:induction false} Within(wire: seq<byte>, at: nat, data: seq<byte>, off: nat, p: seq<byte>)
    requires at + |data| <= |wire| && wire[at..][..|data|] == data
    requires off + |p| <= |data| && data[off..off + |p|] == p
    ensures at + off + |p| <= |wire| && wire[at + off..at + off + |p|] == p
  {
    assert data[off..off + |p|] == wire[at..][..|data|][off..off + |p|];
  }

  /** A call that returned without error has its bytes whole on the wire, whatever happened to
      other flushes before or after. */
  lemma {:induction false} Delivered(acts: seq<Action>, c: CallId)
    requires CanRun(INIT, acts) && c < |Run(INIT, acts).pcs| && c < |Run(INIT, acts).payloads|
    requires Run(INIT, acts).pcs[c] == Returned(None) && |Run(INIT, acts).payloads[c]| > 0
    ensures OnWire(Run(INIT, acts), c)
  {
    Reachable(acts);
    CarriedWhole(Run(INIT, acts), c);
  }

  lemma {:induction false} PayloadAt(payloads: seq<seq<byte>>, members: seq<CallId>, k: nat)
    requires k < |members| && members[k] < |payloads|
    ensures var off := |Payload(payloads, members[..k])|; var p := payloads[members[k]];
      off + |p| <= |Payload(payloads, members)| && Payload(payloads, members)[off..off + |p|] == p
  {
    assert members == members[..k] + ([members[k]] + members[k + 1..]);
    PayloadConcat(payloads, members[..k], [members[k]] + members[k + 1..]);
    PayloadConcat(payloads, [members[k]], members[k + 1..]);
    assert Payload(payloads, [members[k]]) == payloads[members[k]];
  }

  // ---------------------------------------------------------------- real-time order

  /** What later states keep of an earlier one: history only grows, ended flushes are final,
      and a detached batch is never appended to again. */
  ghost predicate Extends(s: State, t: State) {
    && |s.payloads| == |s.pcs| == |s.places| <= |t.payloads| == |t.pcs| == |t.places|
    && s.payloads <= t.payloads && s.arrivals <= t.arrivals && s.wire <= t.wire
    && |s.blocks| <= |t.blocks| && |s.batches| <= |t.batches|
    && (forall i :: 0 <= i < |s.blocks| ==>
          && t.blocks[i].members == s.blocks[i].members && t.blocks[i].data == s.blocks[i].data
          && (s.blocks[i].outcome.Done? ==> t.blocks[i] == s.blocks[i]))
    && (forall b :: 0 <= b < |s.batches| && s.batches[b].block.Some? ==>
          && t.batches[b].block == s.batches[b].block && t.batches[b].members == s.batches[b].members
          && (s.batches[b].closed ==> t.batches[b].closed)
          && (t.batches[b].buf == s.batches[b].buf || t.batches[b].closed))
    && (forall c :: 0 <= c < |s.pcs| && s.pcs[c].Returned? ==> t.pcs[c] == s.pcs[c])
    && (forall c :: 0 <= c < |s.places| && s.places[c] != Nowhere ==> t.places[c] == s.places[c])
  }

  lemma {:induction false} StepExtends(s: State, a: Action)
    requires Inv(s) && Enabled(s, a)
    ensures Extends(s, Next(s, a))
  {
    var t := Next(s, a);
    match a
    case Invoke(_) =>
    case Enter(c) => EnterExtends(s, c);
    case SocketWrite(c, _, _) => FlushStepExtends(s, a);
    case FlushEnd(c) => FlushStepExtends(s, a);
    case Publish(c) => assert CallOk(s, c);
    case TakeBatch(c) => if s.batch.Some? { assert BatchOk(s, s.batch.value); }
    case Wake(c) =>
  }

  lemma {:induction false} EnterExtends(s: State, c: CallId)
    requires Inv(s) && Enabled(s, Enter(c))
    ensures Extends(s, Next(s, Enter(c)))
  {
    assert CallOk(s, c);
    if s.batch.Some? { assert BatchOk(s, s.batch.value); }
  }

  lemma {:induction false} FlushStepExtends(s: State, a: Action)
    requires Inv(s) && Enabled(s, a) && (a.SocketWrite? || a.FlushEnd?)
    ensures Extends(s, Next(s, a))
  {
    assert CallOk(s, a.c);
  }

  lemma {:induction false} RunExtends(s: State, acts: seq<Action>)
    requires Inv(s) && CanRun(s, acts)
    ensures Extends(s, Run(s, acts))
    decreases |acts|
  {
    if acts != [] {
      StepKeepsInv(s, acts[0]);
      StepExtends(s, acts[0]);
      RunExtends(Next(s, acts[0]), acts[1..]);
    }
  }

  lemma {:induction false} WireMonotone(blocks: seq<Block>, i: nat, j: nat)
    requires i < j <= |blocks|
    ensures |WireOf(blocks[..i])| + |SentBytes(blocks[i])| <= |WireOf(blocks[..j])|
  {
    WireSplit(blocks[..j], i);
    assert blocks[..j][..i] == blocks[..i];
  }

  /** A call that returned before another one arrived precedes it: in lock order, in a strictly
      earlier flush, and, if it was sent without error, byte for byte on the wire. */
  lemma {:induction false} RealTimeOrder(acts: seq<Action>, later: seq<Action>, a: CallId, b: CallId)
    requires CanRun(INIT, acts) && CanRun(Run(INIT, acts), later)
    requires a < |Run(INIT, acts).pcs| && a < |Run(INIT, acts).payloads|
    requires Run(INIT, acts).pcs[a].Returned? && |Run(INIT, acts).payloads[a]| > 0
    requires b !in Run(INIT, acts).arrivals && b in Run(Run(INIT, acts), later).arrivals
    ensures var t := Run(Run(INIT, acts), later);
      && a in t.arrivals && IndexOf(t.arrivals, a) < IndexOf(t.arrivals, b)
      && a < |t.places| && b < |t.places| && b < |t.payloads| && a < |t.pcs|
      && Carrier(t, a).Some?
      && (Carrier(t, b).Some? ==> Carrier(t, a).value < Carrier(t, b).value)
      && (Carrier(t, b).Some? && t.pcs[a] == Returned(None) ==>
            && OnWire(t, a)
            && Carrier(t, b).value < |t.blocks| && b in t.blocks[Carrier(t, b).value].members
            && Start(t, a) + |t.payloads[a]| <= Start(t, b))
  {
    var s := Run(INIT, acts);
    var t := Run(s, later);
    Reachable(acts);
    RunKeepsInv(s, later);
    RunExtends(s, later);
    ReturnedBefore(s, t, a, b);
  }

  /** A payload that was sent whole ends before the next flush starts. */
  lemma {:induction false} EndsBefore(payloads: seq<seq<byte>>, blocks: seq<Block>, i: nat, k: nat, j: nat)
    requires i < j < |blocks| && k < |blocks[i].members| && blocks[i].members[k] < |payloads|
    requires blocks[i].data == Payload(payloads, blocks[i].members) && blocks[i].sent == |blocks[i].data|
    ensures var at := |WireOf(blocks[..i])| + |Payload(payloads, blocks[i].members[..k])|;
      at + |payloads[blocks[i].members[k]]| <= |WireOf(blocks[..j])|
  {
    WireMonotone(blocks, i, j);
    PayloadAt(payloads, blocks[i].members, k);
  }

  lemma {:induction false} ReturnedBefore(s: State, t: State, a: CallId, b: CallId)
    requires Inv(s) && Inv(t) && Extends(s, t)
    requires a < |s.pcs| && s.pcs[a].Returned? && |s.payloads[a]| > 0
    requires b !in s.arrivals && b in t.arrivals
    ensures a in t.arrivals && IndexOf(t.arrivals, a) < IndexOf(t.arrivals, b)
    ensures a < |t.places| && b < |t.places| && Carrier(t, a).Some?
    ensures Carrier(t, b).Some? ==> Carrier(t, a).value < Carrier(t, b).value
    ensures Carrier(t, b).Some? && t.pcs[a] == Returned(None) ==>
      && OnWire(t, a)
      && Carrier(t, b).value < |t.blocks| && b in t.blocks[Carrier(t, b).value].members
      && Start(t, a) + |t.payloads[a]| <= Start(t, b)
  {
    CarrierOf(s, a);
    CarrierOf(t, a);
    assert CallOk(s, a) && CallOk(t, b);
    assert a in s.arrivals;
    IndexWithin(s.arrivals, t.arrivals, a, b);
    if Carrier(t, b).Some? {
      var j := Carrier(t, b).value;
      if t.places[b].Shared? { assert BatchOk(t, t.places[b].batch); }
      if j < |s.blocks| {
        CarriedAt(s.blocks, j, b);
        assert false;
      }
      if t.pcs[a] == Returned(None) {
        var i := Carrier(t, a).value;
        CarriedWhole(t, a);
        assert BlockOk(t, i);
        IndexFound(t.blocks[i].members, a);
        EndsBefore(t.payloads, t.blocks, i, IndexOf(t.blocks[i].members, a), j);
      }
    }
  }
}
