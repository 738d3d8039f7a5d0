/** The request loop of one server connection: responses of requests handled in place are gathered
    in a buffer and written together; methods that are slow on average go to goroutines. */
module Servers {
  import opened Basics
  import opened Headers
  import opened Messages
  import opened EndToEnd
  import opened Handlers
  import opened Receiver
  import Framing
  import HeaderBinary
  import HeaderJson

  /** 50 microseconds, in nanoseconds. */
  const THRESHOLD := 50_000
  const MAX_BATCHED := 0x1_0000
  const RATE_LIMITED: text := HeaderJson.Ascii("rate limit exceeded")

  // ---------------------------------------------------------------- the moving average

  /** The average after a call that took cost nanoseconds. */
  function Ewma(avg: nat, cost: nat): nat { avg - avg / 8 + cost / 8 }

  /** One call moves the average by an eighth of the way to its cost, but for what the divisions
      drop. */
  lemma {:induction false} EighthOfTheWay(avg: nat, cost: nat)
    ensures 8 * (Ewma(avg, cost) - avg) == cost - avg + avg % 8 - cost % 8
  {
  }

  /** While costs are at least c it rises until it is at least 8 * (c / 8), and then stays there. */
  lemma {:induction false} EwmaRises(avg: nat, cost: nat, c: nat)
    requires cost >= c
    ensures avg < 8 * (c / 8) ==> Ewma(avg, cost) > avg
    ensures avg >= 8 * (c / 8) ==> Ewma(avg, cost) >= 8 * (c / 8)
  {
    assert cost / 8 >= c / 8;
  }

  /** The average after n calls of the same cost, from the start. */
  function AverageAfter(n: nat, cost: nat): nat {
    if n == 0 then 0 else Ewma(AverageAfter(n - 1, cost), cost)
  }

  lemma {:induction false} AverageLow(n: nat, cost: nat)
    requires cost < 50_008
    ensures AverageAfter(n, cost) <= THRESHOLD
  {
    if n > 0 { AverageLow(n - 1, cost); StaysLow(AverageAfter(n - 1, cost), cost); }
  }

  lemma {:induction false} StaysLow(avg: nat, cost: nat)
    requires avg <= THRESHOLD && cost < 50_008
    ensures Ewma(avg, cost) <= THRESHOLD
  {
    assert cost / 8 <= 6_250;
  }

  lemma {:induction false} AverageHigh(n: nat, cost: nat)
    requires cost >= 50_008
    ensures AverageAfter(n, cost) >= if n < 50_008 then n else 50_008
  {
    if n > 0 { AverageHigh(n - 1, cost); EwmaRises(AverageAfter(n - 1, cost), cost, 50_008); }
  }

  /** Calls of one and the same cost reach the goroutines exactly from 50008 nanoseconds on: the
      division by eight swallows what is above a multiple of eight. */
  lemma {:induction false} SlowFrom50008(cost: nat)
    ensures (exists n :: AverageAfter(n, cost) > THRESHOLD) <==> cost >= 50_008
  {
    if cost >= 50_008 {
      AverageHigh(50_008, cost);
      assert AverageAfter(50_008, cost) > THRESHOLD;
    } else {
      forall n ensures AverageAfter(n, cost) <= THRESHOLD { AverageLow(n, cost); }
    }
  }

  // ---------------------------------------------------------------- the average, shared

  /** The average as goroutines and loop fold into it: each loads it, and stores later, whatever
      the others have done in between.  `held` is what those between the two have loaded. */
  datatype Shared = Shared(avg: nat, held: map<nat, nat>)

  datatype Fold = Load(who: nat) | Store(who: nat, cost: nat)

  predicate MayFold(s: Shared, f: Fold) { f.Load? || f.who in s.held }

  function Folding(s: Shared, f: Fold): Shared
    requires MayFold(s, f)
  {
    match f
    case Load(who) => s.(held := s.held[who := s.avg])
    case Store(who, cost) => Shared(Ewma(s.held[who], cost), s.held - {who})
  }

  function FoldAll(folds: seq<Fold>): Option<Shared> {
    if folds == [] then Some(Shared(0, map[]))
    else
      var before := FoldAll(folds[..|folds| - 1]);
      var f := folds[|folds| - 1];
      if before.None? || !MayFold(before.value, f) then None else Some(Folding(before.value, f))
  }

  /** In whatever order they do, with updates lost or not: the average never exceeds the largest
      cost, and after the first store it is at least an eighth of the smallest. */
  lemma {:induction false} RacingBounds(folds: seq<Fold>, c: nat, max: nat)
    requires FoldAll(folds).Some?
    requires forall i :: 0 <= i < |folds| && folds[i].Store? ==> c <= folds[i].cost <= max
    ensures var s := FoldAll(folds).value; s.avg <= max && forall g :: g in s.held ==> s.held[g] <= max
    ensures (exists i :: 0 <= i < |folds| && folds[i].Store?) ==> FoldAll(folds).value.avg >= c / 8
  {
    if folds != [] {
      var n := |folds| - 1;
      RacingBounds(folds[..n], c, max);
      if folds[n].Load? {
        if i :| 0 <= i < |folds| && folds[i].Store? { assert folds[..n][i].Store?; }
      } else {
        assert folds[n].cost / 8 >= c / 8;
      }
    }
  }

  // ---------------------------------------------------------------- what surrounds the loop

  /** Everything the loop cannot know beforehand, by the number of the request or of the write. */
  datatype World = World(
    lib: Library,
    handler: Handler,
    allow: nat -> bool,
    lookup: (nat, text) -> Option<Service>,
    cost: nat -> nat,
    writes: nat -> bool)

  datatype Plan = Limited | Unknown | Call(service: Service)

  function HeaderOf(m: Message): Header { if m.header.Some? then m.header.value else ZERO }

  function PlanFor(w: World, k: nat, m: Message): Plan {
    if !w.allow(k) then Limited
    else
      var s := w.lookup(k, HeaderOf(m).service);
      if s.None? then Unknown else Call(s.value)
  }

  /** The response to request number k. */
  function ReplyTo(w: World, k: nat, m: Message): Message {
    match PlanFor(w, k, m)
    case Limited => ErrorMessage(HeaderOf(m).requestID, RATE_LIMITED)
    case Unknown => ErrorMessage(HeaderOf(m).requestID, SERVICE_NOT_FOUND + HeaderOf(m).service)
    case Call(s) => Response(w.handler, w.lib, s, HeaderOf(m), m.body, k)
  }

  /** What the rules of a run depend on: which requests are calls, the response to each, the cost
      of each call. */
  datatype Rules = Rules(calls: (nat, Message) -> bool, answer: (nat, Message) -> seq<byte>, cost: nat -> nat)

  function RulesOf(w: World): Rules {
    Rules((k: nat, m) => PlanFor(w, k, m).Call?, (k: nat, m) => Wire(w.lib, ReplyTo(w, k, m)), w.cost)
  }

  // ---------------------------------------------------------------- runs of the loop

  /** A request was read, for which the socket was read so many times; it was answered into the
      buffer or handed to a goroutine; the buffer was written out; a read gave no request, at the
      end of the stream or for a packet that does not decode. */
  datatype Event =
    | Request(msg: Message, fills: nat)
    | Answered(frame: seq<byte>)
    | Dispatched
    | Wrote(bytes: seq<byte>)
    | Stopped(fills: nat)

  datatype Run = Begin | Then(before: Run, event: Event)

  /** Everything written in a run. */
  function Output(run: Run): seq<byte> {
    if run.Begin? then []
    else if run.event.Wrote? then Output(run.before) + run.event.bytes
    else Output(run.before)
  }

  function Requests(run: Run): seq<Message> {
    if run.Begin? then []
    else if run.event.Request? then Requests(run.before) + [run.event.msg]
    else Requests(run.before)
  }

  /** How often the socket was read in a run. */
  function Fills(run: Run): nat {
    if run.Begin? then 0
    else if run.event.Request? || run.event.Stopped? then Fills(run.before) + run.event.fills
    else Fills(run.before)
  }

  /** Watches a run: what is buffered, which request is being handled, how many there were in all
      and since the socket was read last, the average, whether it is still this loop's alone,
      whether the buffer is full, whether it was written before it was, and whether the run has
      stopped. */
  datatype Watch = Watch(pending: seq<byte>, current: Option<Message>, count: nat, since: nat,
                         avg: nat, alone: bool, full: bool, early: bool, over: bool)

  const START := Watch([], None, 0, 0, 0, true, false, false, false)

  /** A read, of a request or not, with so many reads of the socket: only when the last request is
      done and the buffer is not full; with the socket only when nothing is left in the buffer;
      without it only when it has been read before and the buffer was not written early. */
  predicate MayRead(s: Watch, fills: nat) {
    && !s.over && s.current.None? && !s.full
    && (fills > 0 ==> s.pending == [])
    && (fills == 0 ==> s.since > 0 && !s.early)
  }

  /** The rules: reads as above; every answer is the response to the request at hand; a goroutine
      is started only for a slow call and with nothing left in the buffer; the average is folded
      from the costs until goroutines fold theirs in too; and the buffer is written before it is
      full only for the socket to be read or a goroutine to be started next. */
  function Advance(r: Rules, s: Watch, e: Event): Option<Watch> {
    match e
    case Request(m, fills) =>
      if !MayRead(s, fills) || Since(s.since, fills) > PER_READ then None
      else Some(s.(current := Some(m), count := s.count + 1, since := Since(s.since, fills), early := false))
    case Answered(f) =>
      if s.current.None? || s.count == 0 || s.early || f != r.answer(s.count - 1, s.current.value) then None
      else if !r.calls(s.count - 1, s.current.value) then Some(s.(pending := s.pending + f, current := None))
      else if s.alone && s.avg > THRESHOLD then None
      else Some(s.(pending := s.pending + f, current := None, full := |s.pending + f| >= MAX_BATCHED,
                   avg := Ewma(s.avg, r.cost(s.count - 1))))
    case Dispatched =>
      if s.current.None? || s.count == 0 || s.pending != [] || !r.calls(s.count - 1, s.current.value)
         || (s.alone && s.avg <= THRESHOLD) then None
      else Some(s.(current := None, alone := false, early := false))
    case Wrote(b) =>
      if b == [] || b != s.pending || s.over then None
      else Some(s.(pending := [], early := !s.full, full := false))
    case Stopped(fills) =>
      if !MayRead(s, fills) then None else Some(s.(over := true))
  }

  function Follow(r: Rules, run: Run): Option<Watch> {
    if run.Begin? then Some(START)
    else if Follow(r, run.before).None? then None
    else Advance(r, Follow(r, run.before).value, run.event)
  }

  datatype End = StreamEnded | PacketBad | WriteFailed

  /** How the loop ends when a read gives no request, or the write before it failed. */
  function EndAfter(r: Option<ReadResult<Message>>): End {
    if r.None? then WriteFailed else if r.value.Eof? then StreamEnded else PacketBad
  }

  lemma {:induction false} RequestEvent(r: Rules, run: Run, s: Watch, m: Message, fills: nat)
    requires Follow(r, run) == Some(s) && MayRead(s, fills) && Since(s.since, fills) <= PER_READ
    ensures Follow(r, Then(run, Request(m, fills)))
      == Some(s.(current := Some(m), count := s.count + 1, since := Since(s.since, fills), early := false))
    ensures Output(Then(run, Request(m, fills))) == Output(run)
    ensures Requests(Then(run, Request(m, fills))) == Requests(run) + [m]
    ensures Fills(Then(run, Request(m, fills))) == Fills(run) + fills
  {
  }

  lemma {:induction false} StopEvent(r: Rules, run: Run, s: Watch, fills: nat)
    requires Follow(r, run) == Some(s) && MayRead(s, fills)
    ensures Follow(r, Then(run, Stopped(fills))) == Some(s.(over := true))
    ensures Output(Then(run, Stopped(fills))) == Output(run) && Requests(Then(run, Stopped(fills))) == Requests(run)
    ensures Fills(Then(run, Stopped(fills))) == Fills(run) + fills
  {
  }

  lemma {:induction false} AnswerEvent(r: Rules, run: Run, s: Watch, m: Message, k: nat)
    requires Follow(r, run) == Some(s) && s.current == Some(m) && s.count == k + 1 && !s.full && !s.early
    requires r.calls(k, m) && s.alone ==> s.avg <= THRESHOLD
    ensures var e := Answered(r.answer(k, m));
      var pending := s.pending + e.frame; var called := r.calls(k, m);
      && Follow(r, Then(run, e))
         == Some(Watch(pending, None, k + 1, s.since, if called then Ewma(s.avg, r.cost(k)) else s.avg,
                       s.alone, called && |pending| >= MAX_BATCHED, false, s.over))
      && Output(Then(run, e)) == Output(run) && Requests(Then(run, e)) == Requests(run)
      && Fills(Then(run, e)) == Fills(run)
  {
  }

  lemma {:induction false} DispatchEvent(r: Rules, run: Run, s: Watch, m: Message, k: nat)
    requires Follow(r, run) == Some(s) && s.current == Some(m) && s.count == k + 1 && s.pending == []
    requires r.calls(k, m) && (s.alone ==> s.avg > THRESHOLD)
    ensures Follow(r, Then(run, Dispatched)) == Some(s.(current := None, alone := false, early := false))
    ensures Output(Then(run, Dispatched)) == Output(run) && Requests(Then(run, Dispatched)) == Requests(run)
    ensures Fills(Then(run, Dispatched)) == Fills(run)
  {
  }

  lemma {:induction false} WriteEvent(r: Rules, run: Run, s: Watch)
    requires Follow(r, run) == Some(s) && s.pending != [] && !s.over
    ensures var e := Wrote(s.pending);
      && Follow(r, Then(run, e)) == Some(s.(pending := [], early := !s.full, full := false))
      && Output(Then(run, e)) == Output(run) + s.pending && Requests(Then(run, e)) == Requests(run)
      && Fills(Then(run, e)) == Fills(run)
  {
  }

  /** Texts of a request that are short enough to be repeated in an error. */
  predicate ShortTexts(m: Message) {
    |HeaderOf(m).service| < 0x4000_0000_0000_0000 && |HeaderOf(m).method_| < 0x4000_0000_0000_0000
  }

  /** Answers a request that does not go to a goroutine. */
  method Answer(w: World, respBuf: seq<byte>, plan: Plan, msg: Message, k: nat) returns (buf: seq<byte>)
    requires plan == PlanFor(w, k, msg)
    requires ShortTexts(msg)
    ensures buf == respBuf + Wire(w.lib, ReplyTo(w, k, msg))
  {
    var header := HeaderOf(msg);
    match plan {
      case Limited => buf := AppendErrorResponse(w.lib, respBuf, header.requestID, RATE_LIMITED);
      case Unknown => buf := AppendErrorResponse(w.lib, respBuf, header.requestID, SERVICE_NOT_FOUND + header.service);
      case Call(s) => var failed; buf, failed := AppendResponse(w.handler, w.lib, respBuf, s, header, msg.body, k);
    }
  }

  /** The requests are those of the first packets, which all decode. */
  ghost predicate TakenUp(decode: Decoder<Message>, packets: seq<seq<byte>>, requests: seq<Message>) {
    && |requests| <= |packets|
    && forall k :: 0 <= k < |requests| ==> decode(packets[k]) == Some(requests[k])
  }

  /** The packets still in the stream are those behind the requests taken up. */
  ghost predicate Ahead(conn: Connection<Message>, packets: seq<seq<byte>>, requests: seq<Message>)
    requires conn.Valid()
    reads conn, conn.buffer, conn.buffer.buf
  {
    TakenUp(conn.decode, packets, requests) && Framing.Packets(conn.Stream()) == packets[|requests|..]
  }

  /** A run that has stopped at a packet that does not decode, one packet onward from t. */
  ghost predicate StoppedFrom(t: Tally, run: Run, since: nat) {
    && run.Then? && run.event.Stopped? && |Requests(run)| == t.taken && since == t.since
    && Fills(run.before) == t.fills && Fills(run) == Onward(t).fills
  }

  lemma {:induction false} StoppedBehind(chunks: seq<seq<byte>>, t: Tally, run: Run, since: nat)
    requires t == Behind(chunks, t.taken) && StoppedFrom(t, run, since)
    ensures StoppedFrom(Behind(chunks, |Requests(run)|), run, since)
  {
  }

  lemma {:induction false} OneTakenUp(decode: Decoder<Message>, packets: seq<seq<byte>>, requests: seq<Message>,
                                      r: ReadResult<Message>, rest: seq<seq<byte>>)
    requires TakenUp(decode, packets, requests) && Takes(decode, packets[|requests|..], r, rest)
    ensures r.Received? ==> TakenUp(decode, packets, requests + [r.msg]) && rest == packets[|requests + [r.msg]|..]
    ensures r.BadPacket? ==> |requests| < |packets| && decode(packets[|requests|]).None?
    ensures r.Eof? ==> |requests| == |packets|
  {
  }

  /** The texts of the requests among the packets are short. */
  ghost predicate AllShort(decode: Decoder<Message>, packets: seq<seq<byte>>) {
    forall d :: d in packets && decode(d).Some? ==> ShortTexts(decode(d).value)
  }

  /** Reads the next packet off the connection. */
  method NextRequest(conn: Connection<Message>, ghost packets: seq<seq<byte>>, ghost requests: seq<Message>,
                     ghost t: Tally)
    returns (r: ReadResult<Message>, ghost fills: nat)
    requires conn.Valid() && ChunksFit(conn.incoming) && Few(conn.buffer.Contents(), t.since)
    requires t.place == conn.Where()
    requires AllShort(conn.decode, packets) && Ahead(conn, packets, requests)
    modifies conn, conn.buffer, conn.buffer.buf
    ensures conn.Valid() && ChunksFit(conn.incoming)
    ensures conn.buffer.buf == old(conn.buffer.buf) || fresh(conn.buffer.buf)
    ensures fills == |old(conn.incoming)| - |conn.incoming| + if r.Eof? then 1 else 0
    ensures fills == 0 <==> Framing.FrameLen(old(conn.buffer.Contents())).Some?
    ensures !r.Eof? ==> Onward(t) == Tally(conn.Where(), t.fills + fills, t.taken + 1, Since(t.since, fills))
    ensures r.Eof? ==> |requests| == |packets|
    ensures r.BadPacket? ==> |requests| < |packets| && conn.decode(packets[|requests|]).None?
    ensures r.Received? ==>
      && ShortTexts(r.msg) && Few(conn.buffer.Contents(), Since(t.since, fills))
      && |conn.Stream()| < |old(conn.Stream())| && Ahead(conn, packets, requests + [r.msg])
  {
    r, fills := conn.ReadCounted(m => ShortTexts(m), t.since);
    OneTakenUp(conn.decode, packets, requests, r, Framing.Packets(conn.Stream()));
  }

  /** What the packets decode to, up to the first bad one. */
  lemma {:induction false} TakenUpAll(decode: Decoder<Message>, packets: seq<seq<byte>>, requests: seq<Message>)
    requires TakenUp(decode, packets, requests)
    ensures requests <= DecodeAll(decode, packets)
    ensures |requests| == |packets| || decode(packets[|requests|]).None? ==> requests == DecodeAll(decode, packets)
  {
    if requests != [] { TakenUpAll(decode, packets[1..], requests[1..]); }
  }

  /** How a run may end: at the end of the stream with all packets taken up and nothing left to
      write; at a packet that does not decode; or at a write that failed. */
  ghost predicate Ended(end: End, decode: Decoder<Message>, packets: seq<seq<byte>>, requests: seq<Message>,
                        pending: seq<byte>, writes: seq<bool>)
  {
    match end
    case StreamEnded => |requests| == |packets| && pending == [] && false !in writes
    case PacketBad => |requests| < |packets| && decode(packets[|requests|]).None? && false !in writes
    case WriteFailed => pending != [] && writes != [] && !writes[|writes| - 1]
  }

  /** The variables of the loop, and its run so far. */
  class RequestLoop {
    const w: World
    var respBuf: seq<byte>
    var avgCost: nat
    var alone: bool                  // no goroutine of this connection folds its cost in
    var count: nat
    var writes: seq<bool>            // whether each write succeeded
    var wire: seq<byte>              // everything written
    ghost var run: Run
    ghost var watch: Watch
    ghost const rules: Rules

    /** The run so far follows the rules, and the variables are what its watch says. */
    ghost predicate Valid()
      reads this
    {
      && Follow(rules, run) == Some(watch) && wire == Output(run)
      && watch == Watch(respBuf, watch.current, count, watch.since, watch.avg, alone, watch.full, watch.early,
                        watch.over)
      && (alone ==> avgCost == watch.avg)
    }

    /** Between two requests, all writes so far having succeeded. */
    ghost predicate Ready()
      reads this
    {
      Valid() && watch.current == None && !watch.full && !watch.over && false !in writes
    }

    /** The outcomes of the writes are what the world says. */
    ghost predicate Honest()
      reads this
    {
      forall k: nat :: k < |writes| ==> writes[k] == w.writes(k)
    }

    constructor (w: World)
      ensures Ready() && Honest() && this.w == w && rules == RulesOf(w) && run == Begin && watch == START
    {
      this.w := w;
      respBuf, avgCost, alone, count, writes, wire := [], 0, true, 0, [], [];
      run, watch, rules := Begin, START, RulesOf(w);
    }

    method Flush() returns (ok: bool)
      requires Valid() && respBuf != [] && !watch.over
      modifies this
      ensures Valid() && Requests(run) == old(Requests(run)) && Fills(run) == old(Fills(run))
      ensures writes == old(writes) + [ok] && (old(Honest()) ==> Honest())
      ensures watch == if ok then old(watch).(pending := [], early := !old(watch).full, full := false) else old(watch)
    {
      ok := w.writes(|writes|);
      writes := writes + [ok];
      if ok {
        WriteEvent(rules, run, watch);
        wire, run := wire + respBuf, Then(run, Wrote(respBuf));
        watch := watch.(pending := [], early := !watch.full, full := false);
        respBuf := [];
      }
    }

    /** Writes out what is pending unless another packet is there already. */
    method FlushIfIdle(conn: Connection<Message>) returns (ok: bool)
      requires Ready() && !watch.early && conn.Valid()
      modifies this
      ensures Valid() && Requests(run) == old(Requests(run)) && TallyOf(conn) == old(TallyOf(conn))
      ensures (old(Honest()) ==> Honest()) && (ok ==> Ready())
      ensures var buffered := Framing.FrameLen(conn.buffer.Contents()).Some?;
        if ok then respBuf == (if buffered then old(respBuf) else []) && (buffered ==> !watch.early)
        else !buffered && respBuf != [] && writes != [] && !writes[|writes| - 1]
    {
      ok := true;
      if |respBuf| > 0 {
        var buffered := conn.buffer.HasPacket();
        if !buffered { ok := Flush(); }
      }
    }

    /** Takes note of a request that was read. */
    method Register(msg: Message, ghost fills: nat)
      requires Ready() && MayRead(watch, fills) && Since(watch.since, fills) <= PER_READ
      modifies this`run, this`watch, this`count
      ensures Valid() && watch.current == Some(msg) && !watch.full && !watch.over && !watch.early
      ensures count == old(count) + 1
      ensures watch.since == Since(old(watch.since), fills) && Requests(run) == old(Requests(run)) + [msg]
      ensures Fills(run) == old(Fills(run)) + fills
    {
      RequestEvent(rules, run, watch, msg, fills);
      run := Then(run, Request(msg, fills));
      watch := watch.(current := Some(msg), count := watch.count + 1, since := Since(watch.since, fills),
                      early := false);
      count := count + 1;
    }

    /** Takes note of a read that gave no request. */
    ghost method Stop(fills: nat)
      requires Ready() && MayRead(watch, fills)
      modifies this`run, this`watch
      ensures Valid() && watch == old(watch).(over := true) && run == Then(old(run), Stopped(fills))
      ensures Requests(run) == old(Requests(run)) && Fills(run) == old(Fills(run)) + fills
    {
      StopEvent(rules, run, watch, fills);
      run := Then(run, Stopped(fills));
      watch := watch.(over := true);
    }

    /** Takes note of the result of a read. */
    method Note(r: ReadResult<Message>, ghost fills: nat)
      requires Ready() && MayRead(watch, fills) && (r.Received? ==> Since(watch.since, fills) <= PER_READ)
      modifies this`run, this`watch, this`count
      ensures Valid() && Fills(run) == old(Fills(run)) + fills
      ensures if r.Received?
        then watch.current == Some(r.msg) && !watch.full && !watch.over && !watch.early && count == old(count) + 1
             && watch.since == Since(old(watch.since), fills) && Requests(run) == old(Requests(run)) + [r.msg]
        else run == Then(old(run), Stopped(fills)) && watch == old(watch).(over := true)
             && Requests(run) == old(Requests(run))
    {
      if r.Received? { Register(r.msg, fills); } else { Stop(fills); }
    }

    /** Reads the next request.  With responses pending there must be one in the buffer. */
    method ReadRequest(conn: Connection<Message>, ghost packets: seq<seq<byte>>)
      returns (r: ReadResult<Message>, ghost fills: nat)
      requires AllShort(conn.decode, packets)
      requires conn.Valid() && ChunksFit(conn.incoming) && Few(conn.buffer.Contents(), watch.since)
      requires Ready() && Ahead(conn, packets, Requests(run))
      requires if Framing.FrameLen(conn.buffer.Contents()).Some? then watch.since > 0 && !watch.early else respBuf == []
      modifies this`run, this`watch, this`count, conn, conn.buffer, conn.buffer.buf
      ensures conn.Valid() && ChunksFit(conn.incoming)
      ensures conn.buffer.buf == old(conn.buffer.buf) || fresh(conn.buffer.buf)
      ensures Valid() && Fills(run) == old(Fills(run)) + fills
      ensures fills == |old(conn.incoming)| - |conn.incoming| + if r.Eof? then 1 else 0
      ensures fills == 0 <==> Framing.FrameLen(old(conn.buffer.Contents())).Some?
      ensures r.Received? ==> TallyOf(conn) == Onward(old(TallyOf(conn)))
      ensures r.BadPacket? ==> StoppedFrom(old(TallyOf(conn)), run, watch.since)
      ensures !r.Received? ==> run == Then(old(run), Stopped(fills)) && watch == old(watch).(over := true)
      ensures !r.Received? ==> Requests(run) == old(Requests(run)) && TakenUp(conn.decode, packets, Requests(run))
      ensures r.Eof? ==> |Requests(run)| == |packets| && respBuf == []
      ensures r.BadPacket? ==> |Requests(run)| < |packets| && conn.decode(packets[|Requests(run)|]).None?
      ensures r.Received? ==>
        && watch.current == Some(r.msg) && !watch.full && !watch.over && !watch.early && count > 0 && watch.since > 0
        && Few(conn.buffer.Contents(), watch.since) && Ahead(conn, packets, Requests(run))
        && |conn.Stream()| < |old(conn.Stream())| && ShortTexts(r.msg)
    {
      r, fills := NextRequest(conn, packets, Requests(run), TallyOf(conn));
      Note(r, fills);
    }

    /** Hands the request to a goroutine, once what is pending has been written. */
    method Dispatch(msg: Message) returns (ok: bool)
      requires Valid() && watch.current == Some(msg) && !watch.full && !watch.over && count > 0 && false !in writes
      requires rules.calls(count - 1, msg) && avgCost > THRESHOLD
      modifies this
      ensures Valid() && watch.since == old(watch.since) && (old(Honest()) ==> Honest())
      ensures Requests(run) == old(Requests(run)) && Fills(run) == old(Fills(run))
      ensures if ok then Ready() && !watch.early else respBuf != [] && writes != [] && !writes[|writes| - 1]
    {
      if |respBuf| > 0 {
        ok := Flush();
        if !ok { return; }
      }
      DispatchEvent(rules, run, watch, msg, count - 1);
      run, watch := Then(run, Dispatched), watch.(current := None, alone := false, early := false);
      alone := false;
      return true;
    }

    /** The buffer with the response to the request at hand behind it. */
    method AppendAnswer(msg: Message, plan: Plan) returns (buf: seq<byte>)
      requires rules == RulesOf(w) && count > 0 && ShortTexts(msg) && plan == PlanFor(w, count - 1, msg)
      ensures buf == respBuf + rules.answer(count - 1, msg)
    {
      buf := Answer(w, respBuf, plan, msg, count - 1);
    }

    /** Keeps the response, and folds in the cost of a call. */
    method Keep(msg: Message, buf: seq<byte>, called: bool, cost: nat)
      requires Valid() && watch.current == Some(msg) && !watch.full && !watch.early && count > 0
      requires buf == respBuf + rules.answer(count - 1, msg) && called == rules.calls(count - 1, msg)
      requires cost == rules.cost(count - 1) && (called ==> avgCost <= THRESHOLD)
      modifies this`respBuf, this`avgCost, this`run, this`watch
      ensures Valid() && watch.since == old(watch.since) && watch.over == old(watch.over) && !watch.early
      ensures Requests(run) == old(Requests(run)) && Fills(run) == old(Fills(run))
      ensures watch.current == None && (watch.full <==> called && |respBuf| >= MAX_BATCHED)
    {
      AnswerEvent(rules, run, watch, msg, count - 1);
      run := Then(run, Answered(rules.answer(count - 1, msg)));
      watch := Watch(buf, None, count, watch.since, if called then Ewma(watch.avg, cost) else watch.avg,
                     alone, called && |buf| >= MAX_BATCHED, false, watch.over);
      respBuf := buf;
      if called { avgCost := Ewma(avgCost, cost); }
    }

    /** Answers the request in place. */
    method Respond(msg: Message, plan: Plan)
      requires Valid() && rules == RulesOf(w) && watch.current == Some(msg) && !watch.full && !watch.early && count > 0
      requires ShortTexts(msg) && plan == PlanFor(w, count - 1, msg) && (plan.Call? ==> avgCost <= THRESHOLD)
      modifies this`respBuf, this`avgCost, this`run, this`watch
      ensures Valid() && watch.since == old(watch.since) && watch.over == old(watch.over) && !watch.early
      ensures Requests(run) == old(Requests(run)) && Fills(run) == old(Fills(run))
      ensures watch.current == None && (watch.full <==> plan.Call? && |respBuf| >= MAX_BATCHED)
    {
      var buf := AppendAnswer(msg, plan);
      Keep(msg, buf, plan.Call?, w.cost(count - 1));
    }

    /** Loads the average, which goroutines may have changed meanwhile. */
    method LoadAverage()
      requires Valid()
      modifies this`avgCost
      ensures Valid()
    {
      if !alone {
        var folded: int := *;
        avgCost := if folded < 0 then 0 else folded;
      }
    }

    /** Takes up the request just read: limits, dispatches or answers it. */
    method TakeUp(msg: Message) returns (ok: bool)
      requires Valid() && rules == RulesOf(w) && watch.current == Some(msg) && count > 0 && ShortTexts(msg)
      requires !watch.full && !watch.early && !watch.over && false !in writes
      modifies this
      ensures Valid() && watch.since == old(watch.since) && (old(Honest()) ==> Honest())
      ensures Requests(run) == old(Requests(run)) && Fills(run) == old(Fills(run))
      ensures if ok then Ready() && !watch.early else respBuf != [] && writes != [] && !writes[|writes| - 1]
    {
      var plan := PlanFor(w, count - 1, msg);
      LoadAverage();
      if plan.Call? && avgCost > THRESHOLD {
        ok := Dispatch(msg);
        return;
      }
      Respond(msg, plan);
      if !plan.Call? { return true; }
      ok := true;
      if |respBuf| >= MAX_BATCHED { ok := Flush(); }
    }

    /** What holds at the top of every round: all packets of the stream are requests taken up or
        still ahead. */
    ghost predicate Top(conn: Connection<Message>, packets: seq<seq<byte>>)
      reads this, conn, conn.buffer, conn.buffer.buf
    {
      && Ready() && !watch.early && conn.Valid() && ChunksFit(conn.incoming) && Few(conn.buffer.Contents(), watch.since)
      && Ahead(conn, packets, Requests(run))
      && (watch.since == 0 ==> Framing.FrameLen(conn.buffer.Contents()).None?)
    }

    ghost function TallyOf(conn: Connection<Message>): Tally
      requires conn.Valid()
      reads this, conn, conn.buffer, conn.buffer.buf
    {
      Tally(conn.Where(), Fills(run), |Requests(run)|, watch.since)
    }

    /** The first half of a round: writes what is pending, unless another packet is there already,
        and reads the next request; None if the write failed. */
    method Fetch(conn: Connection<Message>, ghost packets: seq<seq<byte>>) returns (r: Option<ReadResult<Message>>)
      requires rules == RulesOf(w) && Top(conn, packets) && AllShort(conn.decode, packets)
      modifies this, conn, conn.buffer, conn.buffer.buf
      ensures (conn.buffer.buf == old(conn.buffer.buf) || fresh(conn.buffer.buf)) && (old(Honest()) ==> Honest())
      ensures conn.Valid() && Valid() && TakenUp(conn.decode, packets, Requests(run))
      ensures r.None? || !r.value.Received? ==>
        Ended(EndAfter(r), conn.decode, packets, Requests(run), watch.pending, writes)
      ensures r.Some? && !r.value.Received? ==> run.Then? && run.event.Stopped?
      ensures r == Some(BadPacket) ==> StoppedFrom(old(TallyOf(conn)), run, watch.since)
      ensures r == Some(BadPacket) ==>
        (watch.pending != [] <==> old(respBuf) != [] && Framing.FrameLen(old(conn.buffer.Contents())).Some?)
      ensures r.Some? && r.value.Received? ==>
        && watch.current == Some(r.value.msg) && count > 0 && ShortTexts(r.value.msg) && false !in writes
        && !watch.full && !watch.over && !watch.early && watch.since > 0 && ChunksFit(conn.incoming)
        && Few(conn.buffer.Contents(), watch.since) && Ahead(conn, packets, Requests(run))
        && |conn.Stream()| < |old(conn.Stream())| && TallyOf(conn) == Onward(old(TallyOf(conn)))
    {
      var ok := FlushIfIdle(conn);
      if !ok { return None; }
      var read, fills := ReadRequest(conn, packets);
      return Some(read);
    }

    /** One round of the loop.  When it ends at a packet that does not decode, responses are lost
        exactly if some were pending and that packet was already in the buffer. */
    method Round(conn: Connection<Message>, ghost packets: seq<seq<byte>>) returns (end: Option<End>)
      requires rules == RulesOf(w) && Top(conn, packets) && AllShort(conn.decode, packets)
      modifies this, conn, conn.buffer, conn.buffer.buf
      ensures (conn.buffer.buf == old(conn.buffer.buf) || fresh(conn.buffer.buf)) && (old(Honest()) ==> Honest())
      ensures conn.Valid()
      ensures end.None? ==> Top(conn, packets) && |conn.Stream()| < |old(conn.Stream())|
      ensures end.Some? ==> Valid() && TakenUp(conn.decode, packets, Requests(run))
      ensures end.Some? ==> Ended(end.value, conn.decode, packets, Requests(run), watch.pending, writes)
      ensures end.Some? && !end.value.WriteFailed? ==> run.Then? && run.event.Stopped?
      ensures end.None? ==> TallyOf(conn) == Onward(old(TallyOf(conn)))
      ensures end == Some(PacketBad) ==> StoppedFrom(old(TallyOf(conn)), run, watch.since)
      ensures end == Some(PacketBad) ==>
        (watch.pending != [] <==> old(respBuf) != [] && Framing.FrameLen(old(conn.buffer.Contents())).Some?)
    {
      var r := Fetch(conn, packets);
      if r.None? || !r.value.Received? { return Some(EndAfter(r)); }
      var ok := TakeUp(r.value.msg);
      return if ok then None else Some(WriteFailed);
    }

    /** Every run follows the rules.  If every packet decodes and no write fails, all of them have
        been taken up at the end and nothing is left in the buffer. */
    method Handle(conn: Connection<Message>) returns (end: End)
      requires Ready() && Honest() && rules == RulesOf(w) && run == Begin && watch == START
      requires conn.Valid() && conn.buffer.Contents() == [] && ChunksFit(conn.incoming)
      requires AllShort(conn.decode, Framing.Packets(conn.Stream()))
      modifies this, conn, conn.buffer, conn.buffer.buf
      ensures Valid() && Honest()
      ensures var packets := Framing.Packets(old(conn.Stream()));
        && TakenUp(conn.decode, packets, Requests(run))
        && Ended(end, conn.decode, packets, Requests(run), watch.pending, writes)
        && (end.WriteFailed? ==> !w.writes(|writes| - 1))
      ensures !end.WriteFailed? ==> run.Then? && run.event.Stopped?
      ensures end.PacketBad? ==> StoppedFrom(Behind(old(conn.incoming), |Requests(run)|), run, watch.since)
    {
      ghost var packets, chunks := Framing.Packets(conn.Stream()), conn.incoming;
      while true
        invariant conn.buffer.buf == old(conn.buffer.buf) || fresh(conn.buffer.buf)
        invariant Top(conn, packets) && Honest()
        invariant TallyOf(conn) == Behind(chunks, |Requests(run)|)
        decreases |conn.Stream()|
      {
        ghost var t := TallyOf(conn);
        var e := Round(conn, packets);
        if e.Some? {
          if e.value.PacketBad? { StoppedBehind(chunks, t, run, watch.since); }
          return e.value;
        }
      }
    }
  }

  // ---------------------------------------------------------------- what the rules mean

  /** p is an earlier point of the run, or its end. */
  ghost predicate PointOf(p: Run, run: Run) {
    p == run || (run.Then? && PointOf(p, run.before))
  }

  lemma {:induction false} PointsFollow(r: Rules, p: Run, run: Run)
    requires PointOf(p, run) && Follow(r, run).Some?
    ensures Follow(r, p).Some?
  {
    if p != run { PointsFollow(r, p, run.before); }
  }

  /** The responses given in place so far, in the order of their requests. */
  function Replies(r: Rules, run: Run): seq<seq<byte>> {
    if run.Begin? then []
    else if run.event.Answered? then Replies(r, run.before) + [run.event.frame]
    else Replies(r, run.before)
  }

  /** What was written, and what is still in the buffer, are the responses given so far. */
  lemma {:induction false} NothingLostOrDoubled(r: Rules, run: Run)
    requires Follow(r, run).Some?
    ensures Output(run) + Follow(r, run).value.pending == Flatten(Replies(r, run))
  {
    if run.Then? {
      NothingLostOrDoubled(r, run.before);
      var pending := Follow(r, run.before).value.pending;
      match run.event
      case Answered(f) =>
        FlattenSnoc(Replies(r, run.before), f);
        assert Output(run.before) + (pending + f) == (Output(run.before) + pending) + f;
      case Wrote(b) =>
        assert (Output(run.before) + b) + [] == Output(run.before) + b;
      case _ =>
    }
  }

  /** Whenever the socket is read, for a request or in vain, or a goroutine started, every response
      given has been written. */
  lemma {:induction false} NobodyWaits(r: Rules, p: Run, e: Event, run: Run)
    requires Follow(r, run).Some? && PointOf(Then(p, e), run)
    requires e.Dispatched? || ((e.Request? || e.Stopped?) && e.fills > 0)
    ensures Output(p) == Flatten(Replies(r, p))
  {
    PointsFollow(r, Then(p, e), run);
    NothingLostOrDoubled(r, p);
    assert Output(p) + [] == Output(p);
  }

  /** Every response has at least the ten bytes of the fixed head. */
  lemma {:induction false} NoEmptyReply(w: World, k: nat, m: Message)
    ensures |Wire(w.lib, ReplyTo(w, k, m))| >= FIXED
  {
    match PlanFor(w, k, m)
    case Call(s) => ResponseEncodes(w.handler, w.lib, s, HeaderOf(m), m.body, k);
    case _ => EncodeFails(w.lib, ReplyTo(w, k, m), MAGIC_BINARY);
  }

  /** When a run stops, responses are left unwritten exactly if the last thing before was an answer
      into the buffer; and then the socket was not read for the last packet: it was there already. */
  lemma {:induction false} LeftExactly(w: World, run: Run, fills: nat)
    requires Follow(RulesOf(w), Then(run, Stopped(fills))).Some?
    ensures var left := Follow(RulesOf(w), Then(run, Stopped(fills))).value.pending;
      && (left != [] <==> run.Then? && run.event.Answered?)
      && (left != [] ==> fills == 0)
      && Output(run) + left == Flatten(Replies(RulesOf(w), run))
  {
    NothingLostOrDoubled(RulesOf(w), run);
    if run.Then? && run.event.Answered? { LastFrame(w, run.before, run.event.frame); }
    LeftBehind(RulesOf(w), run, fills);
  }

  lemma {:induction false} LastFrame(w: World, run: Run, frame: seq<byte>)
    requires Follow(RulesOf(w), run).Some? && Advance(RulesOf(w), Follow(RulesOf(w), run).value, Answered(frame)).Some?
    ensures frame != []
  {
    var s := Follow(RulesOf(w), run).value;
    NoEmptyReply(w, s.count - 1, s.current.value);
  }

  lemma {:induction false} LeftBehind(r: Rules, run: Run, fills: nat)
    requires Follow(r, Then(run, Stopped(fills))).Some?
    requires run.Then? && run.event.Answered? ==> run.event.frame != []
    ensures var left := Follow(r, Then(run, Stopped(fills))).value.pending;
      && left == Follow(r, run).value.pending
      && (left != [] <==> run.Then? && run.event.Answered?) && (left != [] ==> fills == 0)
  {
    assert Follow(r, run).Some?;
  }

  lemma {:induction false} FullIs(r: Rules, run: Run)
    requires Follow(r, run).Some? && Follow(r, run).value.full
    ensures |Follow(r, run).value.pending| >= 0x1_0000
  {
    if run.Then? && Follow(r, run.before).value.full { FullIs(r, run.before); }
  }

  /** The buffer is written with less than 65536 bytes only for the socket to be read or a goroutine
      to be started next: pipelined responses go out together. */
  lemma {:induction false} WrittenTogether(r: Rules, p: Run, b: seq<byte>, e: Event, run: Run)
    requires Follow(r, run).Some? && PointOf(Then(Then(p, Wrote(b)), e), run)
    ensures Follow(r, p).Some? && b == Follow(r, p).value.pending
    ensures |b| >= 0x1_0000 || e.Dispatched? || ((e.Request? || e.Stopped?) && e.fills > 0)
  {
    PointsFollow(r, Then(Then(p, Wrote(b)), e), run);
    if Follow(r, p).value.full { FullIs(r, p); }
  }

  /** With 65536 bytes or more behind the answer to a call the buffer is written at once. */
  lemma {:induction false} WrittenWhenFull(r: Rules, p: Run, f: seq<byte>, e: Event, run: Run)
    requires Follow(r, run).Some? && PointOf(Then(Then(p, Answered(f)), e), run)
    ensures Follow(r, p).Some? && Follow(r, p).value.current.Some? && Follow(r, p).value.count > 0
    ensures var s := Follow(r, p).value;
      r.calls(s.count - 1, s.current.value) && |s.pending| + |f| >= 0x1_0000 ==> e == Wrote(s.pending + f)
  {
    PointsFollow(r, Then(Then(p, Answered(f)), e), run);
  }

  predicate NoGoroutine(run: Run) {
    run.Then? ==> !run.event.Dispatched? && NoGoroutine(run.before)
  }

  /** Without goroutines every request that was read has its response, in order of arrival, but
      the one being handled. */
  lemma {:induction false} OneReplyEach(r: Rules, run: Run)
    requires Follow(r, run).Some? && NoGoroutine(run)
    ensures var s := Follow(r, run).value; var done := |Replies(r, run)|;
      && s.count == |Requests(run)| == done + (if s.current.Some? then 1 else 0)
      && (s.current.Some? ==> s.current.value == Requests(run)[done])
      && forall k: nat :: k < done ==> Replies(r, run)[k] == r.answer(k, Requests(run)[k])
  {
    if run.Then? { OneReplyEach(r, run.before); }
  }

  /** Requests taken up since the socket was read last. */
  function SinceFill(run: Run): nat {
    if run.Begin? then 0
    else if run.event.Request? then Since(SinceFill(run.before), run.event.fills)
    else SinceFill(run.before)
  }

  /** No more than 410 requests are taken up between two reads of the socket. */
  lemma {:induction false} AtMost410(r: Rules, run: Run)
    requires Follow(r, run).Some?
    ensures SinceFill(run) == Follow(r, run).value.since <= 410
  {
    if run.Then? { AtMost410(r, run.before); }
  }

  /** The responses to the requests taken up since the socket was read last are pending, unless
      they were written early. */
  ghost predicate GroupPending(s: Watch, frames: seq<seq<byte>>) {
    var group := if s.current.Some? then s.since - 1 else s.since;
    !s.full && 0 <= group <= |frames| && s.pending == if s.early then [] else Flatten(frames[|frames| - group..])
  }

  lemma {:induction false} GroupStep(r: Rules, s: Watch, frames: seq<seq<byte>>, e: Event)
    requires GroupPending(s, frames) && Advance(r, s, e).Some? && !e.Dispatched?
    requires e.Answered? ==> |Flatten(frames) + e.frame| < MAX_BATCHED
    ensures GroupPending(Advance(r, s, e).value, if e.Answered? then frames + [e.frame] else frames)
  {
    match e
    case Answered(f) => GroupAnswered(r, s, frames, f);
    case Request(_, fills) => GroupRead(r, s, frames, e);
    case _ =>
  }

  lemma {:induction false} GroupAnswered(r: Rules, s: Watch, frames: seq<seq<byte>>, f: seq<byte>)
    requires GroupPending(s, frames) && Advance(r, s, Answered(f)).Some? && |Flatten(frames) + f| < MAX_BATCHED
    ensures GroupPending(Advance(r, s, Answered(f)).value, frames + [f])
  {
    GroupSnoc(frames, s.since - 1, f);
  }

  lemma {:induction false} GroupRead(r: Rules, s: Watch, frames: seq<seq<byte>>, e: Event)
    requires GroupPending(s, frames) && Advance(r, s, e).Some? && e.Request?
    ensures GroupPending(Advance(r, s, e).value, frames)
  {
    assert frames[|frames|..] == [];
  }

  /** So it is without goroutines and with too little to fill the buffer. */
  lemma {:induction false} PendingGroup(r: Rules, run: Run)
    requires Follow(r, run).Some? && NoGoroutine(run) && |Flatten(Replies(r, run))| < MAX_BATCHED
    ensures GroupPending(Follow(r, run).value, Replies(r, run))
  {
    if run.Then? {
      var frames := Replies(r, run.before);
      if run.event.Answered? { FlattenSnoc(frames, run.event.frame); }
      PendingGroup(r, run.before);
      GroupStep(r, Follow(r, run.before).value, frames, run.event);
    }
  }

  lemma {:induction false} GroupSnoc(frames: seq<seq<byte>>, group: nat, f: seq<byte>)
    requires group <= |frames|
    ensures Flatten((frames + [f])[|frames| - group..]) == Flatten(frames[|frames| - group..]) + f
    ensures |Flatten(frames[|frames| - group..])| <= |Flatten(frames)|
  {
    var tail := frames[|frames| - group..];
    assert (frames + [f])[|frames| - group..] == tail + [f] && frames == frames[..|frames| - group] + tail;
    FlattenSnoc(tail, f);
    FlattenConcat(frames[..|frames| - group], tail);
  }

  // ---------------------------------------------------------------- what the client sees

  function ReplyItems(w: World, requests: seq<Message>): (r: seq<Item>)
    ensures |r| == |requests|
  {
    seq(|requests|, k requires 0 <= k < |requests| => Item(ReplyTo(w, k, requests[k]), MAGIC_BINARY))
  }

  lemma {:induction false} RepliesAreEncoded(w: World, run: Run)
    requires Follow(RulesOf(w), run).Some? && NoGoroutine(run) && Follow(RulesOf(w), run).value.current == None
    ensures Replies(RulesOf(w), run) == EncodedAll(w.lib, ReplyItems(w, Requests(run)))
  {
    OneReplyEach(RulesOf(w), run);
  }

  /** The response to a request has no error too long for the client. */
  predicate ReplyFits(w: World, k: nat, m: Message) {
    match PlanFor(w, k, m)
    case Limited => true
    case Unknown => 19 + |HeaderOf(m).service| <= 0x10_0000
    case Call(s) => ErrorFits(w.handler, w.lib, s, HeaderOf(m), m.body, k)
  }

  /** What request number k must be answered with: it is limited first, then its service looked up,
      then the call made. */
  predicate RightAnswer(w: World, k: nat, request: Message, got: Message) {
    && request.header.Some?
    && var h := request.header.value;
    if !w.allow(k) then HasError(got, h.requestID, HeaderJson.Ascii("rate limit exceeded"))
    else
      match w.lookup(k, h.service)
      case None => HasError(got, h.requestID, HeaderJson.Ascii("service not found: ") + h.service)
      case Some(s) => Answers(w.handler, w.lib, s, h, request.body, k, got)
  }

  /** The client understands the response to a request exactly if that is so, and then it is the
      answer. */
  lemma {:induction false} ReplyUnderstood(w: World, k: nat, m: Message)
    requires Faithful(w.lib) && ShortTexts(m)
    ensures var x := ReplyTo(w, k, m); var got := Decode(w.lib, Wire(w.lib, x));
      && (!ReplyFits(w, k, m) ==> got == None)
      && (ReplyFits(w, k, m) && BodyFits(w.lib, x) ==>
          got == Some(Delivered(x)) && (m.header.Some? ==> RightAnswer(w, k, m, got.value)))
  {
    match PlanFor(w, k, m)
    case Limited => ErrorAnswer(w.lib, HeaderOf(m).requestID, RATE_LIMITED);
    case Unknown => UnknownServiceAnswer(w.lib, HeaderOf(m).requestID, HeaderOf(m).service);
    case Call(s) => ResponseUnderstood(w.handler, w.lib, s, HeaderOf(m), m.body, k);
  }

  /** What a client gets of the responses to these requests: the responses, up to the first one
      it cannot understand. */
  ghost predicate Gets(w: World, requests: seq<Message>, got: seq<Message>) {
    && |got| <= |requests| && (|got| < |requests| ==> !ReplyFits(w, |got|, requests[|got|]))
    && forall k: nat :: k < |got| ==> ReplyFits(w, k, requests[k]) && GotReply(w, k, requests[k], got[k])
  }

  /** The response to the request. */
  predicate GotReply(w: World, k: nat, request: Message, got: Message) {
    && ReplyTo(w, k, request).header.Some? && got == Delivered(ReplyTo(w, k, request))
    && (request.header.Some? ==> RightAnswer(w, k, request, got))
  }

  lemma {:induction false} RepliesDecoded(w: World, requests: seq<Message>)
    requires Faithful(w.lib) && AllFramed(w.lib, ReplyItems(w, requests))
    requires forall k :: 0 <= k < |requests| ==> ShortTexts(requests[k])
    ensures Gets(w, requests, DecodeAll(Decoding(w.lib), EncodedAll(w.lib, ReplyItems(w, requests))))
  {
    var xs := ReplyItems(w, requests);
    var es, ms, decode := EncodedAll(w.lib, xs), DeliveredAll(xs), Decoding(w.lib);
    forall k: nat | k < |requests|
      ensures decode(es[k]) == if ReplyFits(w, k, requests[k]) then Some(ms[k]) else None
      ensures ReplyFits(w, k, requests[k]) ==> GotReply(w, k, requests[k], ms[k])
    {
      assert Framed(w.lib, xs[k]);
      ReplyUnderstood(w, k, requests[k]);
    }
    DecodeUpTo(decode, es, ms);
  }

  /** A client that reads what was written gets one message for each request, in order, with the
      request's id, up to the first response that it does not understand. */
  lemma {:induction false} ClientReads(w: World, run: Run)
    requires Faithful(w.lib) && Follow(RulesOf(w), run).Some? && NoGoroutine(run)
    requires Follow(RulesOf(w), run).value.current == None && Follow(RulesOf(w), run).value.pending == []
    requires AllFramed(w.lib, ReplyItems(w, Requests(run)))
    requires forall k :: 0 <= k < |Requests(run)| ==> ShortTexts(Requests(run)[k])
    ensures Gets(w, Requests(run), DecodeAll(Decoding(w.lib), Framing.Packets(Output(run))))
  {
    var xs, stream := ReplyItems(w, Requests(run)), Output(run);
    NothingLostOrDoubled(RulesOf(w), run);
    RepliesAreEncoded(w, run);
    assert stream + [] == stream;
    AnyCutting(w.lib, xs, stream, []);
    RepliesDecoded(w, Requests(run));
  }

  // ---------------------------------------------------------------- what the average means

  /** How many calls were answered in place, each folding its cost in. */
  function Folded(r: Rules, run: Run): nat {
    if run.Begin? then 0
    else
      var s := Follow(r, run.before);
      Folded(r, run.before)
      + if run.event.Answered? && s.Some? && s.value.count > 0 && s.value.current.Some?
           && r.calls(s.value.count - 1, s.value.current.value) then 1 else 0
  }

  /** The average is at most max, and at least n or low, whichever is less. */
  predicate Within(avg: nat, n: nat, low: nat, max: nat) { (if n < low then n else low) <= avg <= max }

  lemma {:induction false} FoldedWithin(avg: nat, cost: nat, n: nat, c: nat, max: nat)
    requires Within(avg, n, 8 * (c / 8), max) && c <= cost <= max
    ensures Within(Ewma(avg, cost), n + 1, 8 * (c / 8), max)
  {
    EwmaRises(avg, cost, c);
  }

  /** Over every run: the average never exceeds the largest cost of the requests read; and if none
      of them costs less than c, it rises with every call that is folded in until it is at least
      8 * (c / 8), and then stays there. */
  lemma {:induction false} AverageBounds(r: Rules, run: Run, c: nat, max: nat)
    requires Follow(r, run).Some?
    requires forall k: nat :: k < Follow(r, run).value.count ==> c <= r.cost(k) <= max
    ensures Within(Follow(r, run).value.avg, Folded(r, run), 8 * (c / 8), max)
  {
    if run.Then? {
      var s := Follow(r, run.before).value;
      AverageBounds(r, run.before, c, max);
      if run.event.Answered? { FoldedWithin(s.avg, r.cost(s.count - 1), Folded(r, run.before), c, max); }
    }
  }

  function Power(base: nat, n: nat): nat { if n == 0 then 1 else base * Power(base, n - 1) }

  lemma {:induction false} PowerPositive(base: nat, n: nat)
    requires base >= 1
    ensures Power(base, n) >= 1
  {
    if n > 0 { PowerPositive(base, n - 1); }
  }

  /** The average is above c * (1 - q / p) - 8 and below max * (1 - q / p) + 8. */
  predicate Near(avg: nat, c: nat, max: nat, p: nat, q: nat) {
    c * (p - q) - 8 * p < p * avg < max * (p - q) + 8 * p
  }

  /** Over every run, after n calls folded in, for costs between c and max: the average is so near,
      with (7/8)^n for q / p. */
  lemma {:induction false} Smoothed(r: Rules, run: Run, c: nat, max: nat)
    requires Follow(r, run).Some?
    requires forall k: nat :: k < Follow(r, run).value.count ==> c <= r.cost(k) <= max
    ensures var n := Folded(r, run); Near(Follow(r, run).value.avg, c, max, Power(8, n), Power(7, n))
  {
    if run.Then? {
      var s := Follow(r, run.before).value;
      Smoothed(r, run.before, c, max);
      if Folded(r, run) > Folded(r, run.before) {
        var n := Folded(r, run.before);
        PowerPositive(8, n);
        SmoothStep(s.avg, r.cost(s.count - 1), c, max, Power(8, n), Power(7, n));
      }
    }
  }

  lemma {:induction false} SmoothStep(avg: nat, cost: nat, c: nat, max: nat, p: nat, q: nat)
    requires c <= cost <= max && p >= 1 && Near(avg, c, max, p, q)
    ensures Near(Ewma(avg, cost), c, max, 8 * p, 7 * q)
  {
    EighthOfTheWay(avg, cost);
    Moved(avg, cost, Ewma(avg, cost), avg % 8 - cost % 8, c, p, q);
    Moved(avg, cost, Ewma(avg, cost), avg % 8 - cost % 8, max, p, q);
    Between(p, avg % 8 - cost % 8, -7, 7);
    Between(p, cost, c, max);
  }

  /** How far the new average is from x, by how far the old one was. */
  lemma {:induction false} Moved(avg: nat, cost: nat, next: nat, d: int, x: nat, p: nat, q: nat)
    requires 8 * next == 7 * avg + cost + d
    ensures (8 * p) * next - x * (8 * p - 7 * q) == 7 * (p * avg - x * (p - q)) + (p * cost - p * x) + p * d
  {
    Distribute(p, avg, cost, d, next);
    Weights(x, p, q);
  }

  lemma {:induction false} Distribute(p: nat, avg: nat, cost: nat, d: int, next: nat)
    requires 8 * next == 7 * avg + cost + d
    ensures (8 * p) * next == 7 * (p * avg) + p * cost + p * d
  {
    assert (8 * p) * next == p * (8 * next) == p * (7 * avg) + p * cost + p * d;
    assert p * (7 * avg) == 7 * (p * avg);
  }

  lemma {:induction false} Weights(x: nat, p: nat, q: nat)
    ensures x * (8 * p - 7 * q) == 7 * (x * (p - q)) + p * x
  {
    assert x * (8 * p - 7 * q) == x * (7 * (p - q)) + x * p;
    assert x * (7 * (p - q)) == 7 * (x * (p - q));
  }

  lemma {:induction false} Between(p: nat, x: int, low: int, high: int)
    requires low <= x <= high
    ensures p * low <= p * x <= p * high
  {
  }

  /** Calls below 50008 nanoseconds, the truncation included, never lead to a goroutine. */
  lemma {:induction false} FastStaysInPlace(r: Rules, run: Run)
    requires Follow(r, run).Some? && forall k :: r.cost(k) < 50_008
    ensures NoGoroutine(run) && Follow(r, run).value.alone && Follow(r, run).value.avg <= THRESHOLD
  {
    if run.Then? {
      FastStaysInPlace(r, run.before);
      var s := Follow(r, run.before).value;
      if run.event.Answered? { StaysLow(s.avg, r.cost(s.count - 1)); }
    }
  }

  /** Calls of 50008 nanoseconds and more lead to a goroutine within 50002 requests. */
  lemma {:induction false} SlowGetsGoroutines(r: Rules, run: Run)
    requires Follow(r, run).Some? && NoGoroutine(run)
    requires forall k, m :: r.calls(k, m) && r.cost(k) >= 50_008
    ensures |Requests(run)| <= 50_002
  {
    AverageCounts(r, run);
  }

  lemma {:induction false} AverageCounts(r: Rules, run: Run)
    requires Follow(r, run).Some? && NoGoroutine(run)
    requires forall k, m :: r.calls(k, m) && r.cost(k) >= 50_008
    ensures var s := Follow(r, run).value; var done := if s.current.Some? then s.count - 1 else s.count;
      && s.alone && |Requests(run)| == s.count && 0 <= done <= 50_001 && done <= s.avg
  {
    if run.Then? {
      AverageCounts(r, run.before);
      var s := Follow(r, run.before).value;
      if run.event.Answered? {
        assert r.calls(s.count - 1, s.current.value);
        EwmaRises(s.avg, r.cost(s.count - 1), 50_008);
      }
    }
  }
}
