/** Client, network and server together: encoded requests, any cutting of the bytes, the request
    loop, and a client that reads the replies; and a stream on which a reply is lost. */
module FullCircle {
  import opened Basics
  import opened Headers
  import opened Messages
  import opened EndToEnd
  import opened Framing
  import opened Receiver
  import opened Servers
  import Handlers
  import HeaderBinary
  import HeaderJson

  // ---------------------------------------------------------------- the requests arrive

  lemma {:induction false} HeaderTexts(lib: Library, x: Item)
    requires Sendable(lib, x)
    ensures ShortTexts(Delivered(x.msg))
  {
    if x.magic == MAGIC_JSON { HeaderJson.StringsInside(Effective(x.msg.header.value, x.msg.body)); }
  }

  /** The packets of a stream and the messages they decode to. */
  ghost predicate Decodes(decode: Decoder<Message>, packets: seq<seq<byte>>, msgs: seq<Message>) {
    && |packets| == |msgs|
    && forall k :: 0 <= k < |msgs| ==> decode(packets[k]) == Some(msgs[k]) && ShortTexts(msgs[k])
  }

  lemma {:induction false} RequestPackets(lib: Library, xs: seq<Item>)
    requires Faithful(lib) && AllSendable(lib, xs)
    ensures Packets(Flatten(EncodedAll(lib, xs))) == EncodedAll(lib, xs)
    ensures Decodes(Decoding(lib), EncodedAll(lib, xs), DeliveredAll(xs))
  {
    var es := EncodedAll(lib, xs);
    forall k | 0 <= k < |xs|
      ensures FrameLen(es[k]) == Some(|es[k]|) && Decode(lib, es[k]) == Some(DeliveredAll(xs)[k])
      ensures ShortTexts(DeliveredAll(xs)[k])
    {
      EncodedFrame(lib, xs[k]);
      EncodedDecodes(lib, xs[k]);
      HeaderTexts(lib, xs[k]);
    }
    PacketsOfMany(es, []);
    assert Flatten(es) + [] == Flatten(es);
  }

  lemma {:induction false} AllGood(decode: Decoder<Message>, packets: seq<seq<byte>>, msgs: seq<Message>)
    requires Decodes(decode, packets, msgs)
    ensures forall d :: d in packets && decode(d).Some? ==> ShortTexts(decode(d).value)
  {
  }

  lemma {:induction false} SameRequests(decode: Decoder<Message>, packets: seq<seq<byte>>, msgs: seq<Message>,
                                        requests: seq<Message>)
    requires Decodes(decode, packets, msgs) && TakenUp(decode, packets, requests)
    ensures |requests| < |packets| ==> decode(packets[|requests|]).Some?
    ensures |requests| == |packets| ==> requests == msgs
  {
  }

  /** On a stream whose packets all decode, with a socket that can be written, the loop takes up
      every request and leaves nothing unwritten. */
  method HandleGood(w: World, conn: Connection<Message>, ghost msgs: seq<Message>) returns (loop: RequestLoop)
    requires conn.Valid() && conn.buffer.Contents() == [] && ChunksFit(conn.incoming)
    requires Decodes(conn.decode, Packets(conn.Stream()), msgs) && forall k: nat :: w.writes(k)
    modifies conn, conn.buffer, conn.buffer.buf
    ensures fresh(loop) && loop.wire == Output(loop.run) && Requests(loop.run) == msgs
    ensures var s := Follow(RulesOf(w), loop.run);
      s.Some? && s.value.pending == [] && s.value.current == None && loop.run.Then? && loop.run.event.Stopped?
  {
    ghost var packets := Packets(conn.Stream());
    AllGood(conn.decode, packets, msgs);
    loop := new RequestLoop(w);
    var end := loop.Handle(conn);
    SameRequests(conn.decode, packets, msgs, Requests(loop.run));
    StoppedIdle(loop.rules, loop.run);
  }

  lemma {:induction false} StoppedIdle(r: Rules, run: Run)
    requires Follow(r, run).Some? && run.Then? && run.event.Stopped?
    ensures Follow(r, run).value.current == None
  {
  }

  // ---------------------------------------------------------------- and are answered

  /** Requests encoded one behind the other, cut by the network in any way, answered in place and
      read back by a client, cut again in any way: the k-th reply is the right answer to the k-th
      request, up to the first reply that the client does not understand. */
  method Serve(w: World, xs: seq<Item>, chunks: seq<seq<byte>>, recut: seq<byte> -> seq<seq<byte>>)
    returns (replies: seq<Message>)
    requires Faithful(w.lib) && AllSendable(w.lib, xs) && AllFramed(w.lib, ReplyItems(w, DeliveredAll(xs)))
    requires Flatten(chunks) == Flatten(EncodedAll(w.lib, xs)) && ChunksFit(chunks)
    requires forall k: nat :: w.writes(k) && w.cost(k) < 50_008
    requires forall b :: Flatten(recut(b)) == b
    ensures Gets(w, DeliveredAll(xs), replies)
    ensures forall k :: 0 <= k < |replies| ==> RightAnswer(w, k, xs[k].msg, replies[k])
  {
    RequestPackets(w.lib, xs);
    var server := new Connection(Decoding(w.lib), chunks, []);
    var loop := HandleGood(w, server, DeliveredAll(xs));
    FastStaysInPlace(RulesOf(w), loop.run);
    ClientReads(w, loop.run);
    var client := new Connection(Decoding(w.lib), recut(loop.wire), []);
    replies := client.ReadAll();
    AnswersToSent(w, xs, replies);
  }

  /** What answers the request that arrived answers the one that was sent. */
  lemma {:induction false} AnswersToSent(w: World, xs: seq<Item>, replies: seq<Message>)
    requires AllSendable(w.lib, xs) && Gets(w, DeliveredAll(xs), replies)
    ensures forall k :: 0 <= k < |replies| ==> RightAnswer(w, k, xs[k].msg, replies[k])
  {
    forall k: nat | k < |replies| ensures RightAnswer(w, k, xs[k].msg, replies[k]) {
      assert Sendable(w.lib, xs[k]);
      assert GotReply(w, k, DeliveredAll(xs)[k], replies[k]);
      SameAnswer(w, k, xs[k].msg, replies[k]);
    }
  }

  lemma {:induction false} SameAnswer(w: World, k: nat, request: Message, got: Message)
    requires request.header.Some?
    ensures RightAnswer(w, k, Delivered(request), got) <==> RightAnswer(w, k, request, got)
  {
  }

  // ---------------------------------------------------------------- a reply that is not understood

  /** A request with a JSON header, for a service whose name is longer than the parser of binary
      headers takes. */
  function LongName(id: uint64): Item {
    var name: text := seq(HeaderBinary.MAX_STRING, _ => 97);
    Item(Message(Some(Header(id, name, [], [], 0, NONE)), []), MAGIC_JSON)
  }

  lemma {:induction false} LongNameSendable(lib: Library, id: uint64)
    ensures Sendable(lib, LongName(id)) && Delivered(LongName(id).msg) == LongName(id).msg
  {
    var h := LongName(id).msg.header.value;
    assert HeaderJson.Safe(h);
    HeaderJson.ReservationSuffices(h);
  }

  lemma {:induction false} LongAnswer(w: World, id: uint64)
    requires w.allow(0) && w.lookup(0, LongName(id).msg.header.value.service).None?
    ensures !ReplyFits(w, 0, LongName(id).msg) && Framed(w.lib, Item(ReplyTo(w, 0, LongName(id).msg), MAGIC_BINARY))
  {
    var m := ReplyTo(w, 0, LongName(id).msg);
    EncodeFails(w.lib, m, MAGIC_BINARY);
    HeaderBinary.ReservationSuffices(Effective(m.header.value, m.body));
  }

  /** The server takes up such a request, the service is not there, and the client that sent it
      gets nothing. */
  method LosesReply(w: World, id: uint64, chunks: seq<seq<byte>>, recut: seq<byte> -> seq<seq<byte>>)
    returns (replies: seq<Message>)
    requires Faithful(w.lib) && w.allow(0) && w.lookup(0, LongName(id).msg.header.value.service).None?
    requires Flatten(chunks) == Encoded(w.lib, LongName(id)) && ChunksFit(chunks)
    requires forall k: nat :: w.writes(k) && w.cost(k) < 50_008
    requires forall b :: Flatten(recut(b)) == b
    ensures replies == []
  {
    var xs := [LongName(id)];
    LongNameSendable(w.lib, id);
    LongAnswer(w, id);
    assert DeliveredAll(xs) == [LongName(id).msg];
    assert EncodedAll(w.lib, xs) == [Encoded(w.lib, LongName(id))];
    assert Flatten([Encoded(w.lib, LongName(id))]) == Encoded(w.lib, LongName(id)) + Flatten<byte>([]);
    replies := Serve(w, xs, chunks, recut);
  }

  // ---------------------------------------------------------------- the replies that are lost

  /** The first n packets decode, and the next does not. */
  ghost predicate BadAt(decode: Decoder<Message>, packets: seq<seq<byte>>, msgs: seq<Message>) {
    && |msgs| < |packets| && decode(packets[|msgs|]).None?
    && forall k :: 0 <= k < |msgs| ==> decode(packets[k]) == Some(msgs[k])
  }

  function Frames(w: World, msgs: seq<Message>): seq<seq<byte>> { EncodedAll(w.lib, ReplyItems(w, msgs)) }

  /** A stream with a packet that does not decode, a socket that can be written, calls that are
      answered in place and responses that do not fill the buffer: the responses lost are exactly
      those to the requests that the same read of the socket completed as the bad packet.  All
      others have been written. */
  method HandleToBad(w: World, conn: Connection<Message>, ghost msgs: seq<Message>)
    returns (loop: RequestLoop, end: End)
    requires conn.Valid() && conn.buffer.Contents() == [] && ChunksFit(conn.incoming)
    requires BadAt(conn.decode, Packets(conn.Stream()), msgs) && AllShort(conn.decode, Packets(conn.Stream()))
    requires forall k: nat :: w.writes(k) && w.cost(k) < 50_008
    requires |Flatten(Frames(w, msgs))| < 0x1_0000
    modifies conn, conn.buffer, conn.buffer.buf
    ensures fresh(loop) && end == PacketBad && Requests(loop.run) == msgs
    ensures var g := FirstWith(old(conn.incoming), Packets(old(conn.Stream())), |msgs|);
      loop.wire == Flatten(Frames(w, msgs)[..g]) && loop.respBuf == Flatten(Frames(w, msgs)[g..])
  {
    ghost var chunks, packets := conn.incoming, Packets(conn.Stream());
    assert packets == Packets(Flatten(chunks)) by { assert [] + Flatten(chunks) == Flatten(chunks); }
    loop := new RequestLoop(w);
    end := loop.Handle(conn);
    UpToBad(conn.decode, packets, msgs, Requests(loop.run), end, loop.watch.pending, loop.writes);
    LostGroup(w, chunks, packets, msgs, loop.run);
  }

  lemma {:induction false} UpToBad(decode: Decoder<Message>, packets: seq<seq<byte>>, msgs: seq<Message>,
                                   requests: seq<Message>, end: End, pending: seq<byte>, writes: seq<bool>)
    requires BadAt(decode, packets, msgs) && TakenUp(decode, packets, requests)
    requires Ended(end, decode, packets, requests, pending, writes) && !end.WriteFailed?
    ensures end == PacketBad && requests == msgs
  {
  }

  /** A run that has stopped: what was pending, and whether the socket was read for the last packet. */
  lemma {:induction false} StoppedRun(r: Rules, run: Run)
    requires Follow(r, run).Some? && run.Then? && run.event.Stopped?
    ensures var s := Follow(r, run).value; var fills := Fills(run) - Fills(run.before);
      && s.current == None && fills >= 0 && (fills > 0 ==> s.pending == []) && (fills == 0 ==> s.since > 0 && !s.early)
  {
    assert Follow(r, run.before).Some?;
  }

  lemma {:induction false} LostFrames(s: Watch, frames: seq<seq<byte>>, t: Tally, g: nat)
    requires GroupPending(s, frames) && s.current == None && s.since == t.since
    requires if Onward(t).fills == t.fills then !s.early && t.since <= |frames| && g == |frames| - t.since
             else s.pending == [] && g == |frames|
    ensures s.pending == Flatten(frames[g..])
  {
  }

  lemma {:induction false} LostGroup(w: World, chunks: seq<seq<byte>>, packets: seq<seq<byte>>, msgs: seq<Message>,
                                     run: Run)
    requires Follow(RulesOf(w), run).Some? && Requests(run) == msgs && forall k: nat :: w.cost(k) < 50_008
    requires packets == Packets(Flatten(chunks)) && |msgs| < |packets|
    requires StoppedFrom(Behind(chunks, |msgs|), run, Follow(RulesOf(w), run).value.since)
    requires |Flatten(Frames(w, msgs))| < 0x1_0000
    ensures var g := FirstWith(chunks, packets, |msgs|);
      Output(run) == Flatten(Frames(w, msgs)[..g])
      && Follow(RulesOf(w), run).value.pending == Flatten(Frames(w, msgs)[g..])
  {
    GroupOf(chunks, packets, |msgs|);
    LostFrom(w, msgs, run, Behind(chunks, |msgs|), FirstWith(chunks, packets, |msgs|));
  }

  lemma {:induction false} LostFrom(w: World, msgs: seq<Message>, run: Run, t: Tally, g: nat)
    requires Follow(RulesOf(w), run).Some? && Requests(run) == msgs && forall k: nat :: w.cost(k) < 50_008
    requires StoppedFrom(t, run, Follow(RulesOf(w), run).value.since) && |Flatten(Frames(w, msgs))| < 0x1_0000
    requires if Onward(t).fills == t.fills then t.since <= |msgs| && g == |msgs| - t.since else g == |msgs|
    ensures Output(run) == Flatten(Frames(w, msgs)[..g])
    ensures Follow(RulesOf(w), run).value.pending == Flatten(Frames(w, msgs)[g..])
  {
    StoppedRun(RulesOf(w), run);
    PendingFrames(w, msgs, run);
    LostFrames(Follow(RulesOf(w), run).value, Frames(w, msgs), t, g);
    SplitAt(Frames(w, msgs), g);
    Cancel(Output(run), Flatten(Frames(w, msgs)[..g]), Flatten(Frames(w, msgs)[g..]));
  }

  lemma {:induction false} Cancel(a: seq<byte>, b: seq<byte>, x: seq<byte>)
    requires a + x == b + x
    ensures a == b
  {
    assert |a + x| == |b + x|;
    assert (a + x)[..|a|] == a && (b + x)[..|b|] == b;
  }

  lemma {:induction false} PendingFrames(w: World, msgs: seq<Message>, run: Run)
    requires Follow(RulesOf(w), run).Some? && Requests(run) == msgs && forall k: nat :: w.cost(k) < 50_008
    requires Follow(RulesOf(w), run).value.current == None && |Flatten(Frames(w, msgs))| < 0x1_0000
    ensures var s := Follow(RulesOf(w), run).value;
      GroupPending(s, Frames(w, msgs)) && Output(run) + s.pending == Flatten(Frames(w, msgs))
  {
    FastStaysInPlace(RulesOf(w), run);
    RepliesAreEncoded(w, run);
    NothingLostOrDoubled(RulesOf(w), run);
    PendingGroup(RulesOf(w), run);
  }

  // ---------------------------------------------------------------- a reply that is lost

  /** Ten zero bytes are a packet, and no message. */
  lemma {:induction false} TenZeros(lib: Library)
    ensures var d: seq<byte> := [0, 0, 0, 0, 0, 0, 0, 0, 0, 0];
      FrameLen(d) == Some(|d|) && Decode(lib, d) == None
  {
  }

  /** Before the first request a run can do nothing. */
  lemma {:induction false} NothingYet(r: Rules, run: Run)
    requires Follow(r, run).Some? && Requests(run) == [] && !Follow(r, run).value.over
    ensures run == Begin
  {
    if run.Then? { NothingYet(r, run.before); }
  }

  /** The response to the only request so far, which is no call, is pending, unless it was written
      early. */
  predicate OneInHand(r: Rules, s: Watch, m: Message, fills: nat, out: seq<byte>) {
    && s.count == 1 && !s.full && fills >= 1
    && (s.current.Some? ==> s.current.value == m && s.pending == [] && out == [] && !s.early)
    && (s.current.None? ==> s.early || (s.pending == r.answer(0, m) && out == []))
  }

  lemma {:induction false} OneInHandStep(r: Rules, s: Watch, e: Event, m: Message, fills: nat, out: seq<byte>)
    requires OneInHand(r, s, m, fills, out) && !r.calls(0, m) && Advance(r, s, e).Some?
    requires !e.Request? && !Advance(r, s, e).value.over
    ensures OneInHand(r, Advance(r, s, e).value, m, fills, if e.Wrote? then out + e.bytes else out)
  {
  }

  /** A run that has read the socket once, for a request that is no call, has its answer in the
      buffer unless it has written it early. */
  lemma {:induction false} OneAnswer(r: Rules, run: Run, m: Message)
    requires Follow(r, run).Some? && Requests(run) == [m] && !Follow(r, run).value.over && !r.calls(0, m)
    ensures OneInHand(r, Follow(r, run).value, m, Fills(run), Output(run))
  {
    if run.event.Request? {
      assert Requests(run) == Requests(run.before) + [run.event.msg] && Requests(run)[0] == m;
      NothingYet(r, run.before);
    } else {
      OneAnswer(r, run.before, m);
      OneInHandStep(r, Follow(r, run.before).value, run.event, m, Fills(run.before), Output(run.before));
    }
  }

  /** A rate-limited request and a packet that does not decode, in one read of the socket: the
      loop ends with the response still in its buffer. */
  method LosesResponse(w: World, x: Item, bad: seq<byte>) returns (loop: RequestLoop, end: End)
    requires Faithful(w.lib) && Sendable(w.lib, x) && !w.allow(0) && forall k: nat :: w.writes(k)
    requires FrameLen(bad) == Some(|bad|) && Decode(w.lib, bad) == None
    requires |Encoded(w.lib, x)| + |bad| <= BUFFER_SIZE
    ensures end == PacketBad && Requests(loop.run) == [Delivered(x.msg)] && loop.wire == []
    ensures loop.respBuf == Handlers.Wire(w.lib, Handlers.ErrorMessage(x.msg.header.value.requestID, RATE_LIMITED))
  {
    var e := Encoded(w.lib, x);
    EncodedFrame(w.lib, x);
    EncodedDecodes(w.lib, x);
    HeaderTexts(w.lib, x);
    TwoPackets(e, bad);
    var conn := new Connection(Decoding(w.lib), [e + bad], []);
    loop, end := HandleBad(w, conn, Delivered(x.msg), [e, bad]);
  }

  lemma {:induction false} FewFills(chunks: seq<seq<byte>>, run: Run, since: nat)
    requires StoppedFrom(Behind(chunks, |Requests(run)|), run, since)
    ensures Fills(run) <= |chunks|
  {
    FillsBounded(chunks, |Requests(run)| + 1);
  }

  lemma {:induction false} FillsBounded(chunks: seq<seq<byte>>, k: nat)
    ensures Behind(chunks, k).fills + |Behind(chunks, k).place.incoming| == |chunks|
  {
    if k > 0 { FillsBounded(chunks, k - 1); }
  }

  method HandleBad(w: World, conn: Connection<Message>, ghost m: Message, ghost packets: seq<seq<byte>>)
    returns (loop: RequestLoop, end: End)
    requires conn.Valid() && conn.buffer.Contents() == [] && ChunksFit(conn.incoming) && |conn.incoming| == 1
    requires packets == Packets(conn.Stream()) && |packets| == 2
    requires conn.decode(packets[0]) == Some(m) && conn.decode(packets[1]).None? && ShortTexts(m)
    requires !w.allow(0) && forall k: nat :: w.writes(k)
    modifies conn, conn.buffer, conn.buffer.buf
    ensures fresh(loop) && end == PacketBad && Requests(loop.run) == [m] && loop.wire == []
    ensures loop.respBuf == Handlers.Wire(w.lib, Handlers.ErrorMessage(HeaderOf(m).requestID, RATE_LIMITED))
  {
    ghost var chunks := conn.incoming;
    loop := new RequestLoop(w);
    end := loop.Handle(conn);
    UpToBad(conn.decode, packets, [m], Requests(loop.run), end, loop.watch.pending, loop.writes);
    FewFills(chunks, loop.run, loop.watch.since);
    OneAnswer(loop.rules, loop.run.before, m);
  }

  lemma {:induction false} TwoPackets(a: seq<byte>, b: seq<byte>)
    requires FrameLen(a) == Some(|a|) && FrameLen(b) == Some(|b|)
    ensures Flatten([a + b]) == a + b && Packets(a + b) == [a, b]
  {
    assert Flatten([a + b]) == (a + b) + Flatten<byte>([]);
    PacketInFront(a, b);
    PacketInFront(b, []);
    assert b + [] == b;
  }
}
