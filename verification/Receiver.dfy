/** Reading messages off a connection: the loops around the packet buffer.  The decoder of a
    single packet is a parameter; EndToEnd puts the real one in. */
module Receiver {
  import opened Basics
  import opened Framing
  import Messages

  const BUFFER_SIZE := 4096

  /** The most packets a read of the socket can complete: one begun before, the others at least
      ten bytes each. */
  const PER_READ := 1 + (BUFFER_SIZE - 1) / Messages.FIXED

  /** One read of the socket fills at most the read buffer. */
  ghost predicate ChunksFit(chunks: seq<seq<byte>>) {
    forall i :: 0 <= i < |chunks| ==> |chunks[i]| <= BUFFER_SIZE
  }

  type Decoder<!M> = seq<byte> -> Option<M>

  datatype ReadResult<M> = Received(msg: M) | BadPacket | Eof

  /** The messages decoded from a list of packets, up to the first bad one. */
  function DecodeAll<M>(decode: Decoder<M>, packets: seq<seq<byte>>): (r: seq<M>) {
    if packets == [] then []
    else
      var m := decode(packets[0]);
      if m.None? then [] else [m.value] + DecodeAll(decode, packets[1..])
  }

  /** One read from a stream: its result, and the stream behind the packet.  At the end of the
      stream bytes may still have come in together with the error. */
  ghost predicate Reads<M>(decode: Decoder<M>, before: seq<byte>, r: ReadResult<M>, after: seq<byte>) {
    var n := FrameLen(before);
    if n.None? then r == Eof && before <= after
    else
      && after == before[n.value..]
      && r == (var m := decode(before[..n.value]); if m.None? then BadPacket else Received(m.value))
  }

  /** The packets buffered may all be taken before the socket is read again. */
  ghost predicate Few(buffered: seq<byte>, since: nat) { since + |Packets(buffered)| <= PER_READ }

  function Since(since: nat, fills: int): nat { if fills > 0 then 1 else since + 1 }

  /** What a read takes off the packets of a stream. */
  ghost predicate Takes<M>(decode: Decoder<M>, packets: seq<seq<byte>>, r: ReadResult<M>, rest: seq<seq<byte>>) {
    match r
    case Received(m) => packets != [] && decode(packets[0]) == Some(m) && rest == packets[1..]
    case BadPacket => packets != [] && decode(packets[0]).None?
    case Eof => packets == []
  }

  /** How many reads of the socket bring in the first n bytes of what it delivers. */
  function Needed(chunks: seq<seq<byte>>, n: int): (k: nat)
    ensures k <= |chunks|
  {
    if n <= 0 || chunks == [] then 0 else 1 + Needed(chunks[1..], n - |chunks[0]|)
  }

  /** What the socket will still deliver, and what is in the buffer. */
  datatype Place = Place(incoming: seq<seq<byte>>, queue: seq<byte>) {
    function Stream(): seq<byte> { queue + Flatten(incoming) }
  }

  /** The place after one read of the socket. */
  function Refilled(p: Place): Place
    requires p.incoming != []
  {
    Place(p.incoming[1..], p.queue + p.incoming[0])
  }

  /** The place behind the next packet; the socket is read until it is complete. */
  function Take(p: Place): Place
    decreases |p.incoming|
  {
    if FrameLen(p.queue).Some? then Place(p.incoming, p.queue[FrameLen(p.queue).value..])
    else if p.incoming == [] then p
    else Take(Refilled(p))
  }

  /** Where reading has come: the place, how often the socket was read, how many packets were taken
      and how many of them since it was read last. */
  datatype Tally = Tally(place: Place, fills: int, taken: nat, since: nat)

  function Onward(t: Tally): Tally {
    var next := Take(t.place);
    var more := |t.place.incoming| - |next.incoming|;
    Tally(next, t.fills + more, t.taken + 1, Since(t.since, more))
  }

  /** Where it is behind k packets. */
  function Behind(chunks: seq<seq<byte>>, k: nat): Tally {
    if k == 0 then Tally(Place(chunks, []), 0, 0, 0) else Onward(Behind(chunks, k - 1))
  }

  /** The reading half of a connection.  `incoming` is what the socket will still deliver, read
      by read; then it reports an error, the end of the file for one, with `late` as the bytes
      that come along with it. */
  class Connection<M> {
    const decode: Decoder<M>
    const buffer: PacketBuffer
    var incoming: seq<seq<byte>>
    var late: seq<byte>

    ghost predicate Valid()
      reads this, buffer, buffer.buf
    {
      buffer.Valid()
    }

    /** All bytes not yet handed out, but the late ones. */
    ghost function Stream(): seq<byte>
      requires Valid()
      reads this, buffer, buffer.buf
    {
      buffer.Contents() + Flatten(incoming)
    }

    ghost function Where(): Place
      requires Valid()
      reads this, buffer, buffer.buf
    {
      Place(incoming, buffer.Contents())
    }

    constructor (decode: Decoder<M>, chunks: seq<seq<byte>>, late: seq<byte>)
      ensures Valid() && fresh(buffer) && fresh(buffer.buf)
      ensures this.decode == decode && incoming == chunks && this.late == late
      ensures buffer.Contents() == [] && Stream() == Flatten(chunks)
    {
      this.decode := decode;
      buffer := new PacketBuffer(2 * BUFFER_SIZE);
      incoming := chunks;
      this.late := late;
    }

    /** One round of the read loop that finds no packet: one socket read into the buffer. */
    method ReadSocket() returns (eof: bool)
      requires Valid()
      modifies this, buffer, buffer.buf
      ensures Valid() && (buffer.buf == old(buffer.buf) || fresh(buffer.buf))
      ensures Stream() == old(Stream()) + if eof then old(late) else []
      ensures eof <==> old(incoming) == []
      ensures incoming == if eof then old(incoming) else old(incoming)[1..]
      ensures !eof ==> buffer.Contents() == old(buffer.Contents()) + old(incoming)[0]
      ensures ChunksFit(old(incoming)) ==> ChunksFit(incoming)
      ensures !eof && ChunksFit(old(incoming)) && FrameLen(old(buffer.Contents())) == None ==>
        |Packets(buffer.Contents())| <= PER_READ
      ensures !eof ==> late == old(late)
    {
      if incoming == [] {
        assert (buffer.Contents() + []) + late == (buffer.Contents() + late) + [];
        if |late| > 0 { buffer.Write(late); }
        late := [];
        return true;
      }
      eof := false;
      var chunk := incoming[0];
      assert (buffer.Contents() + chunk) + Flatten(incoming[1..])
        == buffer.Contents() + (chunk + Flatten(incoming[1..]));
      FewPackets(buffer.Contents(), chunk);
      incoming := incoming[1..];
      buffer.Write(chunk);
    }

    /** Decodes the packet at the head of the buffer, if it is complete. */
    method TakePacket() returns (r: Option<ReadResult<M>>)
      requires Valid()
      modifies buffer
      ensures Valid() && buffer.buf == old(buffer.buf)
      ensures FrameLen(old(buffer.Contents())).None? ==> r.None? && buffer.Contents() == old(buffer.Contents())
      ensures FrameLen(old(buffer.Contents())).Some? ==>
        && r.Some? && !r.value.Eof?
        && Reads(decode, old(buffer.Contents()), r.value, buffer.Contents())
        && Reads(decode, old(Stream()), r.value, Stream())
        && |Packets(old(buffer.Contents()))| == 1 + |Packets(buffer.Contents())|
    {
      ghost var queue := buffer.Contents();
      var packet := buffer.ReadBorrowed();
      if packet.None? { return None; }
      ghost var p := buffer.buf[packet.value.lo..packet.value.hi];
      TakenOff(queue, p, buffer.Contents(), Flatten(incoming));
      PacketsShift(queue, p, buffer.Contents());
      var m := decode(packet.value.arr[packet.value.lo..packet.value.hi]);
      return Some(if m.None? then BadPacket else Received(m.value));
    }

    /** One round: the packet at the head of the buffer, or else a read of the socket. */
    method ReadStep() returns (r: Option<ReadResult<M>>)
      requires Valid()
      modifies this, buffer, buffer.buf
      ensures Valid() && (buffer.buf == old(buffer.buf) || fresh(buffer.buf))
      ensures r.Some? <==> FrameLen(old(buffer.Contents())).Some? || old(incoming) == []
      ensures r.Some? ==> incoming == old(incoming) && Reads(decode, old(Stream()), r.value, Stream())
      ensures r.Some? ==> if FrameLen(old(buffer.Contents())).None?
        then r.value.Eof? && Stream() == old(Stream()) + old(late)
        else !r.value.Eof? && Reads(decode, old(buffer.Contents()), r.value, buffer.Contents())
      ensures r.None? ==> Stream() == old(Stream()) && late == old(late)
      ensures r.None? ==>
        incoming == old(incoming)[1..] && buffer.Contents() == old(buffer.Contents()) + old(incoming)[0]
      ensures r.None? && ChunksFit(old(incoming)) ==> ChunksFit(incoming) && |Packets(buffer.Contents())| <= PER_READ
    {
      r := TakePacket();
      if r.None? {
        assert incoming == [] ==> Stream() == buffer.Contents();
        var eof := ReadSocket();
        if eof { r := Some(Eof); }
      }
    }

    /** Reads the socket only while no complete packet is buffered.  After an error it returns
        without looking at what came along. */
    method ReadBorrowed() returns (r: ReadResult<M>)
      requires Valid()
      modifies this, buffer, buffer.buf
      ensures Valid() && (buffer.buf == old(buffer.buf) || fresh(buffer.buf))
      ensures Reads(decode, old(Stream()), r, Stream())
      ensures FrameLen(old(buffer.Contents())).Some? ==>
        !r.Eof? && incoming == old(incoming) && Reads(decode, old(buffer.Contents()), r, buffer.Contents())
      ensures r.Eof? ==> incoming == [] && Stream() == old(Stream()) + old(late)
      ensures |incoming| <= |old(incoming)| && (ChunksFit(old(incoming)) ==> ChunksFit(incoming))
      ensures FrameLen(old(buffer.Contents())).None? && !r.Eof? ==> |incoming| < |old(incoming)|
      ensures !r.Eof? ==> Where() == Take(old(Where()))
      ensures r.Received? && |incoming| < |old(incoming)| && ChunksFit(old(incoming)) ==>
        1 + |Packets(buffer.Contents())| <= PER_READ
    {
      ghost var start := Where();
      while true
        invariant Valid() && (buffer.buf == old(buffer.buf) || fresh(buffer.buf))
        invariant Stream() == old(Stream()) && late == old(late)
        invariant Take(Where()) == Take(start)
        invariant |incoming| <= |old(incoming)| && (ChunksFit(old(incoming)) ==> ChunksFit(incoming))
        invariant |incoming| == |old(incoming)| ==>
          incoming == old(incoming) && buffer.Contents() == old(buffer.Contents())
        invariant |incoming| < |old(incoming)| ==> FrameLen(old(buffer.Contents())).None?
        invariant |incoming| < |old(incoming)| && ChunksFit(old(incoming)) ==> |Packets(buffer.Contents())| <= PER_READ
        decreases |incoming|
      {
        ghost var queue := buffer.Contents();
        var step := ReadStep();
        if step.Some? {
          BufferedOne(decode, queue, step.value, buffer.Contents());
          return step.value;
        }
      }
    }

    /** ReadBorrowed for a caller that counts how often the socket was read, the failing read
        included, and how many packets were taken since.  The socket is read exactly if no packet
        is buffered. */
    method ReadCounted(ghost good: M -> bool, ghost since: nat) returns (r: ReadResult<M>, ghost fills: nat)
      requires Valid() && ChunksFit(incoming) && Few(buffer.Contents(), since)
      requires forall d :: d in Packets(Stream()) && decode(d).Some? ==> good(decode(d).value)
      modifies this, buffer, buffer.buf
      ensures Valid() && (buffer.buf == old(buffer.buf) || fresh(buffer.buf)) && ChunksFit(incoming)
      ensures fills == |old(incoming)| - |incoming| + if r.Eof? then 1 else 0
      ensures fills == 0 <==> FrameLen(old(buffer.Contents())).Some?
      ensures Takes(decode, Packets(old(Stream())), r, Packets(Stream()))
      ensures !r.Eof? ==> Where() == Take(old(Where()))
      ensures r.Received? ==>
        good(r.msg) && Few(buffer.Contents(), Since(since, fills)) && |Stream()| < |old(Stream())|
    {
      ghost var before, queue, chunks := Stream(), buffer.Contents(), |incoming|;
      r := ReadBorrowed();
      fills := chunks - |incoming| + if r.Eof? then 1 else 0;
      TakesHead(decode, before, r, Stream());
      BufferedOne(decode, queue, r, buffer.Contents());
    }

    /** The read loop: messages until the stream ends or a packet is bad. */
    method ReadAll() returns (msgs: seq<M>)
      requires Valid()
      modifies this, buffer, buffer.buf
      ensures Valid()
      ensures msgs == DecodeAll(decode, Packets(old(Stream())))
    {
      msgs := [];
      ghost var stream := Stream();
      var going := true;
      while going
        invariant Valid() && (buffer.buf == old(buffer.buf) || fresh(buffer.buf))
        invariant DecodeAll(decode, Packets(stream))
          == if going then msgs + DecodeAll(decode, Packets(Stream())) else msgs
        decreases if going then 1 else 0, |Stream()|
      {
        ghost var before := Stream();
        var r := ReadBorrowed();
        NextRead(decode, msgs, before, r, Stream());
        if r.Received? { msgs := msgs + [r.msg]; } else { going := false; }
      }
    }
  }

  lemma {:induction false} StillMissing(queue: seq<byte>, more: seq<byte>)
    requires FrameLen(queue).None?
    ensures FrameLen(queue + more).Some? ==> FrameLen(queue + more).value > |queue|
  {
  }

  lemma {:induction false} TakenOff(queue: seq<byte>, p: seq<byte>, rest: seq<byte>, more: seq<byte>)
    requires FrameLen(queue) == Some(|p|) && queue == p + rest
    ensures FrameLen(queue + more) == Some(|p|)
    ensures (queue + more)[..|p|] == p && (queue + more)[|p|..] == rest + more
    ensures queue[..|p|] == p && queue[|p|..] == rest
  {
    FrameLenAppend(queue, more);
  }

  lemma {:induction false} PacketsShift(queue: seq<byte>, p: seq<byte>, rest: seq<byte>)
    requires FrameLen(queue) == Some(|p|) && queue == p + rest
    ensures Packets(queue) == [p] + Packets(rest)
  {
    assert queue[..|p|] == p && queue[|p|..] == rest;
  }

  lemma {:induction false} TakesHead<M>(decode: Decoder<M>, before: seq<byte>, r: ReadResult<M>, after: seq<byte>)
    requires Reads(decode, before, r, after)
    ensures Takes(decode, Packets(before), r, Packets(after))
    ensures r.Received? ==> |after| < |before|
    ensures !r.Eof? ==> Packets(before)[0] in Packets(before)
  {
  }

  lemma {:induction false} BufferedOne<M>(decode: Decoder<M>, before: seq<byte>, r: ReadResult<M>, after: seq<byte>)
    ensures FrameLen(before).Some? && Reads(decode, before, r, after) ==> |Packets(before)| == 1 + |Packets(after)|
  {
  }

  lemma {:induction false} FewPackets(queue: seq<byte>, chunk: seq<byte>)
    ensures FrameLen(queue) == None && |chunk| <= BUFFER_SIZE ==> |Packets(queue + chunk)| <= PER_READ
  {
    if chunk == [] {
      assert queue + [] == queue;
    } else if FrameLen(queue) == None {
      PacketsPerRead(queue, chunk);
    }
  }

  lemma {:induction false} NextRead<M>(decode: Decoder<M>, msgs: seq<M>, before: seq<byte>, r: ReadResult<M>,
                                       after: seq<byte>)
    requires Reads(decode, before, r, after)
    ensures r.Received? ==> |after| < |before|
    ensures msgs + DecodeAll(decode, Packets(before)) ==
      if r.Received? then (msgs + [r.msg]) + DecodeAll(decode, Packets(after)) else msgs
  {
    if FrameLen(before).Some? {
      assert Packets(before)[1..] == Packets(after);
    }
  }

  // ---------------------------------------------------------------- which read completes which packet

  /** How many bytes the first k packets take up. */
  function EndOf(packets: seq<seq<byte>>, k: nat): nat
    requires k <= |packets|
  {
    |Flatten(packets[..k])|
  }

  /** The read of the socket that brings in the last byte of packet k, counted from one. */
  function CompletedBy(chunks: seq<seq<byte>>, packets: seq<seq<byte>>, k: nat): nat
    requires k < |packets|
  {
    Needed(chunks, EndOf(packets, k + 1))
  }

  lemma {:induction false} NeededMore(chunks: seq<seq<byte>>, b: nat, n: nat)
    requires b <= |Flatten(chunks)| && n > 0
    ensures var k := Needed(chunks, b);
      |Flatten(chunks[..k])| >= b && Needed(chunks, b + n) == k + Needed(chunks[k..], b + n - |Flatten(chunks[..k])|)
  {
    if b > 0 {
      var k := Needed(chunks, b);
      if b <= |chunks[0]| {
        assert Needed(chunks[1..], b - |chunks[0]|) == 0;
        assert chunks[..1] == [chunks[0]] && Flatten([chunks[0]]) == chunks[0] + Flatten<byte>([]);
      } else {
        NeededMore(chunks[1..], b - |chunks[0]|, n);
        assert chunks[..k] == [chunks[0]] + chunks[1..][..k - 1] && chunks[k..] == chunks[1..][k - 1..];
      }
    }
  }

  lemma {:induction false} NeededGrows(chunks: seq<seq<byte>>, a: int, b: int)
    requires a <= b
    ensures Needed(chunks, a) <= Needed(chunks, b)
  {
    if a > 0 && chunks != [] { NeededGrows(chunks[1..], a - |chunks[0]|, b - |chunks[0]|); }
  }

  lemma {:induction false} OneMorePacket(packets: seq<seq<byte>>, k: nat)
    requires k < |packets|
    ensures EndOf(packets, k + 1) == EndOf(packets, k) + |packets[k]|
  {
    assert packets[..k + 1] == packets[..k] + [packets[k]];
    FlattenSnoc(packets[..k], packets[k]);
  }

  /** One packet was taken, and the socket read just as often as that needs. */
  ghost predicate OnePacket(p: Place, next: Place) {
    && |next.incoming| <= |p.incoming| && next.incoming == p.incoming[|p.incoming| - |next.incoming|..]
    && FrameLen(p.Stream()).Some?
    && |p.incoming| - |next.incoming| == Needed(p.incoming, FrameLen(p.Stream()).value - |p.queue|)
    && next.Stream() == p.Stream()[FrameLen(p.Stream()).value..]
  }

  lemma {:induction false} SplitAt(chunks: seq<seq<byte>>, k: nat)
    requires k <= |chunks|
    ensures Flatten(chunks) == Flatten(chunks[..k]) + Flatten(chunks[k..])
  {
    assert chunks == chunks[..k] + chunks[k..];
    FlattenConcat(chunks[..k], chunks[k..]);
  }

  lemma {:induction false} CutFront(a: seq<byte>, b: seq<byte>, n: nat)
    requires n <= |a|
    ensures (a + b)[n..] == a[n..] + b
  {
  }

  lemma {:induction false} OneRead(p: Place)
    requires FrameLen(p.queue).None? && FrameLen(p.Stream()).Some?
    ensures p.incoming != [] && Refilled(p).Stream() == p.Stream()
    ensures var n := FrameLen(p.Stream()).value;
      Needed(p.incoming, n - |p.queue|) == 1 + Needed(Refilled(p).incoming, n - |Refilled(p).queue|)
  {
    StillMissing(p.queue, Flatten(p.incoming));
    assert p.queue + [] == p.queue;
    assert p.queue + (p.incoming[0] + Flatten(p.incoming[1..])) == Refilled(p).Stream();
  }

  lemma {:induction false} Further(a: seq<seq<byte>>, b: seq<seq<byte>>, c: seq<seq<byte>>)
    requires |c| <= |b| <= |a| && b == a[|a| - |b|..] && c == b[|b| - |c|..]
    ensures c == a[|a| - |c|..]
  {
  }

  lemma {:induction false} OneReadMore(p: Place, q: Place, next: Place)
    requires FrameLen(p.Stream()).Some? && q.Stream() == p.Stream()
    requires p.incoming != [] && q.incoming == p.incoming[1..] && OnePacket(q, next)
    requires var n := FrameLen(p.Stream()).value;
      Needed(p.incoming, n - |p.queue|) == 1 + Needed(q.incoming, n - |q.queue|)
    ensures OnePacket(p, next)
  {
    Further(p.incoming, q.incoming, next.incoming);
  }

  lemma {:induction false} NoRead(p: Place)
    requires FrameLen(p.queue).Some?
    ensures OnePacket(p, Place(p.incoming, p.queue[FrameLen(p.queue).value..]))
  {
    FrameLenAppend(p.queue, Flatten(p.incoming));
    CutFront(p.queue, Flatten(p.incoming), FrameLen(p.queue).value);
  }

  lemma {:induction false} TakeTakes(p: Place)
    requires FrameLen(p.Stream()).Some?
    ensures OnePacket(p, Take(p))
    decreases |p.incoming|
  {
    if FrameLen(p.queue).Some? {
      NoRead(p);
    } else {
      OneRead(p);
      TakeTakes(Refilled(p));
      OneReadMore(p, Refilled(p), Take(Refilled(p)));
    }
  }

  /** The socket was read just as often as the first b bytes need, which have been taken. */
  ghost predicate ReadsTo(chunks: seq<seq<byte>>, b: nat, p: Place) {
    && |p.incoming| <= |chunks| && p.incoming == chunks[|chunks| - |p.incoming|..]
    && |chunks| - |p.incoming| == Needed(chunks, b)
    && |Flatten(chunks)| == b + |p.Stream()|
  }

  /** The first k packets were taken, and the socket read just as often as they need. */
  ghost predicate ReadUpTo(chunks: seq<seq<byte>>, packets: seq<seq<byte>>, k: nat, p: Place) {
    k <= |packets| && Packets(p.Stream()) == packets[k..] && ReadsTo(chunks, EndOf(packets, k), p)
  }

  lemma {:induction false} NextPacket(packets: seq<seq<byte>>, k: nat, stream: seq<byte>)
    requires k <= |packets| && Packets(stream) == packets[k..] && FrameLen(stream).Some?
    ensures var n := FrameLen(stream).value;
      && k < |packets| && packets[k] == stream[..n] && Packets(stream[n..]) == packets[k + 1..]
      && EndOf(packets, k + 1) == EndOf(packets, k) + n
  {
    var n := FrameLen(stream).value;
    assert Packets(stream) == [stream[..n]] + Packets(stream[n..]);
    assert packets[k..][0] == packets[k] && packets[k..][1..] == packets[k + 1..];
    OneMorePacket(packets, k);
  }

  lemma {:induction false} ReadsNeeded(chunks: seq<seq<byte>>, b: nat, n: nat, p: Place)
    requires ReadsTo(chunks, b, p) && n > 0
    ensures Needed(chunks, b + n) == |chunks| - |p.incoming| + Needed(p.incoming, n - |p.queue|)
  {
    NeededMore(chunks, b, n);
    SplitAt(chunks, |chunks| - |p.incoming|);
  }

  lemma {:induction false} ReadsOn(chunks: seq<seq<byte>>, b: nat, p: Place, next: Place)
    requires ReadsTo(chunks, b, p) && OnePacket(p, next)
    ensures ReadsTo(chunks, b + FrameLen(p.Stream()).value, next)
  {
    ReadsNeeded(chunks, b, FrameLen(p.Stream()).value, p);
    Further(chunks, p.incoming, next.incoming);
  }

  lemma {:induction false} ReadOn(chunks: seq<seq<byte>>, packets: seq<seq<byte>>, k: nat, p: Place, next: Place)
    requires ReadUpTo(chunks, packets, k, p) && OnePacket(p, next)
    ensures k < |packets| && ReadUpTo(chunks, packets, k + 1, next)
  {
    NextPacket(packets, k, p.Stream());
    ReadsOn(chunks, EndOf(packets, k), p, next);
  }

  /** So behind k packets the socket was read just as often as they need. */
  lemma {:induction false} BehindIs(chunks: seq<seq<byte>>, packets: seq<seq<byte>>, k: nat)
    requires packets == Packets(Flatten(chunks)) && k <= |packets|
    ensures var t := Behind(chunks, k);
      ReadUpTo(chunks, packets, k, t.place) && t.fills == |chunks| - |t.place.incoming| && t.taken == k
  {
    if k == 0 {
      assert [] + Flatten(chunks) == Flatten(chunks);
    } else {
      BehindIs(chunks, packets, k - 1);
      TakeTakes(Behind(chunks, k - 1).place);
      ReadOn(chunks, packets, k - 1, Behind(chunks, k - 1).place, Behind(chunks, k).place);
    }
  }

  /** Of k packets the last `since` were completed by the last read of the socket, the others before. */
  ghost predicate LastRead(chunks: seq<seq<byte>>, packets: seq<seq<byte>>, k: nat, since: nat) {
    && since <= k <= |packets| && (since == 0 ==> k == 0)
    && (since > 0 ==>
        && CompletedBy(chunks, packets, k - since) == Needed(chunks, EndOf(packets, k))
        && Needed(chunks, EndOf(packets, k - since)) < CompletedBy(chunks, packets, k - since))
  }

  lemma {:induction false} LastReadOn(chunks: seq<seq<byte>>, packets: seq<seq<byte>>, k: nat, since: nat, more: nat)
    requires k < |packets| && LastRead(chunks, packets, k, since)
    requires CompletedBy(chunks, packets, k) == Needed(chunks, EndOf(packets, k)) + more && (k == 0 ==> more > 0)
    ensures LastRead(chunks, packets, k + 1, Since(since, more))
  {
  }

  lemma {:induction false} SinceIs(chunks: seq<seq<byte>>, packets: seq<seq<byte>>, k: nat)
    requires packets == Packets(Flatten(chunks)) && k <= |packets|
    ensures LastRead(chunks, packets, k, Behind(chunks, k).since)
  {
    if k > 0 {
      SinceIs(chunks, packets, k - 1);
      SinceOn(chunks, packets, k - 1);
    }
  }

  lemma {:induction false} SinceOn(chunks: seq<seq<byte>>, packets: seq<seq<byte>>, k: nat)
    requires packets == Packets(Flatten(chunks)) && k < |packets|
    requires LastRead(chunks, packets, k, Behind(chunks, k).since)
    ensures LastRead(chunks, packets, k + 1, Behind(chunks, k + 1).since)
  {
    var more := TakenReads(chunks, packets, k);
    LastReadOn(chunks, packets, k, Behind(chunks, k).since, more);
  }

  /** The reads of the socket for one packet. */
  lemma {:induction false} TakenReads(chunks: seq<seq<byte>>, packets: seq<seq<byte>>, k: nat) returns (more: nat)
    requires packets == Packets(Flatten(chunks)) && k < |packets|
    ensures Behind(chunks, k + 1).since == Since(Behind(chunks, k).since, more)
    ensures CompletedBy(chunks, packets, k) == Needed(chunks, EndOf(packets, k)) + more && (k == 0 ==> more > 0)
  {
    BehindIs(chunks, packets, k);
    BehindIs(chunks, packets, k + 1);
    OneMorePacket(packets, k);
    NeededGrows(chunks, EndOf(packets, k), EndOf(packets, k + 1));
    more := |Behind(chunks, k).place.incoming| - |Behind(chunks, k + 1).place.incoming|;
    if k == 0 { FirstNeedsOne(chunks, packets); }
  }

  lemma {:induction false} FirstNeedsOne(chunks: seq<seq<byte>>, packets: seq<seq<byte>>)
    requires packets == Packets(Flatten(chunks)) && packets != []
    ensures CompletedBy(chunks, packets, 0) > 0 && EndOf(packets, 0) == 0
  {
    OneMorePacket(packets, 0);
  }

  /** The first of the packets that the same read of the socket completed as packet n. */
  function FirstWith(chunks: seq<seq<byte>>, packets: seq<seq<byte>>, n: nat): (g: nat)
    requires n < |packets|
    ensures g <= n
  {
    if n > 0 && CompletedBy(chunks, packets, n - 1) == CompletedBy(chunks, packets, n) then
      FirstWith(chunks, packets, n - 1)
    else n
  }

  lemma {:induction false} FirstWithIs(chunks: seq<seq<byte>>, packets: seq<seq<byte>>, n: nat, a: nat)
    requires a <= n < |packets| && CompletedBy(chunks, packets, a) == CompletedBy(chunks, packets, n)
    requires a > 0 ==> CompletedBy(chunks, packets, a - 1) < CompletedBy(chunks, packets, a)
    ensures FirstWith(chunks, packets, n) == a
  {
    if a < n {
      CompletedLater(chunks, packets, a, n - 1);
      CompletedLater(chunks, packets, n - 1, n);
      FirstWithIs(chunks, packets, n - 1, a);
    }
  }

  lemma {:induction false} CompletedLater(chunks: seq<seq<byte>>, packets: seq<seq<byte>>, a: nat, b: nat)
    requires a <= b < |packets|
    ensures CompletedBy(chunks, packets, a) <= CompletedBy(chunks, packets, b)
  {
    EndsIncrease(packets, a + 1, b + 1);
    NeededGrows(chunks, EndOf(packets, a + 1), EndOf(packets, b + 1));
  }

  lemma {:induction false} EndsIncrease(packets: seq<seq<byte>>, a: nat, b: nat)
    requires a <= b <= |packets|
    ensures EndOf(packets, a) <= EndOf(packets, b)
  {
    if a < b {
      EndsIncrease(packets, a, b - 1);
      OneMorePacket(packets, b - 1);
    }
  }

  lemma {:induction false} FillsAre(chunks: seq<seq<byte>>, packets: seq<seq<byte>>, k: nat)
    requires packets == Packets(Flatten(chunks)) && k <= |packets|
    ensures Behind(chunks, k).fills == Needed(chunks, EndOf(packets, k))
  {
    BehindIs(chunks, packets, k);
  }

  lemma {:induction false} GroupFrom(chunks: seq<seq<byte>>, packets: seq<seq<byte>>, n: nat, since: nat)
    requires n < |packets| && LastRead(chunks, packets, n, since) && since > 0
    requires CompletedBy(chunks, packets, n) == Needed(chunks, EndOf(packets, n))
    ensures FirstWith(chunks, packets, n) == n - since
  {
    FirstWithIs(chunks, packets, n, n - since);
  }

  /** What the tally behind n packets, and one onward, say of packet n. */
  lemma {:induction false} GroupOf(chunks: seq<seq<byte>>, packets: seq<seq<byte>>, n: nat)
    requires packets == Packets(Flatten(chunks)) && n < |packets|
    ensures var t := Behind(chunks, n); var g := FirstWith(chunks, packets, n);
      if Onward(t).fills == t.fills then t.since <= n && g == n - t.since else g == n
  {
    FillsAre(chunks, packets, n);
    FillsAre(chunks, packets, n + 1);
    Groups(chunks, packets, n, Behind(chunks, n), Behind(chunks, n + 1).fills);
  }

  lemma {:induction false} Groups(chunks: seq<seq<byte>>, packets: seq<seq<byte>>, n: nat, t: Tally, fills: int)
    requires packets == Packets(Flatten(chunks)) && n < |packets| && t == Behind(chunks, n)
    requires t.fills == Needed(chunks, EndOf(packets, n)) && fills == CompletedBy(chunks, packets, n)
    ensures if fills == t.fills then t.since <= n && FirstWith(chunks, packets, n) == n - t.since
            else FirstWith(chunks, packets, n) == n
  {
    SinceIs(chunks, packets, n);
    if n == 0 {
      FirstNeedsOne(chunks, packets);
    } else if fills == t.fills {
      GroupFrom(chunks, packets, n, t.since);
    }
  }

  // ---------------------------------------------------------------- bytes that come with an error

  /** Bytes that come along with the error complete no packet exactly if the incomplete one at the
      end of the stream stays so; otherwise they complete packets behind all the others. */
  lemma {:induction false} LatePackets(stream: seq<byte>, late: seq<byte>)
    ensures Packets(stream + late) == Packets(stream) + Packets(Rest(stream) + late)
    ensures Packets(stream + late) == Packets(stream) <==> FrameLen(Rest(stream) + late).None?
  {
    PacketsAppend(stream, late);
    assert Packets(stream + late) == Packets(stream) <==> Packets(Rest(stream) + late) == [];
  }

  /** The messages lost so, when all the others were good. */
  lemma {:induction false} LateMessages<M>(decode: Decoder<M>, stream: seq<byte>, late: seq<byte>)
    requires |DecodeAll(decode, Packets(stream))| == |Packets(stream)|
    ensures DecodeAll(decode, Packets(stream + late))
      == DecodeAll(decode, Packets(stream)) + DecodeAll(decode, Packets(Rest(stream) + late))
  {
    LatePackets(stream, late);
    DecodeBehind(decode, Packets(stream), Packets(Rest(stream) + late));
  }

  lemma {:induction false} DecodeBehind<M>(decode: Decoder<M>, ps: seq<seq<byte>>, qs: seq<seq<byte>>)
    requires |DecodeAll(decode, ps)| == |ps|
    ensures DecodeAll(decode, ps + qs) == DecodeAll(decode, ps) + DecodeAll(decode, qs)
  {
    if ps == [] {
      assert ps + qs == qs;
    } else {
      assert (ps + qs)[1..] == ps[1..] + qs;
      DecodeBehind(decode, ps[1..], qs);
    }
  }

  /** A packet that comes along with the error is not handed out. */
  method LosesLate<M>(decode: Decoder<M>, late: seq<byte>) returns (msgs: seq<M>)
    requires FrameLen(late) == Some(|late|) && decode(late).Some?
    ensures msgs == [] && DecodeAll(decode, Packets(late)) == [decode(late).value]
  {
    var conn := new Connection(decode, [], late);
    msgs := conn.ReadAll();
    assert late[..|late|] == late && late[|late|..] == [];
    assert DecodeAll(decode, [late][1..]) == [];
  }

  // ---------------------------------------------------------------- streams of packets

  predicate WholePackets(es: seq<seq<byte>>) {
    forall i :: 0 <= i < |es| ==> FrameLen(es[i]) == Some(|es[i]|)
  }

  lemma {:induction false} PacketInFront(e: seq<byte>, tail: seq<byte>)
    requires FrameLen(e) == Some(|e|)
    ensures Packets(e + tail) == [e] + Packets(tail) && Rest(e + tail) == Rest(tail)
  {
    FrameLenAppend(e, tail);
    assert (e + tail)[..|e|] == e && (e + tail)[|e|..] == tail;
  }

  /** Whole packets one behind the other, and an incomplete one at the end, are cut apart again. */
  lemma {:induction false} PacketsOfMany(es: seq<seq<byte>>, partial: seq<byte>)
    requires WholePackets(es) && FrameLen(partial) == None
    ensures Packets(Flatten(es) + partial) == es && Rest(Flatten(es) + partial) == partial
  {
    if es == [] {
      assert [] + partial == partial;
    } else {
      PacketsOfMany(es[1..], partial);
      PacketInFront(es[0], Flatten(es[1..]) + partial);
      FlattenInFront(es, partial);
    }
  }

  lemma {:induction false} FlattenInFront<T>(parts: seq<seq<T>>, end: seq<T>)
    requires parts != []
    ensures Flatten(parts) + end == parts[0] + (Flatten(parts[1..]) + end) && parts == [parts[0]] + parts[1..]
  {
  }

  /** Of packets that decode to given messages where they decode, those up to the first bad one. */
  lemma {:induction false} DecodeUpTo<M>(decode: Decoder<M>, es: seq<seq<byte>>, ms: seq<M>)
    requires |es| == |ms| && forall i :: 0 <= i < |es| && decode(es[i]).Some? ==> decode(es[i]).value == ms[i]
    ensures var n := |DecodeAll(decode, es)|;
      && n <= |es| && DecodeAll(decode, es) == ms[..n]
      && (forall i :: 0 <= i < n ==> decode(es[i]).Some?)
      && (n < |es| ==> decode(es[n]).None?)
  {
    if es != [] && decode(es[0]).Some? {
      DecodeUpTo(decode, es[1..], ms[1..]);
      var n := |DecodeAll(decode, es[1..])|;
      assert ms[..n + 1] == [ms[0]] + ms[1..][..n];
      forall i | 0 <= i < n + 1 ensures decode(es[i]).Some? {
        if i > 0 { assert es[i] == es[1..][i - 1]; }
      }
    }
  }

  lemma {:induction false} DecodeEach<M>(decode: Decoder<M>, es: seq<seq<byte>>, ms: seq<M>)
    requires |es| == |ms| && forall i :: 0 <= i < |es| ==> decode(es[i]) == Some(ms[i])
    ensures DecodeAll(decode, es) == ms
  {
    if es != [] {
      DecodeEach(decode, es[1..], ms[1..]);
      assert ms == [ms[0]] + ms[1..];
    }
  }
}
