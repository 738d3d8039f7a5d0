/** End to end: messages appended into one buffer come out of the other side, in order and
    unchanged but for the compression field, however the network cuts the bytes. */
module EndToEnd {
  import opened Basics
  import opened Framing
  import opened Messages
  import opened Receiver
  import HeaderBinary
  import HeaderJson

  /** A message and the header encoding it is sent with. */
  datatype Item = Item(msg: Message, magic: nat)

  /** A message the sender can encode, with lengths that fit the head. */
  predicate Framed(lib: Library, x: Item) {
    && (x.magic == MAGIC_BINARY || x.magic == MAGIC_JSON)
    && LengthsFit(lib, x.msg, x.magic) && Encode(lib, x.msg, x.magic).Some?
  }

  predicate AllFramed(lib: Library, xs: seq<Item>) {
    forall i :: 0 <= i < |xs| ==> Framed(lib, xs[i])
  }

  /** And that the receiver accepts. */
  predicate Sendable(lib: Library, x: Item) {
    && Framed(lib, x)
    && if x.magic == MAGIC_BINARY then HeaderBinary.Fits(x.msg.header.value) else HeaderJson.Safe(x.msg.header.value)
  }

  function Encoded(lib: Library, x: Item): seq<byte> {
    var e := Encode(lib, x.msg, x.magic);
    if e.Some? then e.value else []
  }

  function EncodedAll(lib: Library, xs: seq<Item>): (r: seq<seq<byte>>)
    ensures |r| == |xs|
  {
    seq(|xs|, i requires 0 <= i < |xs| => Encoded(lib, xs[i]))
  }

  function DeliveredAll(xs: seq<Item>): (r: seq<Message>)
    ensures |r| == |xs|
  {
    seq(|xs|, i requires 0 <= i < |xs| =>
      if xs[i].msg.header.Some? then Delivered(xs[i].msg) else xs[i].msg)
  }

  /** Each message arrives, in order. */
  ghost predicate AllArrive(xs: seq<Item>, got: seq<Message>) {
    |got| == |xs| && forall k :: 0 <= k < |xs| ==> Arrives(xs[k].msg, got[k])
  }

  function Decoding(lib: Library): Decoder<Message> { d => Decode(lib, d) }

  predicate AllSendable(lib: Library, xs: seq<Item>) {
    forall i :: 0 <= i < |xs| ==> Sendable(lib, xs[i])
  }

  lemma {:induction false} EncodedFrame(lib: Library, x: Item)
    requires Framed(lib, x)
    ensures FrameLen(Encoded(lib, x)) == Some(|Encoded(lib, x)|)
  {
    var h := Effective(x.msg.header.value, x.msg.body);
    FrameComplete(x.magic, EncodeHeader(lib, h, x.magic), Compress(lib, x.msg.body, h.compression).value);
  }

  lemma {:induction false} EncodedDecodes(lib: Library, x: Item)
    requires Faithful(lib) && Sendable(lib, x)
    ensures Decode(lib, Encoded(lib, x)) == Some(Delivered(x.msg)) && Arrives(x.msg, Delivered(x.msg))
  {
    if x.magic == MAGIC_BINARY { BinaryRoundTrip(lib, x.msg); } else { JsonRoundTrip(lib, x.msg); }
  }

  /** However the bytes of the encoded messages are cut, the packets are the encodings, whether
      the receiver accepts them or not. */
  lemma {:induction false} AnyCutting(lib: Library, xs: seq<Item>, stream: seq<byte>, partial: seq<byte>)
    requires AllFramed(lib, xs) && stream == Flatten(EncodedAll(lib, xs)) + partial && FrameLen(partial) == None
    ensures Packets(stream) == EncodedAll(lib, xs)
  {
    var es := EncodedAll(lib, xs);
    forall i | 0 <= i < |xs| ensures FrameLen(es[i]) == Some(|es[i]|) { EncodedFrame(lib, xs[i]); }
    PacketsOfMany(es, partial);
  }

  /** However the bytes of the encoded messages are cut, and whatever incomplete packet follows,
      the receiver decodes exactly those messages, in order. */
  lemma {:induction false} AnyChunking(lib: Library, xs: seq<Item>, chunks: seq<seq<byte>>, partial: seq<byte>)
    requires Faithful(lib) && AllSendable(lib, xs)
    requires Flatten(chunks) == Flatten(EncodedAll(lib, xs)) + partial && FrameLen(partial) == None
    ensures DecodeAll(Decoding(lib), Packets(Flatten(chunks))) == DeliveredAll(xs)
    ensures AllArrive(xs, DecodeAll(Decoding(lib), Packets(Flatten(chunks))))
  {
    var es := EncodedAll(lib, xs);
    var decode := Decoding(lib);
    AnyCutting(lib, xs, Flatten(chunks), partial);
    forall i | 0 <= i < |xs|
      ensures decode(es[i]) == Some(DeliveredAll(xs)[i]) && Arrives(xs[i].msg, DeliveredAll(xs)[i])
    {
      EncodedDecodes(lib, xs[i]);
    }
    DecodeEach(decode, es, DeliveredAll(xs));
  }

  method AppendOne(lib: Library, dst: seq<byte>, x: Item) returns (buf: seq<byte>)
    requires Sendable(lib, x)
    ensures buf == dst + Encoded(lib, x)
  {
    var r := AppendEncoded(lib, dst, x.msg, x.magic);
    buf := r.value;
  }

  /** Appends messages one by one behind what the buffer already holds, as the batch sender does. */
  method AppendAll(lib: Library, dst: seq<byte>, xs: seq<Item>) returns (buf: seq<byte>)
    requires AllSendable(lib, xs)
    ensures buf == dst + Flatten(EncodedAll(lib, xs))
  {
    buf := dst;
    ghost var es := EncodedAll(lib, xs);
    assert es[..0] == [];
    for i := 0 to |xs|
      invariant buf == dst + Flatten(es[..i])
    {
      buf := AppendOne(lib, buf, xs[i]);
      OneMore(dst, es, i);
    }
    assert es[..|xs|] == es;
  }

  lemma {:induction false} OneMore(dst: seq<byte>, es: seq<seq<byte>>, i: nat)
    requires i < |es|
    ensures (dst + Flatten(es[..i])) + es[i] == dst + Flatten(es[..i + 1])
  {
    FlattenSnoc(es[..i], es[i]);
    assert es[..i + 1] == es[..i] + [es[i]];
  }

  /** The same as code: a sender appends, the network cuts, a receiver reads. */
  method Transfer(lib: Library, xs: seq<Item>, chunks: seq<seq<byte>>) returns (sent: seq<byte>, msgs: seq<Message>)
    requires Faithful(lib) && AllSendable(lib, xs)
    requires Flatten(chunks) == Flatten(EncodedAll(lib, xs))
    ensures sent == Flatten(chunks) && msgs == DeliveredAll(xs) && AllArrive(xs, msgs)
  {
    sent := AppendAll(lib, [], xs);
    assert [] + Flatten(EncodedAll(lib, xs)) == Flatten(EncodedAll(lib, xs)) == Flatten(EncodedAll(lib, xs)) + [];
    var conn := new Connection(Decoding(lib), chunks, []);
    msgs := conn.ReadAll();
    AnyChunking(lib, xs, chunks, []);
  }
}
