/** Whole messages: a fixed head of magic and two lengths, the header, the body.

    gzip and encoding/json are taken as given functions, in a Library. */
module Messages {
  import opened Basics
  import opened Headers
  import HeaderBinary
  import HeaderJson

  const MAGIC_JSON := 0x4B52
  const MAGIC_BINARY := 0x4B53
  const FIXED := 10
  const MIN_COMPRESS := 512
  const NONE: byte := 0
  const GZIP: byte := 1
  const UINT32_LIMIT: int := 0x1_0000_0000

  datatype Library = Library(
    deflate: seq<byte> -> Option<seq<byte>>,
    inflate: seq<byte> -> Option<seq<byte>>,
    marshal: Header -> seq<byte>,
    unmarshal: seq<byte> -> Option<Header>)

  datatype Message = Message(header: Option<Header>, body: seq<byte>)

  function Compress(lib: Library, data: seq<byte>, t: byte): Option<seq<byte>> {
    if t == NONE then Some(data) else if t == GZIP then lib.deflate(data) else None
  }

  function Decompress(lib: Library, data: seq<byte>, t: byte): Option<seq<byte>> {
    if t == NONE then Some(data)
    else if t == GZIP then if data == [] then Some(data) else lib.inflate(data)
    else None
  }

  /** Decompressing what was compressed gives the data back. */
  ghost predicate Faithful(lib: Library) {
    forall d: seq<byte> :: lib.deflate(d).Some? ==> Decompress(lib, lib.deflate(d).value, GZIP) == Some(d)
  }

  // ---------------------------------------------------------------- big-endian numbers

  function Be16(x: nat): (r: seq<byte>)
    ensures |r| == 2
  {
    [x / 0x100 % 0x100, x % 0x100]
  }

  function Be32(x: nat): (r: seq<byte>)
    ensures |r| == 4
  {
    [x / 0x100_0000 % 0x100, x / 0x1_0000 % 0x100, x / 0x100 % 0x100, x % 0x100]
  }

  function Get16(d: seq<byte>): nat
    requires |d| >= 2
  {
    var a: int, b: int := d[0], d[1];
    0x100 * a + b
  }

  function Get32(d: seq<byte>): (r: nat)
    requires |d| >= 4
    ensures r < UINT32_LIMIT
  {
    var a: int, b: int, c: int, e: int := d[0], d[1], d[2], d[3];
    0x100_0000 * a + 0x1_0000 * b + 0x100 * c + e
  }

  /** Writing a number in four bytes keeps it modulo 2^32. */
  lemma {:induction false} Get32OfBe32(x: nat)
    ensures Get32(Be32(x)) == x % UINT32_LIMIT
  {
    Quotients(x);
    Digits(x, x / 0x100, x / 0x100 / 0x100, x / 0x100 / 0x100 / 0x100);
  }

  lemma {:induction false} Quotients(x: nat)
    ensures x / 0x1_0000 == x / 0x100 / 0x100 && x / 0x100_0000 == x / 0x100 / 0x100 / 0x100
  {
  }

  lemma {:induction false} Digits(x: nat, c: nat, b: nat, a: nat)
    requires c == x / 0x100 && b == c / 0x100 && a == b / 0x100
    ensures x % UINT32_LIMIT == 0x100_0000 * (a % 0x100) + 0x1_0000 * (b % 0x100) + 0x100 * (c % 0x100) + x % 0x100
  {
    var top := a / 0x100;
    assert x == UINT32_LIMIT * top
      + (0x100_0000 * (a % 0x100) + 0x1_0000 * (b % 0x100) + 0x100 * (c % 0x100) + x % 0x100);
  }

  // ---------------------------------------------------------------- encoding

  /** The header that goes on the wire: small bodies are not compressed, and it says so. */
  function Effective(h: Header, body: seq<byte>): Header {
    if h.compression != NONE && |body| < MIN_COMPRESS then h.(compression := NONE) else h
  }

  function EncodeHeader(lib: Library, h: Header, magic: nat): seq<byte> {
    if magic == MAGIC_JSON then HeaderJson.Encode(h, lib.marshal) else HeaderBinary.Encode(h)
  }

  function Head(magic: nat, headerLen: nat, bodyLen: nat): (r: seq<byte>)
    ensures |r| == FIXED
  {
    Be16(magic) + (Be32(headerLen) + Be32(bodyLen))
  }

  function Frame(magic: nat, header: seq<byte>, body: seq<byte>): (r: seq<byte>)
    ensures |r| == FIXED + |header| + |body|
  {
    Head(magic, |header|, |body|) + (header + body)
  }

  function Encode(lib: Library, m: Message, magic: nat): Option<seq<byte>> {
    if m.header.None? then None
    else
      var h := Effective(m.header.value, m.body);
      var body := Compress(lib, m.body, h.compression);
      if body.None? then None else Some(Frame(magic, EncodeHeader(lib, h, magic), body.value))
  }

  /** Overwrites bytes of buf from position at. */
  method Backfill(buf: seq<byte>, at: nat, x: seq<byte>) returns (r: seq<byte>)
    requires at + |x| <= |buf|
    ensures r == buf[..at] + x + buf[at + |x|..]
  {
    r := buf;
    for i := 0 to |x|
      invariant r == buf[..at] + x[..i] + buf[at + i..]
    {
      r := r[at + i := x[i]];
    }
    assert x[..|x|] == x;
  }

  /** Fills in the reserved head at position base. */
  method FillHead(buf: seq<byte>, base: nat, magic: nat, headerLen: nat, bodyLen: nat) returns (r: seq<byte>)
    requires base + FIXED <= |buf|
    ensures r == buf[..base] + (Head(magic, headerLen, bodyLen) + buf[base + FIXED..])
  {
    r := Backfill(buf, base, Be16(magic));
    assert r[..base + 2] == buf[..base] + Be16(magic) && r[base + 2..] == buf[base + 2..];
    ghost var r1 := r;
    r := Backfill(r, base + 2, Be32(headerLen));
    assert r[..base + 6] == r1[..base + 2] + Be32(headerLen) && r[base + 6..] == r1[base + 6..] == buf[base + 6..];
    ghost var r2 := r;
    r := Backfill(r, base + 6, Be32(bodyLen));
    assert r == r2[..base + 6] + (Be32(bodyLen) + buf[base + 10..]);
  }

  /** appendEncoded: reserves the fixed head, appends header and body, then fills the lengths in. */
  method AppendEncoded(lib: Library, dst: seq<byte>, m: Message, magic: nat) returns (r: Option<seq<byte>>)
    requires m.header.Some? ==> HeaderLengthsFit(m.header.value)
    ensures r == if Encode(lib, m, magic).None? then None else Some(dst + Encode(lib, m, magic).value)
  {
    if m.header.None? { return None; }
    var h := m.header.value;
    var bodyBytes := m.body;
    var compression := h.compression;
    if compression != NONE && |bodyBytes| < MIN_COMPRESS { compression := NONE; }
    if compression != NONE {
      var c := Compress(lib, bodyBytes, compression);
      if c.None? { return None; }
      bodyBytes := c.value;
    }
    var header := h.(compression := compression);
    assert header == Effective(h, m.body);

    var buf := AppendFrame(lib, dst, header, bodyBytes, magic);
    return Some(buf);
  }

  method AppendFrame(lib: Library, dst: seq<byte>, header: Header, bodyBytes: seq<byte>, magic: nat)
    returns (buf: seq<byte>)
    requires HeaderLengthsFit(header)
    ensures buf == dst + Frame(magic, EncodeHeader(lib, header, magic), bodyBytes)
  {
    var base := |dst|;
    var placeholder: seq<byte> := seq(FIXED, _ => 0);
    buf := dst + placeholder;
    if magic == MAGIC_JSON {
      buf := HeaderJson.Append(buf, header, lib.marshal);
    } else {
      buf := HeaderBinary.Append(buf, header);
    }
    var headerLen := |buf| - base - FIXED;
    buf := buf + bodyBytes;
    assert buf[..base] == dst && buf[base + FIXED..] == EncodeHeader(lib, header, magic) + bodyBytes;
    buf := FillHead(buf, base, magic, headerLen, |bodyBytes|);
  }

  /** Lengths are 64-bit in the source. */
  predicate HeaderLengthsFit(h: Header) {
    |h.service| < UINT64_LIMIT && |h.method_| < UINT64_LIMIT && |h.error| < UINT64_LIMIT
  }

  // ---------------------------------------------------------------- decoding

  function ParseHeader(lib: Library, d: seq<byte>, magic: nat): Option<Header> {
    if magic == MAGIC_BINARY then HeaderBinary.Parse(d)
    else if HeaderJson.ParseFast(d).Some? then HeaderJson.ParseFast(d)
    else lib.unmarshal(d)
  }

  function Decode(lib: Library, d: seq<byte>): Option<Message> {
    if |d| < FIXED then None else DecodeParts(lib, d, Get16(d[0..2]), Get32(d[2..6]), Get32(d[6..10]))
  }

  function DecodeParts(lib: Library, d: seq<byte>, magic: nat, headerLen: nat, bodyLen: nat): Option<Message> {
    if (magic != MAGIC_JSON && magic != MAGIC_BINARY) || |d| < FIXED + headerLen + bodyLen then None
    else DecodeBody(lib, ParseHeader(lib, d[FIXED..FIXED + headerLen], magic),
                    d[FIXED + headerLen..FIXED + headerLen + bodyLen])
  }

  function DecodeBody(lib: Library, header: Option<Header>, d: seq<byte>): Option<Message> {
    if header.None? then None
    else
      var body := Decompress(lib, d, header.value.compression);
      if body.None? then None else Some(Message(header, body.value))
  }

  /** The dispatch on the magic, with the standard library behind the JSON fast path. */
  method ReadHeader(lib: Library, d: seq<byte>, magic: nat) returns (header: Option<Header>)
    ensures header == ParseHeader(lib, d, magic)
  {
    if magic == MAGIC_BINARY {
      header := HeaderBinary.ParseHeader(d);
    } else {
      var h, ok := HeaderJson.ParseHeaderFast(d);
      header := if ok then Some(h) else lib.unmarshal(d);
    }
  }

  /** DecodeInto, first the fixed head, then the parts it announces. */
  method DecodeInto(lib: Library, data: seq<byte>) returns (m: Option<Message>)
    ensures m == Decode(lib, data)
  {
    if |data| < FIXED { return None; }
    m := DecodeAnnounced(lib, data, Get16(data[0..2]), Get32(data[2..6]), Get32(data[6..10]));
  }

  method DecodeAnnounced(lib: Library, data: seq<byte>, magic: nat, headerLen: nat, bodyLen: nat)
    returns (m: Option<Message>)
    ensures m == DecodeParts(lib, data, magic, headerLen, bodyLen)
  {
    if magic != MAGIC_JSON && magic != MAGIC_BINARY { return None; }
    var totalLen := FIXED + headerLen + bodyLen;
    if |data| < totalLen { return None; }
    var header: Option<Header> := ReadHeader(lib, data[FIXED..FIXED + headerLen], magic);
    m := ReadBody(lib, header, data[FIXED + headerLen..totalLen]);
  }

  method ReadBody(lib: Library, header: Option<Header>, data: seq<byte>) returns (m: Option<Message>)
    ensures m == DecodeBody(lib, header, data)
  {
    if header.None? { return None; }
    var bodyBytes := data;
    if header.value.compression != NONE {
      var b := Decompress(lib, bodyBytes, header.value.compression);
      if b.None? { return None; }
      bodyBytes := b.value;
    }
    return Some(Message(header, bodyBytes));
  }

  // ---------------------------------------------------------------- the round trip

  /** What the receiver gets: the body whole, the compression as it was really applied. */
  function Delivered(m: Message): Message
    requires m.header.Some?
  {
    Message(Some(Effective(m.header.value, m.body)), m.body)
  }

  /** What arrives of a message: every field of the header as sent, but for the compression of a
      body under 512 bytes, which is none; and the body. */
  predicate Arrives(m: Message, got: Message) {
    && m.header.Some? && got.header.Some? && got.body == m.body
    && var (h, g) := (m.header.value, got.header.value);
    && g.requestID == h.requestID && g.codec == h.codec
    && g.service == h.service && g.method_ == h.method_ && g.error == h.error
    && g.compression == if h.compression != 0 && |m.body| < 512 then 0 else h.compression
  }

  /** Both lengths fit the fields of the fixed head. */
  predicate LengthsFit(lib: Library, m: Message, magic: nat) {
    && m.header.Some? && HeaderLengthsFit(m.header.value)
    && var h := Effective(m.header.value, m.body);
    && |EncodeHeader(lib, h, magic)| < UINT32_LIMIT
    && (Compress(lib, m.body, h.compression).Some? ==> |Compress(lib, m.body, h.compression).value| < UINT32_LIMIT)
  }

  lemma {:induction false} FrameSlices(magic: nat, header: seq<byte>, body: seq<byte>, rest: seq<byte>)
    ensures var d := Frame(magic, header, body) + rest; var n := FIXED + |header|;
      && d[0..2] == Be16(magic) && d[2..6] == Be32(|header|) && d[6..10] == Be32(|body|)
      && d[FIXED..n] == header && d[n..n + |body|] == body
  {
    var head := Head(magic, |header|, |body|);
    var d := Frame(magic, header, body) + rest;
    assert d == head + (header + (body + rest));
    assert d[..FIXED] == head && d[FIXED..] == header + (body + rest);
    assert d[0..2] == head[0..2] && d[2..6] == head[2..6] && d[6..10] == head[6..10];
    var n := FIXED + |header|;
    assert d[FIXED..n] == d[FIXED..][..|header|] && d[n..n + |body|] == d[FIXED..][|header|..|header| + |body|];
  }

  /** What the head keeps of a length. */
  function Kept(n: nat): (r: nat)
    ensures r <= n && r < UINT32_LIMIT && (n < UINT32_LIMIT ==> r == n)
  {
    n % UINT32_LIMIT
  }

  /** A frame decodes as its parts, cut to the lengths the head has kept. */
  lemma {:induction false} DecodeFrame(lib: Library, magic: nat, header: seq<byte>, body: seq<byte>)
    requires magic == MAGIC_JSON || magic == MAGIC_BINARY
    ensures var n := Kept(|header|);
      Decode(lib, Frame(magic, header, body))
      == DecodeBody(lib, ParseHeader(lib, header[..n], magic), (header + body)[n..n + Kept(|body|)])
  {
    var n, m := Kept(|header|), Kept(|body|);
    NumbersKept(magic, header, body);
    PartsKept(Head(magic, |header|, |body|), header, body, n, m);
    DecodeBy(lib, Frame(magic, header, body), magic, header[..n], (header + body)[n..n + m]);
  }

  lemma {:induction false} DecodeBy(lib: Library, d: seq<byte>, magic: nat, header: seq<byte>, body: seq<byte>)
    requires magic == MAGIC_JSON || magic == MAGIC_BINARY
    requires |d| >= FIXED + |header| + |body|
    requires Get16(d[0..2]) == magic && Get32(d[2..6]) == |header| && Get32(d[6..10]) == |body|
    requires d[FIXED..FIXED + |header|] == header && d[FIXED + |header|..FIXED + |header| + |body|] == body
    ensures Decode(lib, d) == DecodeBody(lib, ParseHeader(lib, header, magic), body)
  {
  }

  lemma {:induction false} NumbersKept(magic: nat, header: seq<byte>, body: seq<byte>)
    requires magic == MAGIC_JSON || magic == MAGIC_BINARY
    ensures var d := Frame(magic, header, body);
      Get16(d[0..2]) == magic && Get32(d[2..6]) == Kept(|header|) && Get32(d[6..10]) == Kept(|body|)
  {
    FrameSlices(magic, header, body, []);
    assert Frame(magic, header, body) + [] == Frame(magic, header, body);
    Get32OfBe32(|header|);
    Get32OfBe32(|body|);
    Get16OfMagic(magic);
  }

  lemma {:induction false} PartsKept(head: seq<byte>, header: seq<byte>, body: seq<byte>, n: nat, m: nat)
    requires |head| == FIXED && n <= |header| && m <= |body|
    ensures var d := head + (header + body);
      d[FIXED..FIXED + n] == header[..n] && d[FIXED + n..FIXED + n + m] == (header + body)[n..n + m]
  {
    var d := head + (header + body);
    assert d[FIXED..] == header + body;
  }

  lemma {:induction false} Get16OfMagic(magic: nat)
    requires magic == MAGIC_JSON || magic == MAGIC_BINARY
    ensures Get16(Be16(magic)) == magic
  {
  }

  lemma {:induction false} BodyRoundTrip(lib: Library, h: Header, body: seq<byte>)
    requires Faithful(lib) && Compress(lib, body, h.compression).Some?
    ensures DecodeBody(lib, Some(h), Compress(lib, body, h.compression).value) == Some(Message(Some(h), body))
  {
    if h.compression == GZIP { assert Decompress(lib, lib.deflate(body).value, GZIP) == Some(body); }
  }

  /** A binary header, cut to the length the head has kept, parses exactly if its strings stay
      within the parser's limit, for those headers are not cut. */
  lemma {:induction false} BinaryHeaderKept(lib: Library, h: Header)
    requires HeaderLengthsFit(h)
    ensures var e := EncodeHeader(lib, h, MAGIC_BINARY);
      && ParseHeader(lib, e[..Kept(|e|)], MAGIC_BINARY) == (if HeaderBinary.Fits(h) then Some(h) else None)
      && (HeaderBinary.Fits(h) ==> |e| < UINT32_LIMIT)
  {
    var e := HeaderBinary.Encode(h);
    HeaderBinary.RoundTrip(h, []);
    assert e + [] == e;
    if HeaderBinary.Fits(h) { HeaderBinary.ReservationSuffices(h); }
    if Kept(|e|) < |e| {
      HeaderBinary.PrefixRejected(h, Kept(|e|));
    } else {
      assert e[..Kept(|e|)] == e;
    }
  }

  /** The header and the bytes of the body that a message goes out with. */
  function Outgoing(lib: Library, m: Message): (r: (Header, seq<byte>))
    requires Encode(lib, m, MAGIC_BINARY).Some?
  {
    var h := Effective(m.header.value, m.body);
    (h, Compress(lib, m.body, h.compression).value)
  }

  /** Every message that encodes: one with a header string beyond the parser's limit is rejected;
      any other keeps its header, and of the body what is left of its length modulo 2^32; so it
      arrives as sent, up to the compression rewrite, if its body goes out below 2^32 bytes, and
      an uncompressed body arrives as a prefix. */
  lemma {:induction false} BinaryRoundTrip(lib: Library, m: Message)
    requires Faithful(lib) && Encode(lib, m, MAGIC_BINARY).Some? && HeaderLengthsFit(m.header.value)
    ensures var (h, c) := Outgoing(lib, m); var fits := HeaderBinary.Fits(m.header.value);
      var got := Decode(lib, Encode(lib, m, MAGIC_BINARY).value);
      && got == (if fits then DecodeBody(lib, Some(h), c[..Kept(|c|)]) else None)
      && (fits && |c| < UINT32_LIMIT ==> got == Some(Delivered(m)) && Arrives(m, got.value))
      && (fits && h.compression == NONE ==> got == Some(Message(Some(h), m.body[..Kept(|m.body|)])))
  {
    var (h, c) := Outgoing(lib, m);
    var e := EncodeHeader(lib, h, MAGIC_BINARY);
    DecodeFrame(lib, MAGIC_BINARY, e, c);
    BinaryHeaderKept(lib, h);
    if HeaderBinary.Fits(h) { CutBody(e, c); }
    if |c| < UINT32_LIMIT { WholeArrives(lib, m, h, c); }
  }

  lemma {:induction false} WholeArrives(lib: Library, m: Message, h: Header, c: seq<byte>)
    requires Faithful(lib) && m.header.Some? && h == Effective(m.header.value, m.body)
    requires Compress(lib, m.body, h.compression) == Some(c) && |c| < UINT32_LIMIT
    ensures DecodeBody(lib, Some(h), c[..Kept(|c|)]) == Some(Delivered(m)) && Arrives(m, Delivered(m))
  {
    assert c[..Kept(|c|)] == c;
    BodyRoundTrip(lib, h, m.body);
  }

  lemma {:induction false} CutBody(header: seq<byte>, body: seq<byte>)
    requires |header| < UINT32_LIMIT
    ensures (header + body)[Kept(|header|)..Kept(|header|) + Kept(|body|)] == body[..Kept(|body|)]
  {
  }

  /** The fast path takes a JSON header that needs no escaping if the head has kept its length,
      and leaves one that was cut to the standard library. */
  lemma {:induction false} JsonHeaderKept(lib: Library, h: Header)
    requires HeaderJson.Safe(h)
    ensures var e := EncodeHeader(lib, h, MAGIC_JSON); var n := Kept(|e|);
      ParseHeader(lib, e[..n], MAGIC_JSON) == if |e| < UINT32_LIMIT then Some(h) else lib.unmarshal(e[..n])
  {
    var e := HeaderJson.EncodeFast(h);
    HeaderJson.RoundTrip(h);
    if Kept(|e|) < |e| {
      HeaderJson.PrefixRejected(h, Kept(|e|));
    } else {
      assert e[..Kept(|e|)] == e;
    }
  }

  lemma {:induction false} JsonFrame(lib: Library, h: Header, e: seq<byte>, c: seq<byte>)
    requires HeaderJson.Safe(h) && e == EncodeHeader(lib, h, MAGIC_JSON)
    ensures var (n, k) := (Kept(|e|), Kept(|c|));
      Decode(lib, Frame(MAGIC_JSON, e, c))
      == if |e| < UINT32_LIMIT then DecodeBody(lib, Some(h), c[..k])
         else DecodeBody(lib, lib.unmarshal(e[..n]), (e + c)[n..n + k])
  {
    JsonHeaderKept(lib, h);
    var header := if |e| < UINT32_LIMIT then Some(h) else lib.unmarshal(e[..Kept(|e|)]);
    FrameWith(lib, e, c, header);
    if |e| < UINT32_LIMIT { CutBody(e, c); }
  }

  lemma {:induction false} FrameWith(lib: Library, e: seq<byte>, c: seq<byte>, header: Option<Header>)
    requires ParseHeader(lib, e[..Kept(|e|)], MAGIC_JSON) == header
    ensures var (n, k) := (Kept(|e|), Kept(|c|));
      Decode(lib, Frame(MAGIC_JSON, e, c)) == DecodeBody(lib, header, (e + c)[n..n + k])
  {
    DecodeFrame(lib, MAGIC_JSON, e, c);
  }

  /** Messages with JSON headers are still understood: a header that needs no escaping arrives as
      sent, and the body again up to its length modulo 2^32.  A header of 2^32 bytes or more is cut:
      the fast path declines what is left of it, and what the standard library makes of that is read
      with the bytes that follow as the body; so nothing arrives if it refuses a cut object. */
  lemma {:induction false} JsonRoundTrip(lib: Library, m: Message)
    requires Faithful(lib) && Encode(lib, m, MAGIC_JSON).Some? && HeaderLengthsFit(m.header.value)
    requires HeaderJson.Safe(m.header.value)
    ensures var (h, c) := Outgoing(lib, m); var got := Decode(lib, Encode(lib, m, MAGIC_JSON).value);
      var e := EncodeHeader(lib, h, MAGIC_JSON); var (n, k) := (Kept(|e|), Kept(|c|));
      && got == (if |e| < UINT32_LIMIT then DecodeBody(lib, Some(h), c[..k])
                 else DecodeBody(lib, lib.unmarshal(e[..n]), (e + c)[n..n + k]))
      && (|e| < UINT32_LIMIT && |c| < UINT32_LIMIT ==> got == Some(Delivered(m)) && Arrives(m, got.value))
      && (|e| >= UINT32_LIMIT && lib.unmarshal(e[..n]) == None ==> got == None)
  {
    var (h, c) := Outgoing(lib, m);
    JsonDecoded(lib, m, h, c, EncodeHeader(lib, h, MAGIC_JSON));
    if |c| < UINT32_LIMIT { WholeArrives(lib, m, h, c); }
  }

  lemma {:induction false} JsonDecoded(lib: Library, m: Message, h: Header, c: seq<byte>, e: seq<byte>)
    requires m.header.Some? && h == Effective(m.header.value, m.body) && HeaderJson.Safe(h)
    requires Compress(lib, m.body, h.compression) == Some(c) && e == EncodeHeader(lib, h, MAGIC_JSON)
    ensures Encode(lib, m, MAGIC_JSON).Some?
    ensures var got := Decode(lib, Encode(lib, m, MAGIC_JSON).value); var (n, k) := (Kept(|e|), Kept(|c|));
      && (|e| < UINT32_LIMIT ==> got == DecodeBody(lib, Some(h), c[..k]))
      && (|e| >= UINT32_LIMIT ==> got == DecodeBody(lib, lib.unmarshal(e[..n]), (e + c)[n..n + k]))
  {
    JsonFrame(lib, h, e, c);
    assert Encode(lib, m, MAGIC_JSON) == Some(Frame(MAGIC_JSON, e, c));
  }

  /** The bytes of a message: two of magic, the lengths of header and body in four bytes each, high
      byte first, the header, and the body, compressed if that was asked and it has 512 bytes. */
  lemma {:induction false} Layout(lib: Library, m: Message, magic: nat)
    requires Encode(lib, m, magic).Some? && (magic == MAGIC_JSON || magic == MAGIC_BINARY)
    ensures var d := Encode(lib, m, magic).value; var h := m.header.value;
      var sent := if h.compression != 0 && |m.body| < 512 then h.(compression := 0) else h;
      var e := if magic == MAGIC_JSON then HeaderJson.Encode(sent, lib.marshal) else HeaderBinary.Encode(sent);
      var c := if sent.compression == 0 then Some(m.body)
               else if sent.compression == 1 then lib.deflate(m.body) else None;
      && c.Some? && d[10..] == e + c.value && |d| == 10 + |e| + |c.value|
      && d[0] == 0x4B && d[1] == (if magic == MAGIC_JSON then 0x52 else 0x53)
      && d[2] == |e| / 0x100_0000 % 256 && d[3] == |e| / 0x1_0000 % 256 && d[4] == |e| / 0x100 % 256
      && d[5] == |e| % 256
      && d[6] == |c.value| / 0x100_0000 % 256 && d[7] == |c.value| / 0x1_0000 % 256
      && d[8] == |c.value| / 0x100 % 256 && d[9] == |c.value| % 256
  {
    var (h, c) := Outgoing(lib, m);
    var e := EncodeHeader(lib, h, magic);
    HeadBytes(magic, |e|, |c|);
    assert Encode(lib, m, magic).value[..10] == Head(magic, |e|, |c|);
    assert Encode(lib, m, magic).value[10..] == e + c;
    BytesOf(Encode(lib, m, magic).value, Head(magic, |e|, |c|));
  }

  lemma {:induction false} BytesOf(d: seq<byte>, head: seq<byte>)
    requires |d| >= 10 && |head| == 10 && d[..10] == head
    ensures forall i :: 0 <= i < 10 ==> d[i] == head[i]
  {
    forall i | 0 <= i < 10 ensures d[i] == head[i] { assert d[i] == d[..10][i]; }
  }

  lemma {:induction false} HeadBytes(magic: nat, a: nat, b: nat)
    requires magic == MAGIC_JSON || magic == MAGIC_BINARY
    ensures var d := Head(magic, a, b);
      && d[0] == 0x4B && d[1] == (if magic == MAGIC_JSON then 0x52 else 0x53)
      && d[2] == a / 0x100_0000 % 256 && d[3] == a / 0x1_0000 % 256 && d[4] == a / 0x100 % 256 && d[5] == a % 256
      && d[6] == b / 0x100_0000 % 256 && d[7] == b / 0x1_0000 % 256 && d[8] == b / 0x100 % 256 && d[9] == b % 256
  {
  }

  /** Nothing is decoded but a packet with one of the two magics, all its bytes there, and a
      compression that is known. */
  lemma {:induction false} DecodeNeeds(lib: Library, d: seq<byte>)
    requires Decode(lib, d).Some?
    ensures |d| >= 10 && d[0] == 0x4B && d[1] in [0x52, 0x53]
    ensures |d| >= 10 + Get32(d[2..6]) + Get32(d[6..10])
    ensures Decode(lib, d).value.header.Some? && Decode(lib, d).value.header.value.compression <= 1
  {
  }

  /** Encoding fails only for a missing header, or for a large body with an unknown compression or
      one that fails. */
  lemma {:induction false} EncodeFails(lib: Library, m: Message, magic: nat)
    ensures Encode(lib, m, magic).None? <==>
      m.header.None?
      || (|m.body| >= 512 && (m.header.value.compression > GZIP
          || (m.header.value.compression == GZIP && lib.deflate(m.body).None?)))
  {
  }
}
