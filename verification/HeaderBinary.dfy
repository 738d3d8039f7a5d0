/** The binary header (protocol version 2): varint request id, codec and compression bytes,
    and three length-prefixed strings.  Bytes after the last field are ignored. */
module HeaderBinary {
  import opened Basics
  import opened Headers
  import opened Varint

  const MAX_STRING := 0x10_0000

  // ---------------------------------------------------------------- encoding

  function EncodeText(s: text): seq<byte> { Varint.Encode(|s|) + s }

  function Encode(h: Header): (r: seq<byte>) {
    Varint.Encode(h.requestID) + ([h.codec, h.compression]
      + (EncodeText(h.service) + (EncodeText(h.method_) + EncodeText(h.error))))
  }

  function MaxLen(h: Header): nat { 10 + 2 + 15 + |h.service| + |h.method_| + |h.error| }

  method AppendText(dst: seq<byte>, s: text) returns (r: seq<byte>)
    requires |s| < UINT64_LIMIT
    ensures r == dst + EncodeText(s)
  {
    r := Varint.Append(dst, |s|);
    r := r + s;
  }

  /** appendHeaderBinary: grows dst field by field. */
  method Append(dst: seq<byte>, h: Header) returns (r: seq<byte>)
    requires |h.service| < UINT64_LIMIT && |h.method_| < UINT64_LIMIT && |h.error| < UINT64_LIMIT
    ensures r == dst + Encode(h)
  {
    r := Varint.Append(dst, h.requestID);
    r := r + [h.codec, h.compression];
    r := AppendText(r, h.service);
    r := AppendText(r, h.method_);
    r := AppendText(r, h.error);
  }

  // ---------------------------------------------------------------- parsing

  /** A string off the front of d, and what follows it. */
  function TakeText(d: seq<byte>): (r: Option<(text, seq<byte>)>) {
    var len := Varint.Decode(d, 0);
    if len.None? then None
    else
      var (n, read) := len.value;
      if n > MAX_STRING || read + n > |d| then None else Some((d[read..read + n], d[read + n..]))
  }

  function Parse(d: seq<byte>): (r: Option<Header>) {
    var id := Varint.Decode(d, 0);
    if id.None? || id.value.1 + 2 > |d| then None
    else
      var i := id.value.1;
      var service := TakeText(d[i + 2..]);
      if service.None? then None
      else
        var name := TakeText(service.value.1);
        if name.None? then None
        else
          var error := TakeText(name.value.1);
          if error.None? then None
          else
            Canonical(d, 0);
            RoomAtStart();
            Some(Header(id.value.0, service.value.0, name.value.0, error.value.0, d[i], d[i + 1]))
  }

  /** readLenPrefixed: the string at position i and the position after it. */
  method ReadLenPrefixed(data: seq<byte>, i: nat) returns (s: text, next: nat, ok: bool)
    requires i <= |data|
    ensures ok <==> TakeText(data[i..]).Some?
    ensures ok ==> i <= next <= |data| && TakeText(data[i..]) == Some((s, data[next..]))
  {
    if i >= |data| { return [], i, false; }
    var n, read := Varint.Read(data[i..]);
    if read <= 0 { return [], i, false; }
    var start := i + read;
    if n > MAX_STRING { return [], start, false; }
    var end := start + n;
    if end > |data| { return [], start, false; }
    assert data[i..][read..read + n] == data[start..end] && data[i..][read + n..] == data[end..];
    return data[start..end], end, true;
  }

  /** parseHeaderBinary: a moving cursor over the bytes. */
  method ParseHeader(data: seq<byte>) returns (h: Option<Header>)
    ensures h == Parse(data)
  {
    var id, n := Varint.Read(data);
    if n <= 0 { return None; }
    var i: nat := n;
    if i + 2 > |data| { return None; }
    var codec, compression := data[i], data[i + 1];
    i := i + 2;
    var service, name, error, ok;
    service, i, ok := ReadLenPrefixed(data, i);
    if !ok { return None; }
    name, i, ok := ReadLenPrefixed(data, i);
    if !ok { return None; }
    error, i, ok := ReadLenPrefixed(data, i);
    if !ok { return None; }
    Canonical(data, 0);
    RoomAtStart();
    return Some(Header(id, service, name, error, codec, compression));
  }

  // ---------------------------------------------------------------- properties

  predicate Fits(h: Header) {
    |h.service| <= MAX_STRING && |h.method_| <= MAX_STRING && |h.error| <= MAX_STRING
  }

  lemma {:induction false} TakeEncoded(s: text, rest: seq<byte>)
    requires |s| < UINT64_LIMIT
    ensures TakeText(EncodeText(s) + rest) == if |s| <= MAX_STRING then Some((s, rest)) else None
  {
    RoomAtStart();
    Varint.RoundTrip(|s|, s + rest, 0);
    assert EncodeText(s) + rest == Varint.Encode(|s|) + (s + rest);
    var d := EncodeText(s) + rest;
    var read := |Varint.Encode(|s|)|;
    assert d[read..read + |s|] == s && d[read + |s|..] == rest;
  }

  lemma {:induction false} TakePrefix(s: text, k: nat)
    requires |s| < UINT64_LIMIT && k < |EncodeText(s)|
    ensures TakeText(EncodeText(s)[..k]) == None
  {
    var e := Varint.Encode(|s|);
    if k < |e| {
      assert EncodeText(s)[..k] == e[..k];
      Varint.StrictPrefix(|s|, k, 0);
    } else {
      RoomAtStart();
      assert EncodeText(s)[..k] == e + s[..k - |e|];
      Varint.RoundTrip(|s|, s[..k - |e|], 0);
    }
  }

  /** Where the fields of an encoded header stand. */
  lemma {:induction false} Fields(h: Header, rest: seq<byte>)
    ensures var d := Encode(h) + rest; var n := |Varint.Encode(h.requestID)|;
      var t1 := EncodeText(h.service) + (EncodeText(h.method_) + (EncodeText(h.error) + rest));
      && d == Varint.Encode(h.requestID) + ([h.codec, h.compression] + t1)
      && |d| >= n + 2 && d[n] == h.codec && d[n + 1] == h.compression && d[n + 2..] == t1
  {
    var id := Varint.Encode(h.requestID);
    var t1 := EncodeText(h.service) + (EncodeText(h.method_) + (EncodeText(h.error) + rest));
    assert Encode(h) + rest == id + ([h.codec, h.compression] + t1);
  }

  /** Parsing what was encoded, with anything appended, gives the header back; and exactly the
      strings the parser's limit admits survive, for the encoder does not check it. */
  lemma {:induction false} RoundTrip(h: Header, rest: seq<byte>)
    requires |h.service| < UINT64_LIMIT && |h.method_| < UINT64_LIMIT && |h.error| < UINT64_LIMIT
    ensures Parse(Encode(h) + rest) ==
      if |h.service| <= 0x10_0000 && |h.method_| <= 0x10_0000 && |h.error| <= 0x10_0000 then Some(h) else None
  {
    var t3 := EncodeText(h.error) + rest;
    var t2 := EncodeText(h.method_) + t3;
    Fields(h, rest);
    RoomAtStart();
    Varint.RoundTrip(h.requestID, [h.codec, h.compression] + (EncodeText(h.service) + t2), 0);
    TakeEncoded(h.service, t2);
    TakeEncoded(h.method_, t3);
    TakeEncoded(h.error, rest);
  }

  /** The fields on the wire: varint of the request id, codec and compression in a byte each, then
      service, method and error, each behind the varint of its length. */
  lemma {:induction false} Layout(h: Header)
    ensures Encode(h) == Varint.Encode(h.requestID) + [h.codec] + [h.compression]
      + Varint.Encode(|h.service|) + h.service
      + Varint.Encode(|h.method_|) + h.method_
      + Varint.Encode(|h.error|) + h.error
  {
    var e := EncodeText(h.service) + (EncodeText(h.method_) + EncodeText(h.error));
    assert e == Varint.Encode(|h.service|) + h.service + Varint.Encode(|h.method_|) + h.method_
      + Varint.Encode(|h.error|) + h.error;
  }

  /** No strict prefix of an encoded header parses. */
  lemma {:induction false} PrefixRejected(h: Header, k: nat)
    requires |h.service| < UINT64_LIMIT && |h.method_| < UINT64_LIMIT && |h.error| < UINT64_LIMIT
    requires k < |Encode(h)|
    ensures Parse(Encode(h)[..k]) == None
  {
    var d := Encode(h)[..k];
    var id := Varint.Encode(h.requestID);
    var e3 := EncodeText(h.error);
    var e2 := EncodeText(h.method_) + e3;
    var e1 := EncodeText(h.service) + e2;
    RoomAtStart();
    if k < |id| {
      assert d == id[..k];
      Varint.StrictPrefix(h.requestID, k, 0);
    } else {
      assert d == id + ([h.codec, h.compression] + e1)[..k - |id|];
      Varint.RoundTrip(h.requestID, ([h.codec, h.compression] + e1)[..k - |id|], 0);
      if k >= |id| + 2 {
        var k1 := k - |id| - 2;
        assert d[|id| + 2..] == e1[..k1];
        TailPrefixRejected(h.service, h.method_, h.error, k1);
      }
    }
  }

  lemma {:induction false} TailPrefixRejected(a: text, b: text, c: text, k: nat)
    requires |a| < UINT64_LIMIT && |b| < UINT64_LIMIT && |c| < UINT64_LIMIT
    requires k < |EncodeText(a) + (EncodeText(b) + EncodeText(c))|
    ensures var d := (EncodeText(a) + (EncodeText(b) + EncodeText(c)))[..k];
      TakeText(d).None? || TakeText(TakeText(d).value.1).None?
      || TakeText(TakeText(TakeText(d).value.1).value.1).None?
  {
    var ea, eb, ec := EncodeText(a), EncodeText(b), EncodeText(c);
    var d := (ea + (eb + ec))[..k];
    if k < |ea| {
      assert d == ea[..k];
      TakePrefix(a, k);
    } else {
      assert d == ea + (eb + ec)[..k - |ea|];
      TakeEncoded(a, (eb + ec)[..k - |ea|]);
      assert TakeText(d).Some? ==> TakeText(d).value.1 == (eb + ec)[..k - |ea|];
      LastTwoRejected(b, c, k - |ea|);
    }
  }

  lemma {:induction false} LastTwoRejected(b: text, c: text, k: nat)
    requires |b| < UINT64_LIMIT && |c| < UINT64_LIMIT && k < |EncodeText(b) + EncodeText(c)|
    ensures var d := (EncodeText(b) + EncodeText(c))[..k];
      TakeText(d).None? || TakeText(TakeText(d).value.1).None?
  {
    var eb, ec := EncodeText(b), EncodeText(c);
    if k < |eb| {
      assert (eb + ec)[..k] == eb[..k];
      TakePrefix(b, k);
    } else {
      assert (eb + ec)[..k] == eb + ec[..k - |eb|];
      TakeEncoded(b, ec[..k - |eb|]);
      TakePrefix(c, k - |eb|);
    }
  }

  lemma {:induction false} Taken(d: seq<byte>)
    requires TakeText(d).Some?
    ensures var (s, rest) := TakeText(d).value; |s| <= MAX_STRING && |EncodeText(s)| + |rest| <= |d|
  {
    Canonical(d, 0);
  }

  /** Whatever parses is a header whose strings come out of the input, whose canonical encoding
      is no longer than the input, and which survives being sent on. */
  lemma {:induction false} Reencode(d: seq<byte>)
    requires Parse(d).Some?
    ensures var h := Parse(d).value;
      && Fits(h)
      && |h.service| + |h.method_| + |h.error| <= |d|
      && |Encode(h)| <= |d|
      && Parse(Encode(h)) == Some(h)
  {
    var h := Parse(d).value;
    var i := Varint.Decode(d, 0).value.1;
    Canonical(d, 0);
    var t1 := TakeText(d[i + 2..]).value.1;
    var t2 := TakeText(t1).value.1;
    Taken(d[i + 2..]);
    Taken(t1);
    Taken(t2);
    RoundTrip(h, []);
    assert Encode(h) + [] == Encode(h);
  }

  /** The reserved capacity suffices when every length prefix fits five bytes. */
  lemma {:induction false} ReservationSuffices(h: Header)
    requires |h.service| < 0x8_0000_0000 && |h.method_| < 0x8_0000_0000 && |h.error| < 0x8_0000_0000
    ensures |Encode(h)| <= MaxLen(h)
  {
    EncodedLength(h.requestID);
    EncodedLength(|h.service|);
    EncodedLength(|h.method_|);
    EncodedLength(|h.error|);
  }
}
