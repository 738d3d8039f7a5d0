/** Answering a request: every request gets exactly one response frame, carrying its id. */
module Handlers {
  import opened Basics
  import opened Headers
  import opened Messages
  import opened EndToEnd
  import Framing
  import HeaderBinary
  import HeaderJson

  /** Texts a program can hold and still concatenate. */
  type shorttext = s: text | |s| < 0x4000_0000_0000_0000 witness []

  /** A value of some reply type; what it is does not matter here. */
  type Value = nat

  datatype Returned = Value(value: Value) | Raised(error: shorttext)

  datatype Marshalled = Bytes(body: seq<byte>) | Refused(error: shorttext)

  datatype Codec = Codec(kind: byte, marshal: Value -> Marshalled)

  /** A registered method: given the codec and the request body, decodes and calls.  The number
      tells one call from the next, as calls need not repeat themselves. */
  type Method = (nat, byte, seq<byte>) -> Returned

  datatype Service = Service(name: shorttext, methods: map<text, Method>)

  /** `encodeError` is the text of the error when a reply cannot be compressed. */
  datatype Handler = Handler(codecs: map<byte, Codec>, fallback: Codec, encodeError: shorttext)

  function CodecFor(h: Handler, t: byte): Codec {
    if t != 0 && t in h.codecs then h.codecs[t] else h.fallback
  }

  const METHOD_NOT_FOUND: text := HeaderJson.Ascii("method not found: ")
  const DOT: byte := 46

  function Invoke(h: Handler, c: Codec, service: Service, request: Header, body: seq<byte>, k: nat): Result {
    if request.method_ !in service.methods then Fault(METHOD_NOT_FOUND + service.name + [DOT] + request.method_)
    else
      match service.methods[request.method_](k, c.kind, body)
      case Raised(e) => Fault(e)
      case Value(v) => match c.marshal(v) case Refused(e) => Fault(e) case Bytes(b) => Reply(b)
  }

  datatype Result = Reply(body: seq<byte>) | Fault(error: text)

  /** A response that carries only an error. */
  function ErrorMessage(id: uint64, error: text): Message {
    Message(Some(Header(id, [], [], error, 0, GZIP)), [])
  }

  function ReplyMessage(c: Codec, request: Header, body: seq<byte>): Message {
    Message(Some(Header(request.requestID, [], [], [], c.kind, GZIP)), body)
  }

  /** The response to a request: the error, or the reply in the codec asked for, or the error of
      encoding that. */
  function Response(h: Handler, lib: Library, service: Service, request: Header, body: seq<byte>, k: nat): Message {
    var c := CodecFor(h, request.codec);
    match Invoke(h, c, service, request, body, k)
    case Fault(e) => ErrorMessage(request.requestID, e)
    case Reply(b) =>
      if Encode(lib, ReplyMessage(c, request, b), MAGIC_BINARY).Some? then ReplyMessage(c, request, b)
      else ErrorMessage(request.requestID, h.encodeError)
  }

  /** Whatever happens, the response can be encoded and carries the id of the request. */
  lemma {:induction false} ResponseEncodes(h: Handler, lib: Library, service: Service, request: Header,
                                           body: seq<byte>, k: nat)
    ensures var m := Response(h, lib, service, request, body, k);
      Encode(lib, m, MAGIC_BINARY).Some? && m.header.value.requestID == request.requestID
  {
    EncodeFails(lib, Response(h, lib, service, request, body, k), MAGIC_BINARY);
  }

  /** The call, the marshalling and the encoding of the reply all went well. */
  predicate Succeeds(h: Handler, lib: Library, service: Service, request: Header, body: seq<byte>, k: nat) {
    var c := CodecFor(h, request.codec);
    var result := Invoke(h, c, service, request, body, k);
    result.Reply? && Encode(lib, ReplyMessage(c, request, result.body), MAGIC_BINARY).Some?
  }

  /** A message that reports an error, in answer to request id. */
  predicate HasError(got: Message, id: uint64, error: text) {
    && got.header.Some? && got.body == []
    && var h := got.header.value;
    && h.requestID == id && h.error == error && h.service == h.method_ == [] && h.codec == h.compression == 0
  }

  /** A message with a reply in the given codec, in answer to request id. */
  predicate HasReply(got: Message, id: uint64, kind: byte, body: seq<byte>) {
    && got.header.Some? && got.body == body
    && var h := got.header.value;
    && h.requestID == id && h.error == h.service == h.method_ == [] && h.codec == kind
    && h.compression == if |body| < 512 then 0 else 1
  }

  /** What a call must be answered with: the method is looked up, called with the codec asked for, or
      else the default one, and its reply marshalled and compressed; what goes wrong first is told. */
  predicate Answers(h: Handler, lib: Library, service: Service, request: Header, body: seq<byte>, k: nat,
                    got: Message)
  {
    var id := request.requestID;
    var c := if request.codec != 0 && request.codec in h.codecs then h.codecs[request.codec] else h.fallback;
    if request.method_ !in service.methods then
      HasError(got, id, HeaderJson.Ascii("method not found: ") + service.name + HeaderJson.Ascii(".") + request.method_)
    else
      match service.methods[request.method_](k, c.kind, body)
      case Raised(e) => HasError(got, id, e)
      case Value(v) =>
        match c.marshal(v)
        case Refused(e) => HasError(got, id, e)
        case Bytes(b) =>
          if |b| >= 512 && lib.deflate(b).None? then HasError(got, id, h.encodeError) else HasReply(got, id, c.kind, b)
  }

  lemma {:induction false} ResponseAnswers(h: Handler, lib: Library, service: Service, request: Header,
                                           body: seq<byte>, k: nat)
    ensures Answers(h, lib, service, request, body, k, Delivered(Response(h, lib, service, request, body, k)))
  {
    assert HeaderJson.Ascii(".") == [DOT];
    var c := CodecFor(h, request.codec);
    match Invoke(h, c, service, request, body, k)
    case Fault(_) =>
    case Reply(b) => EncodeFails(lib, ReplyMessage(c, request, b), MAGIC_BINARY);
  }

  /** The bytes a message goes out as. */
  function Wire(lib: Library, m: Message): seq<byte> { Encoded(lib, Item(m, MAGIC_BINARY)) }

  method AppendErrorResponse(lib: Library, dst: seq<byte>, id: uint64, error: text) returns (buf: seq<byte>)
    requires |error| < UINT64_LIMIT
    ensures buf == dst + Wire(lib, ErrorMessage(id, error))
    ensures Faithful(lib) && |error| <= 0x10_0000 ==>
      Decode(lib, buf[|dst|..]).Some? && HasError(Decode(lib, buf[|dst|..]).value, id, error)
  {
    if Faithful(lib) { ErrorAnswer(lib, id, error); }
    assert (dst + Wire(lib, ErrorMessage(id, error)))[|dst|..] == Wire(lib, ErrorMessage(id, error));
    var r := AppendEncoded(lib, dst, ErrorMessage(id, error), MAGIC_BINARY);
    EncodeFails(lib, ErrorMessage(id, error), MAGIC_BINARY);
    return r.value;
  }

  method AppendResponse(h: Handler, lib: Library, dst: seq<byte>, service: Service, request: Header,
                        body: seq<byte>, k: nat)
    returns (buf: seq<byte>, failed: bool)
    requires |request.method_| < 0x4000_0000_0000_0000
    ensures buf == dst + Wire(lib, Response(h, lib, service, request, body, k))
    ensures failed <==> !Succeeds(h, lib, service, request, body, k)
  {
    var c := CodecFor(h, request.codec);
    if request.method_ !in service.methods {
      var error := METHOD_NOT_FOUND + service.name + [DOT] + request.method_;
      buf := AppendErrorResponse(lib, dst, request.requestID, error);
      return buf, true;
    }
    var returned := service.methods[request.method_](k, c.kind, body);
    if returned.Raised? {
      buf := AppendErrorResponse(lib, dst, request.requestID, returned.error);
      return buf, true;
    }
    var marshalled := c.marshal(returned.value);
    if marshalled.Refused? {
      buf := AppendErrorResponse(lib, dst, request.requestID, marshalled.error);
      return buf, true;
    }
    var resp := ReplyMessage(c, request, marshalled.body);
    var r := AppendEncoded(lib, dst, resp, MAGIC_BINARY);
    if r.None? {
      buf := AppendErrorResponse(lib, dst, request.requestID, h.encodeError);
      return buf, true;
    }
    return r.value, false;
  }

  // ---------------------------------------------------------------- what the client makes of it

  /** The parser takes errors of up to 2^20 bytes.  So an error response is understood exactly if
      its error is no longer. */
  lemma {:induction false} ErrorAnswer(lib: Library, id: uint64, error: text)
    requires Faithful(lib) && |error| < UINT64_LIMIT
    ensures var m := ErrorMessage(id, error);
      Decode(lib, Wire(lib, m)) == if |error| <= 0x10_0000 then Some(Delivered(m)) else None
    ensures HasError(Delivered(ErrorMessage(id, error)), id, error)
  {
    var m := ErrorMessage(id, error);
    EncodeFails(lib, m, MAGIC_BINARY);
    BinaryRoundTrip(lib, m);
  }

  lemma {:induction false} ReplyAnswer(lib: Library, c: Codec, request: Header, body: seq<byte>)
    requires var m := ReplyMessage(c, request, body); Faithful(lib) && Encode(lib, m, MAGIC_BINARY).Some?
    ensures var m := ReplyMessage(c, request, body);
      |Outgoing(lib, m).1| < UINT32_LIMIT ==> Decode(lib, Wire(lib, m)) == Some(Delivered(m))
  {
    BinaryRoundTrip(lib, ReplyMessage(c, request, body));
  }

  /** The error on the way to the response, if there is one, is within the parser's limit.  That
      about an unknown method repeats the names of service and method. */
  predicate ErrorFits(h: Handler, lib: Library, service: Service, request: Header, body: seq<byte>, k: nat) {
    var c := CodecFor(h, request.codec);
    if request.method_ !in service.methods then
      19 + |service.name| + |request.method_| <= 0x10_0000
    else
      match Invoke(h, c, service, request, body, k)
      case Fault(e) => |e| <= 0x10_0000
      case Reply(b) =>
        Encode(lib, ReplyMessage(c, request, b), MAGIC_BINARY).Some? || |h.encodeError| <= 0x10_0000
  }

  /** The body goes out below 2^32 bytes. */
  predicate BodyFits(lib: Library, m: Message) {
    Encode(lib, m, MAGIC_BINARY).Some? ==> |Outgoing(lib, m).1| < UINT32_LIMIT
  }

  /** The client understands a response exactly if the error in it fits; then it gets it whole, if
      its body goes out below 2^32 bytes. */
  lemma {:induction false} ResponseUnderstood(h: Handler, lib: Library, service: Service, request: Header,
                                              body: seq<byte>, k: nat)
    requires Faithful(lib) && |request.method_| < 0x4000_0000_0000_0000
    ensures var m := Response(h, lib, service, request, body, k); var got := Decode(lib, Wire(lib, m));
      var fits := ErrorFits(h, lib, service, request, body, k);
      && (!fits ==> got == None)
      && (fits && BodyFits(lib, m) ==>
          got == Some(Delivered(m)) && Answers(h, lib, service, request, body, k, got.value))
  {
    ResponseAnswers(h, lib, service, request, body, k);
    var c := CodecFor(h, request.codec);
    match Invoke(h, c, service, request, body, k)
    case Fault(e) => ErrorAnswer(lib, request.requestID, e);
    case Reply(b) =>
      if Encode(lib, ReplyMessage(c, request, b), MAGIC_BINARY).Some? {
        ReplyAnswer(lib, c, request, b);
      } else {
        ErrorAnswer(lib, request.requestID, h.encodeError);
      }
  }

  /** The response is one packet, and a client that reads it finds the request's id in it, or does
      not understand it, exactly if the error in it is too long. */
  lemma {:induction false} OneFrame(h: Handler, lib: Library, service: Service, request: Header,
                                    body: seq<byte>, k: nat)
    requires Faithful(lib) && |request.method_| < 0x4000_0000_0000_0000
    requires LengthsFit(lib, Response(h, lib, service, request, body, k), MAGIC_BINARY)
    ensures var m := Response(h, lib, service, request, body, k); var frame := Wire(lib, m);
      && Framing.Packets(frame) == [frame] && Framing.Rest(frame) == []
      && (Decode(lib, frame).Some? <==> ErrorFits(h, lib, service, request, body, k))
      && (Decode(lib, frame).Some? ==>
          Answers(h, lib, service, request, body, k, Decode(lib, frame).value))
  {
    var m := Response(h, lib, service, request, body, k);
    ResponseEncodes(h, lib, service, request, body, k);
    ResponseUnderstood(h, lib, service, request, body, k);
    var x := Item(m, MAGIC_BINARY);
    EncodedFrame(lib, x);
    var frame := Encoded(lib, x);
    assert frame[..|frame|] == frame && frame[|frame|..] == [];
  }

  const SERVICE_NOT_FOUND: text := HeaderJson.Ascii("service not found: ")

  /** The error of a service that is not there repeats its name, so a name within 19 bytes of the
      limit, or one beyond it, as a JSON header may bring in, gets a response that the client
      cannot parse. */
  lemma {:induction false} UnknownServiceAnswer(lib: Library, id: uint64, name: text)
    requires Faithful(lib) && |name| + 19 < UINT64_LIMIT
    ensures var m := ErrorMessage(id, SERVICE_NOT_FOUND + name);
      Decode(lib, Wire(lib, m)) == if |name| + 19 <= 0x10_0000 then Some(Delivered(m)) else None
    ensures HasError(Delivered(ErrorMessage(id, SERVICE_NOT_FOUND + name)), id,
                  HeaderJson.Ascii("service not found: ") + name)
  {
    ErrorAnswer(lib, id, SERVICE_NOT_FOUND + name);
  }
}
