/** The JSON header (protocol version 1): the encoder for strings that need no escaping, and the
    hand-written parser that accepts a subset of JSON and otherwise declines.

    The parser is proved against concrete syntax trees of the grammar of RFC 8259 (sections 2,
    4, 6 and 7): it accepts exactly the texts of trees whose members it understands, and reads
    the last member of each name. */
module HeaderJson {
  import opened Basics
  import opened Headers

  function Ascii(s: string): (r: seq<byte>)
    ensures |r| == |s|
  {
    seq(|s|, i requires 0 <= i < |s| => s[i] as int % 256)
  }

  const REQUEST_ID := Ascii("RequestID")
  const SERVICE_NAME := Ascii("ServiceName")
  const METHOD_NAME := Ascii("MethodName")
  const ERROR := Ascii("Error")
  const CODEC_TYPE := Ascii("CodecType")
  const COMPRESSION := Ascii("Compression")

  const QUOTE: byte := 34
  const COMMA: byte := 44
  const COLON: byte := 58
  const OPEN: byte := 123
  const CLOSE: byte := 125

  lemma {:induction false} NamesDistinct()
    ensures REQUEST_ID != CODEC_TYPE && SERVICE_NAME != COMPRESSION
    ensures |REQUEST_ID| == |CODEC_TYPE| == 9 && |SERVICE_NAME| == |COMPRESSION| == 11
    ensures |METHOD_NAME| == 10 && |ERROR| == 5
  {
    assert REQUEST_ID[0] == 82 && CODEC_TYPE[0] == 67;
    assert SERVICE_NAME[0] == 83 && COMPRESSION[0] == 67;
  }

  predicate IsSpace(c: byte) { c == 32 || c == 9 || c == 13 || c == 10 }

  predicate IsDigit(c: byte) { 48 <= c <= 57 }

  /** A character that stands for itself in a JSON string, in ASCII. */
  predicate IsPlain(c: byte) { 0x20 <= c < 0x80 && c != QUOTE && c != 92 }

  predicate Spaces(w: seq<byte>) { forall i :: 0 <= i < |w| ==> IsSpace(w[i]) }

  // ---------------------------------------------------------------- concrete syntax

  datatype Value = Str(s: text) | Num(digits: seq<byte>)

  /** A member with the white space before its name, around its colon and after its value. */
  datatype Member = Member(w0: seq<byte>, key: text, w1: seq<byte>, w2: seq<byte>, value: Value, w3: seq<byte>)

  /** An object; `inner` is the white space of an empty one. */
  datatype Doc = Doc(before: seq<byte>, inner: seq<byte>, members: seq<Member>, after: seq<byte>)

  function PrintString(s: text): seq<byte> { [QUOTE] + (s + [QUOTE]) }

  function PrintValue(v: Value): seq<byte> {
    match v case Str(s) => PrintString(s) case Num(digits) => digits
  }

  function PrintMember(m: Member): seq<byte> {
    m.w0 + (PrintString(m.key) + (m.w1 + ([COLON] + (m.w2 + (PrintValue(m.value) + m.w3)))))
  }

  function PrintMembers(ms: seq<Member>): seq<byte> {
    if ms == [] then []
    else if |ms| == 1 then PrintMember(ms[0])
    else PrintMember(ms[0]) + ([COMMA] + PrintMembers(ms[1..]))
  }

  function Print(d: Doc): seq<byte> {
    d.before + ([OPEN] + ((if d.members == [] then d.inner else PrintMembers(d.members)) + ([CLOSE] + d.after)))
  }

  predicate ValidString(s: text) { forall i :: 0 <= i < |s| ==> IsPlain(s[i]) }

  /** int = zero / ( digit1-9 *DIGIT ) */
  predicate ValidNumber(digits: seq<byte>) {
    |digits| > 0 && (forall i :: 0 <= i < |digits| ==> IsDigit(digits[i])) && (|digits| > 1 ==> digits[0] != 48)
  }

  predicate ValidMember(m: Member) {
    && Spaces(m.w0) && Spaces(m.w1) && Spaces(m.w2) && Spaces(m.w3)
    && ValidString(m.key)
    && match m.value case Str(s) => ValidString(s) case Num(digits) => ValidNumber(digits)
  }

  predicate Valid(d: Doc) {
    && Spaces(d.before) && Spaces(d.inner) && Spaces(d.after)
    && forall i :: 0 <= i < |d.members| ==> ValidMember(d.members[i])
  }

  function ValueOf(digits: seq<byte>): nat
    requires forall i :: 0 <= i < |digits| ==> IsDigit(digits[i])
  {
    if digits == [] then 0
    else
      var c: int := digits[|digits| - 1];
      assert IsDigit(c);
      10 * ValueOf(digits[..|digits| - 1]) + c - 48
  }

  /** A member of a known name with a value of its type, in range. */
  predicate Understood(m: Member)
    requires ValidMember(m)
  {
    if m.key == SERVICE_NAME || m.key == METHOD_NAME || m.key == ERROR then m.value.Str?
    else if m.key == REQUEST_ID then m.value.Num? && ValueOf(m.value.digits) < UINT64_LIMIT
    else if m.key == CODEC_TYPE || m.key == COMPRESSION then m.value.Num? && ValueOf(m.value.digits) <= 255
    else false
  }

  /** A valid object of which every member is understood. */
  predicate Readable(ms: seq<Member>) {
    forall i :: 0 <= i < |ms| ==> ValidMember(ms[i]) && Understood(ms[i])
  }

  function LastText(ms: seq<Member>, key: text): text {
    if ms == [] then []
    else if ms[|ms| - 1].key == key && ms[|ms| - 1].value.Str? then ms[|ms| - 1].value.s
    else LastText(ms[..|ms| - 1], key)
  }

  function LastNumber(ms: seq<Member>, key: text): nat
    requires Readable(ms)
  {
    if ms == [] then 0
    else if ms[|ms| - 1].key == key && ms[|ms| - 1].value.Num? then
      assert ValidMember(ms[|ms| - 1]);
      ValueOf(ms[|ms| - 1].value.digits)
    else LastNumber(ms[..|ms| - 1], key)
  }

  lemma {:induction false} LastNumberBound(ms: seq<Member>)
    requires Readable(ms)
    ensures LastNumber(ms, REQUEST_ID) < UINT64_LIMIT
    ensures LastNumber(ms, CODEC_TYPE) < 256 && LastNumber(ms, COMPRESSION) < 256
  {
    NamesDistinct();
    if ms != [] {
      assert Understood(ms[|ms| - 1]);
      LastNumberBound(ms[..|ms| - 1]);
    }
  }

  /** The header an object stands for: of several members of one name the last one counts. */
  function Reading(ms: seq<Member>): Header
    requires Readable(ms)
  {
    LastNumberBound(ms);
    Header(LastNumber(ms, REQUEST_ID), LastText(ms, SERVICE_NAME), LastText(ms, METHOD_NAME), LastText(ms, ERROR),
           LastNumber(ms, CODEC_TYPE), LastNumber(ms, COMPRESSION))
  }

  // ---------------------------------------------------------------- the parser, on suffixes

  function SkipSpace(d: seq<byte>): seq<byte> {
    if d != [] && IsSpace(d[0]) then SkipSpace(d[1..]) else d
  }

  function Chars(d: seq<byte>): (r: Option<(text, seq<byte>)>)
    ensures r.Some? ==> |r.value.1| < |d|
  {
    if d == [] then None
    else if d[0] == QUOTE then Some(([], d[1..]))
    else if !IsPlain(d[0]) then None
    else
      var tail := Chars(d[1..]);
      if tail.None? then None else Some(([d[0]] + tail.value.0, tail.value.1))
  }

  function RawString(d: seq<byte>): (r: Option<(text, seq<byte>)>)
    ensures r.Some? ==> |r.value.1| < |d|
  {
    if d == [] || d[0] != QUOTE then None else Chars(d[1..])
  }

  function DigitCount(d: seq<byte>): (k: nat)
    ensures k <= |d| && (forall i :: 0 <= i < k ==> IsDigit(d[i])) && (k < |d| ==> !IsDigit(d[k]))
  {
    if d == [] || !IsDigit(d[0]) then 0 else 1 + DigitCount(d[1..])
  }

  function Uint(d: seq<byte>): (r: Option<(uint64, seq<byte>)>)
    ensures r.Some? ==> |r.value.1| < |d|
  {
    var k := DigitCount(d);
    if k == 0 || (k > 1 && d[0] == 48) then None
    else if k < |d| && (d[k] == 46 || d[k] == 101 || d[k] == 69) then None
    else if ValueOf(d[..k]) >= UINT64_LIMIT then None
    else Some((ValueOf(d[..k]), d[k..]))
  }

  /** The value of a member of the given name, stored into h, and what follows it. */
  function Assign(h: Header, key: text, d: seq<byte>): (r: Option<(Header, seq<byte>)>)
    ensures r.Some? ==> |r.value.1| < |d|
  {
    if key == SERVICE_NAME || key == METHOD_NAME || key == ERROR then
      var s := RawString(d);
      if s.None? then None
      else if key == SERVICE_NAME then Some((h.(service := s.value.0), s.value.1))
      else if key == METHOD_NAME then Some((h.(method_ := s.value.0), s.value.1))
      else Some((h.(error := s.value.0), s.value.1))
    else if key == REQUEST_ID || key == CODEC_TYPE || key == COMPRESSION then
      var v := Uint(d);
      if v.None? then None
      else if key == REQUEST_ID then Some((h.(requestID := v.value.0), v.value.1))
      else if v.value.0 > 255 then None
      else if key == CODEC_TYPE then Some((h.(codec := v.value.0), v.value.1))
      else Some((h.(compression := v.value.0), v.value.1))
    else None
  }

  lemma {:induction false} SkipShortens(d: seq<byte>)
    ensures |SkipSpace(d)| <= |d|
  {
    if d != [] && IsSpace(d[0]) { SkipShortens(d[1..]); }
  }

  /** One member: name, colon and value, with the white space around them. */
  function OneMember(d: seq<byte>, h: Header): (r: Option<(Header, seq<byte>)>)
    ensures r.Some? ==> |r.value.1| < |d|
  {
    SkipShortens(d);
    var key := RawString(SkipSpace(d));
    if key.None? then None
    else
      SkipShortens(key.value.1);
      var colon := SkipSpace(key.value.1);
      if colon == [] || colon[0] != COLON then None
      else
        SkipShortens(colon[1..]);
        var value := Assign(h, key.value.0, SkipSpace(colon[1..]));
        if value.None? then None
        else
          SkipShortens(value.value.1);
          Some((value.value.0, SkipSpace(value.value.1)))
  }

  function ParseMembers(d: seq<byte>, h: Header): (r: Option<Header>)
    decreases |d|
  {
    var m := OneMember(d, h);
    if m.None? then None
    else
      var (h', end) := m.value;
      if end == [] then None
      else if end[0] == COMMA then ParseMembers(end[1..], h')
      else if end[0] == CLOSE && SkipSpace(end[1..]) == [] then Some(h')
      else None
  }

  function ParseFast(data: seq<byte>): (r: Option<Header>) {
    var d := SkipSpace(data);
    if d == [] || d[0] != OPEN then None
    else
      var e := SkipSpace(d[1..]);
      if e != [] && e[0] == CLOSE then
        if SkipSpace(e[1..]) == [] then Some(ZERO) else None
      else ParseMembers(e, ZERO)
  }

  // ---------------------------------------------------------------- completeness

  predicate StartsNoSpace(x: seq<byte>) { x != [] && !IsSpace(x[0]) }

  lemma {:induction false} SkipSpaces(w: seq<byte>, x: seq<byte>)
    requires Spaces(w) && (x == [] || StartsNoSpace(x))
    ensures SkipSpace(w + x) == x
  {
    if w != [] {
      assert (w + x)[1..] == w[1..] + x;
      SkipSpaces(w[1..], x);
    } else {
      assert w + x == x;
    }
  }

  lemma {:induction false} CharsPrinted(s: text, x: seq<byte>)
    requires ValidString(s)
    ensures Chars(s + ([QUOTE] + x)) == Some((s, x))
  {
    var d := s + ([QUOTE] + x);
    if s != [] {
      assert d[1..] == s[1..] + ([QUOTE] + x);
      CharsPrinted(s[1..], x);
      assert [s[0]] + s[1..] == s;
    } else {
      assert d[1..] == x;
    }
  }

  lemma {:induction false} StringPrinted(s: text, x: seq<byte>)
    requires ValidString(s)
    ensures RawString(PrintString(s) + x) == Some((s, x)) && StartsNoSpace(PrintString(s) + x)
  {
    assert (PrintString(s) + x)[1..] == s + ([QUOTE] + x);
    CharsPrinted(s, x);
  }

  lemma {:induction false} CountPrinted(digits: seq<byte>, x: seq<byte>)
    requires forall i :: 0 <= i < |digits| ==> IsDigit(digits[i])
    requires x == [] || !IsDigit(x[0])
    ensures DigitCount(digits + x) == |digits|
  {
    if digits != [] {
      assert (digits + x)[1..] == digits[1..] + x;
      CountPrinted(digits[1..], x);
    } else {
      assert digits + x == x;
    }
  }

  /** What may follow a value: white space, a comma or the closing brace. */
  predicate Delimited(x: seq<byte>) { x != [] && (IsSpace(x[0]) || x[0] == COMMA || x[0] == CLOSE) }

  lemma {:induction false} NumberPrinted(digits: seq<byte>, x: seq<byte>)
    requires ValidNumber(digits) && Delimited(x)
    ensures Uint(digits + x) == if ValueOf(digits) < UINT64_LIMIT then Some((ValueOf(digits), x)) else None
    ensures StartsNoSpace(digits + x)
  {
    CountPrinted(digits, x);
    assert (digits + x)[..|digits|] == digits && (digits + x)[|digits|..] == x;
  }

  /** One member stored into a header. */
  function Set(h: Header, m: Member): Header
    requires ValidMember(m) && Understood(m)
  {
    if m.key == SERVICE_NAME then h.(service := m.value.s)
    else if m.key == METHOD_NAME then h.(method_ := m.value.s)
    else if m.key == ERROR then h.(error := m.value.s)
    else if m.key == REQUEST_ID then h.(requestID := ValueOf(m.value.digits))
    else if m.key == CODEC_TYPE then h.(codec := ValueOf(m.value.digits))
    else h.(compression := ValueOf(m.value.digits))
  }

  function Fold(h: Header, ms: seq<Member>): Header
    requires Readable(ms)
  {
    if ms == [] then h else Set(Fold(h, ms[..|ms| - 1]), ms[|ms| - 1])
  }

  lemma {:induction false} FoldFront(h: Header, m: Member, ms: seq<Member>)
    requires Readable([m]) && Readable(ms)
    ensures Readable([m] + ms) && ValidMember(m) && Understood(m)
    ensures Fold(h, [m] + ms) == Fold(Set(h, m), ms)
  {
    assert ValidMember([m][0]) && Understood([m][0]);
    if ms == [] {
      assert [m] + ms == [m];
      assert [m][..0] == [];
    } else {
      FoldFront(h, m, ms[..|ms| - 1]);
      assert ([m] + ms)[..|ms|] == [m] + ms[..|ms| - 1];
    }
  }

  lemma {:induction false} FoldIsReading(ms: seq<Member>)
    requires Readable(ms)
    ensures Fold(ZERO, ms) == Reading(ms)
  {
    NamesDistinct();
    if ms != [] {
      FoldIsReading(ms[..|ms| - 1]);
      assert Understood(ms[|ms| - 1]);
    }
  }

  lemma {:induction false} AssignPrinted(h: Header, m: Member, x: seq<byte>)
    requires ValidMember(m) && Delimited(m.w3 + x)
    ensures Assign(h, m.key, PrintValue(m.value) + (m.w3 + x)) ==
      if Understood(m) then Some((Set(h, m), m.w3 + x)) else None
    ensures StartsNoSpace(PrintValue(m.value) + (m.w3 + x))
  {
    NamesDistinct();
    match m.value
    case Str(s) =>
      StringPrinted(s, m.w3 + x);
      assert DigitCount(PrintString(s) + (m.w3 + x)) == 0;
    case Num(digits) =>
      NumberPrinted(digits, m.w3 + x);
  }

  /** The parser reads one printed member and goes on behind it. */
  lemma {:induction false} MemberPrinted(h: Header, m: Member, x: seq<byte>)
    requires ValidMember(m) && x != [] && (x[0] == COMMA || x[0] == CLOSE)
    ensures ParseMembers(PrintMember(m) + x, h) ==
      if !Understood(m) then None
      else if x[0] == COMMA then ParseMembers(x[1..], Set(h, m))
      else if SkipSpace(x[1..]) == [] then Some(Set(h, m)) else None
  {
    var v := PrintValue(m.value) + (m.w3 + x);
    var c := [COLON] + (m.w2 + v);
    var k := PrintString(m.key) + (m.w1 + c);
    assert PrintMember(m) + x == m.w0 + k;
    StringPrinted(m.key, m.w1 + c);
    SkipSpaces(m.w0, k);
    SkipSpaces(m.w1, c);
    assert c[1..] == m.w2 + v;
    assert Delimited(m.w3 + x);
    AssignPrinted(h, m, x);
    SkipSpaces(m.w2, v);
    SkipSpaces(m.w3, x);
  }

  lemma {:induction false} MembersPrinted(h: Header, ms: seq<Member>, after: seq<byte>)
    requires ms != [] && forall i :: 0 <= i < |ms| ==> ValidMember(ms[i])
    ensures ParseMembers(PrintMembers(ms) + ([CLOSE] + after), h)
      == if Readable(ms) && SkipSpace(after) == [] then Some(Fold(h, ms)) else None
    decreases |ms|
  {
    var tail := [CLOSE] + after;
    var m := ms[0];
    assert ValidMember(m);
    if |ms| == 1 {
      assert tail[1..] == after;
      MemberPrinted(h, m, tail);
      assert ms == [m] && [m][..0] == [];
    } else {
      var rest := ms[1..];
      var x := [COMMA] + (PrintMembers(rest) + tail);
      Rejoin(PrintMember(m), PrintMembers(rest), tail);
      assert x[1..] == PrintMembers(rest) + tail;
      MemberPrinted(h, m, x);
      if Understood(m) { MembersPrinted(Set(h, m), rest, after); }
      FirstRead(h, ms);
    }
  }

  lemma {:induction false} FirstRead(h: Header, ms: seq<Member>)
    requires ms != [] && ValidMember(ms[0])
    ensures Readable(ms) <==> Understood(ms[0]) && Readable(ms[1..])
    ensures Readable(ms) ==> Understood(ms[0]) && Fold(h, ms) == Fold(Set(h, ms[0]), ms[1..])
  {
    assert ms == [ms[0]] + ms[1..];
    if Understood(ms[0]) && Readable(ms[1..]) { FoldFront(h, ms[0], ms[1..]); }
    if Readable(ms) { FoldFront(h, ms[0], ms[1..]); }
  }

  lemma {:induction false} MembersStart(ms: seq<Member>, x: seq<byte>)
    requires ms != [] && ValidMember(ms[0])
    ensures exists tail :: PrintMembers(ms) + x == ms[0].w0 + ([QUOTE] + tail)
  {
    var m := ms[0];
    var u := (m.key + [QUOTE]) + (m.w1 + ([COLON] + (m.w2 + (PrintValue(m.value) + m.w3))));
    assert PrintMember(m) == m.w0 + ([QUOTE] + u);
    var y := if |ms| == 1 then x else [COMMA] + PrintMembers(ms[1..]) + x;
    assert PrintMembers(ms) + x == PrintMember(m) + y;
    Prepend(m.w0, u, y);
  }

  lemma {:induction false} Prepend(w: seq<byte>, u: seq<byte>, y: seq<byte>)
    ensures (w + ([QUOTE] + u)) + y == w + ([QUOTE] + (u + y))
  {
  }

  /** The same, with anything behind the object. */
  lemma {:induction false} ParseWithTail(d: Doc)
    requires Valid(d.(after := []))
    ensures ParseFast(Print(d))
      == if Readable(d.members) && SkipSpace(d.after) == [] then Some(Reading(d.members)) else None
  {
    var tail := [CLOSE] + d.after;
    assert tail[1..] == d.after;
    if d.members == [] {
      var body := [OPEN] + (d.inner + tail);
      SkipSpaces(d.before, body);
      assert body[1..] == d.inner + tail;
      SkipSpaces(d.inner, tail);
    } else {
      var body := PrintMembers(d.members) + tail;
      assert Print(d) == d.before + ([OPEN] + body);
      SkipSpaces(d.before, [OPEN] + body);
      assert ([OPEN] + body)[1..] == body;
      MembersStart(d.members, tail);
      var rest :| body == d.members[0].w0 + ([QUOTE] + rest);
      SkipSpaces(d.members[0].w0, [QUOTE] + rest);
      SkipTwice(body, ZERO);
      MembersPrinted(ZERO, d.members, d.after);
      if Readable(d.members) { FoldIsReading(d.members); }
    }
  }

  /** On the text of any valid object the parser accepts exactly when every member is understood,
      and then reads the last member of each name. */
  lemma {:induction false} ParsePrinted(d: Doc)
    requires Valid(d)
    ensures ParseFast(Print(d)) == if Readable(d.members) then Some(Reading(d.members)) else None
  {
    ParseWithTail(d);
    assert d.after + [] == d.after;
    SkipSpaces(d.after, []);
  }

  lemma {:induction false} SkipIdempotent(d: seq<byte>)
    ensures SkipSpace(SkipSpace(d)) == SkipSpace(d)
    ensures SkipSpace(d) == [] || StartsNoSpace(SkipSpace(d))
  {
    if d != [] && IsSpace(d[0]) { SkipIdempotent(d[1..]); }
  }

  lemma {:induction false} SkipTwice(d: seq<byte>, h: Header)
    ensures ParseMembers(SkipSpace(d), h) == ParseMembers(d, h)
  {
    SkipIdempotent(d);
  }

  // ---------------------------------------------------------------- soundness

  lemma {:induction false} Skipped(d: seq<byte>) returns (w: seq<byte>)
    ensures Spaces(w) && d == w + SkipSpace(d)
  {
    if d != [] && IsSpace(d[0]) {
      var v := Skipped(d[1..]);
      w := [d[0]] + v;
      assert d == [d[0]] + d[1..];
    } else {
      w := [];
    }
  }

  lemma {:induction false} CharsSound(d: seq<byte>)
    requires Chars(d).Some?
    ensures var (s, x) := Chars(d).value; ValidString(s) && d == s + ([QUOTE] + x)
  {
    if d[0] != QUOTE {
      CharsSound(d[1..]);
    }
  }

  lemma {:induction false} StringSound(d: seq<byte>)
    requires RawString(d).Some?
    ensures var (s, x) := RawString(d).value; ValidString(s) && d == PrintString(s) + x
  {
    CharsSound(d[1..]);
    assert d == [QUOTE] + d[1..];
  }

  lemma {:induction false} ValueSound(h: Header, key: text, d: seq<byte>) returns (v: Value)
    requires Assign(h, key, d).Some?
    ensures match v case Str(s) => ValidString(s) case Num(digits) => ValidNumber(digits)
    ensures d == PrintValue(v) + Assign(h, key, d).value.1
    ensures forall w0, w1, w2, w3 :: ValidMember(Member(w0, key, w1, w2, v, w3)) ==>
      Understood(Member(w0, key, w1, w2, v, w3))
  {
    NamesDistinct();
    if key == SERVICE_NAME || key == METHOD_NAME || key == ERROR {
      StringSound(d);
      v := Str(RawString(d).value.0);
    } else {
      v := Num(d[..DigitCount(d)]);
    }
  }

  lemma {:induction false} MemberSound(d: seq<byte>, h: Header) returns (m: Member)
    requires OneMember(d, h).Some?
    ensures ValidMember(m) && Understood(m) && d == PrintMember(m) + OneMember(d, h).value.1
  {
    var w0 := Skipped(d);
    var key := RawString(SkipSpace(d)).value;
    StringSound(SkipSpace(d));
    var w1 := Skipped(key.1);
    var colon := SkipSpace(key.1);
    var w2 := Skipped(colon[1..]);
    var value := Assign(h, key.0, SkipSpace(colon[1..])).value;
    var v := ValueSound(h, key.0, SkipSpace(colon[1..]));
    var w3 := Skipped(value.1);
    m := Member(w0, key.0, w1, w2, v, w3);
    assert ValidMember(m) && Understood(m);
    assert colon == [COLON] + colon[1..];
    Reassociate(w0, PrintString(key.0), w1, w2, PrintValue(v), w3, SkipSpace(value.1));
  }

  lemma {:induction false} Reassociate(a: seq<byte>, b: seq<byte>, c: seq<byte>, e: seq<byte>, f: seq<byte>,
                                       g: seq<byte>, x: seq<byte>)
    ensures (a + (b + (c + ([COLON] + (e + (f + g)))))) + x == a + (b + (c + ([COLON] + (e + (f + (g + x))))))
  {
  }

  lemma {:induction false} Rejoin(a: seq<byte>, b: seq<byte>, x: seq<byte>)
    ensures (a + ([COMMA] + b)) + x == a + ([COMMA] + (b + x))
  {
  }

  lemma {:induction false} BehindComma(m: Member, more: seq<Member>, end: seq<byte>, after: seq<byte>)
    requires more != [] && end != [] && end[0] == COMMA && end[1..] == PrintMembers(more) + ([CLOSE] + after)
    ensures PrintMember(m) + end == PrintMembers([m] + more) + ([CLOSE] + after)
  {
    assert ([m] + more)[1..] == more && end == [COMMA] + end[1..];
    Rejoin(PrintMember(m), PrintMembers(more), [CLOSE] + after);
  }

  lemma {:induction false} MembersSound(d: seq<byte>, h: Header) returns (ms: seq<Member>, after: seq<byte>)
    requires ParseMembers(d, h).Some?
    ensures ms != [] && Readable(ms) && Spaces(after)
    ensures d == PrintMembers(ms) + ([CLOSE] + after)
    decreases |d|
  {
    var m := MemberSound(d, h);
    var (h', end) := OneMember(d, h).value;
    if end[0] == COMMA {
      var more;
      more, after := MembersSound(end[1..], h');
      ms := [m] + more;
      BehindComma(m, more, end, after);
    } else {
      after := Skipped(end[1..]);
      assert end[1..] == after + [];
      assert end == [CLOSE] + end[1..];
      ms := [m];
    }
  }

  lemma {:induction false} EmptyPrinted(data: seq<byte>, before: seq<byte>, o: seq<byte>) returns (d: Doc)
    requires Spaces(before) && data == before + ([OPEN] + o)
    requires var e := SkipSpace(o); e != [] && e[0] == CLOSE && SkipSpace(e[1..]) == []
    ensures Valid(d) && d.members == [] && Print(d) == data
  {
    var inner := Skipped(o);
    var e := SkipSpace(o);
    var after := Skipped(e[1..]);
    assert e == [CLOSE] + e[1..] && after + [] == after;
    d := Doc(before, inner, [], after);
  }

  lemma {:induction false} FilledPrinted(data: seq<byte>, before: seq<byte>, o: seq<byte>) returns (d: Doc)
    requires Spaces(before) && data == before + ([OPEN] + o) && ParseMembers(o, ZERO).Some?
    ensures Valid(d) && Readable(d.members) && Print(d) == data
  {
    var ms, after := MembersSound(o, ZERO);
    d := Doc(before, [], ms, after);
  }

  lemma {:induction false} PrintedAs(data: seq<byte>) returns (d: Doc)
    requires ParseFast(data).Some?
    ensures Valid(d) && Readable(d.members) && Print(d) == data
  {
    var before := Skipped(data);
    var o := SkipSpace(data);
    var e := SkipSpace(o[1..]);
    assert o == [OPEN] + o[1..];
    if e != [] && e[0] == CLOSE {
      d := EmptyPrinted(data, before, o[1..]);
    } else {
      SkipTwice(o[1..], ZERO);
      d := FilledPrinted(data, before, o[1..]);
    }
  }

  /** What the fast path accepts is the text of an object, and the header its last-wins reading. */
  lemma {:induction false} ParseSound(data: seq<byte>) returns (d: Doc)
    requires ParseFast(data).Some?
    ensures Valid(d) && Readable(d.members) && Print(d) == data
    ensures ParseFast(data) == Some(Reading(d.members))
  {
    d := PrintedAs(data);
    ParsePrinted(d);
  }

  /** Member k is the last of that name. */
  ghost predicate LastAt(ms: seq<Member>, key: text, k: nat) {
    k < |ms| && ms[k].key == key && forall i :: k < i < |ms| ==> ms[i].key != key
  }

  ghost predicate NoneOf(ms: seq<Member>, key: text) { forall i :: 0 <= i < |ms| ==> ms[i].key != key }

  /** The last member of that name is a string, s; or there is none, and s is empty. */
  ghost predicate TextField(ms: seq<Member>, key: text, s: text) {
    (NoneOf(ms, key) && s == []) || exists k: nat :: LastAt(ms, key, k) && ms[k].value == Str(s)
  }

  /** The last member of that name is a number of value v; or there is none, and v is zero. */
  ghost predicate NumberField(ms: seq<Member>, key: text, v: nat) {
    (NoneOf(ms, key) && v == 0) || exists k: nat :: LastAt(ms, key, k) && IsNumber(ms[k].value, v)
  }

  /** The decimal digits of v. */
  predicate IsNumber(value: Value, v: nat) {
    value.Num? && (forall i :: 0 <= i < |value.digits| ==> IsDigit(value.digits[i])) && ValueOf(value.digits) == v
  }

  lemma {:induction false} OneMoreMember(ms: seq<Member>, key: text)
    requires ms != [] && ms[|ms| - 1].key != key
    ensures NoneOf(ms, key) <==> NoneOf(ms[..|ms| - 1], key)
    ensures forall k: nat :: LastAt(ms[..|ms| - 1], key, k) ==> LastAt(ms, key, k)
  {
    var front := ms[..|ms| - 1];
    assert forall i :: 0 <= i < |front| ==> front[i] == ms[i];
  }

  lemma {:induction false} LastTextIs(ms: seq<Member>, key: text)
    requires forall i :: 0 <= i < |ms| && ms[i].key == key ==> ms[i].value.Str?
    ensures TextField(ms, key, LastText(ms, key))
  {
    if ms != [] {
      var n := |ms| - 1;
      if ms[n].key == key {
        assert LastAt(ms, key, n) && ms[n].value == Str(LastText(ms, key));
      } else {
        OneMoreMember(ms, key);
        LastTextIs(ms[..n], key);
      }
    }
  }

  lemma {:induction false} LastNumberIs(ms: seq<Member>, key: text)
    requires Readable(ms) && forall i :: 0 <= i < |ms| && ms[i].key == key ==> ms[i].value.Num?
    ensures NumberField(ms, key, LastNumber(ms, key))
  {
    if ms != [] {
      var n := |ms| - 1;
      if ms[n].key == key {
        assert ValidMember(ms[n]);
        assert LastAt(ms, key, n) && IsNumber(ms[n].value, LastNumber(ms, key));
      } else {
        OneMoreMember(ms, key);
        LastNumberIs(ms[..n], key);
      }
    }
  }

  /** The fields of the header are the last members of the six names. */
  ghost predicate FieldsOf(ms: seq<Member>, h: Header) {
    && NumberField(ms, Ascii("RequestID"), h.requestID) && TextField(ms, Ascii("ServiceName"), h.service)
    && TextField(ms, Ascii("MethodName"), h.method_) && TextField(ms, Ascii("Error"), h.error)
    && NumberField(ms, Ascii("CodecType"), h.codec) && NumberField(ms, Ascii("Compression"), h.compression)
  }

  lemma {:induction false} ReadingIs(ms: seq<Member>)
    requires Readable(ms)
    ensures FieldsOf(ms, Reading(ms))
  {
    NamesDistinct();
    forall i | 0 <= i < |ms|
      ensures ms[i].key == SERVICE_NAME || ms[i].key == METHOD_NAME || ms[i].key == ERROR ==> ms[i].value.Str?
      ensures ms[i].key == REQUEST_ID || ms[i].key == CODEC_TYPE || ms[i].key == COMPRESSION ==> ms[i].value.Num?
    {
      assert Understood(ms[i]);
    }
    LastTextIs(ms, SERVICE_NAME);
    LastTextIs(ms, METHOD_NAME);
    LastTextIs(ms, ERROR);
    LastNumberIs(ms, REQUEST_ID);
    LastNumberIs(ms, CODEC_TYPE);
    LastNumberIs(ms, COMPRESSION);
  }

  /** What is read: the members of the object are among the six known names, each with a value of
      its type and range, and the fields of the header are the last of each. */
  lemma {:induction false} FieldsRead(d: Doc)
    requires Valid(d)
    ensures ParseFast(Print(d)).Some? <==> forall i :: 0 <= i < |d.members| ==> Known(d.members[i])
    ensures ParseFast(Print(d)).Some? ==> FieldsOf(d.members, ParseFast(Print(d)).value)
  {
    ParsePrinted(d);
    forall i | 0 <= i < |d.members|
      ensures ValidMember(d.members[i]) && (Known(d.members[i]) <==> Understood(d.members[i]))
    {
      KnownIs(d.members[i]);
    }
    if Readable(d.members) { ReadingIs(d.members); }
  }

  predicate Known(m: Member) {
    || (m.key in [Ascii("ServiceName"), Ascii("MethodName"), Ascii("Error")] && m.value.Str?)
    || (m.key == Ascii("RequestID") && NumberBelow(m.value, 0x1_0000_0000_0000_0000))
    || (m.key in [Ascii("CodecType"), Ascii("Compression")] && NumberBelow(m.value, 256))
  }

  predicate NumberBelow(value: Value, limit: nat) {
    value.Num? && (forall i :: 0 <= i < |value.digits| ==> IsDigit(value.digits[i])) && ValueOf(value.digits) < limit
  }

  lemma {:induction false} KnownIs(m: Member)
    requires ValidMember(m)
    ensures Known(m) <==> Understood(m)
  {
    NamesDistinct();
  }

  lemma {:induction false} AllSpaces(w: seq<byte>)
    ensures SkipSpace(w) == [] <==> Spaces(w)
  {
    if w != [] { AllSpaces(w[1..]); }
  }

  lemma {:induction false} Lengthen(d: Doc, x: seq<byte>)
    ensures Print(d) + x == Print(d.(after := d.after + x))
  {
  }

  /** Nothing but white space may follow what the fast path accepts, so of two different texts
      that it accepts neither begins with the other, white space at the end apart. */
  lemma {:induction false} NothingFollows(data: seq<byte>, x: seq<byte>)
    requires ParseFast(data).Some?
    ensures ParseFast(data + x) == if Spaces(x) then ParseFast(data) else None
  {
    var d := ParseSound(data);
    Lengthen(d, x);
    ParseWithTail(d.(after := d.after + x));
    AllSpaces(d.after + x);
    assert Spaces(d.after + x) <==> Spaces(x) by {
      assert forall i :: 0 <= i < |x| ==> x[i] == (d.after + x)[|d.after| + i];
    }
  }

  /** The fast path accepts exactly the texts of valid JSON objects all of whose members it
      understands, and returns their last-wins reading. */
  lemma {:induction false} FastPathExact(data: seq<byte>, h: Header)
    ensures ParseFast(data) == Some(h) <==>
      exists d :: Valid(d) && Readable(d.members) && Print(d) == data && h == Reading(d.members)
  {
    if ParseFast(data).Some? {
      var d := ParseSound(data);
    }
    forall d | Valid(d) && Readable(d.members) && Print(d) == data && h == Reading(d.members)
      ensures ParseFast(data) == Some(h)
    {
      ParsePrinted(d);
    }
  }

  // ---------------------------------------------------------------- the encoder

  /** The bytes both this encoder and the standard library leave alone in a string. */
  predicate SafeByte(c: byte) { IsPlain(c) && c != 60 && c != 62 && c != 38 }

  predicate NeedsEscape(s: text) { exists i :: 0 <= i < |s| && !SafeByte(s[i]) }

  predicate Safe(h: Header) { !NeedsEscape(h.service) && !NeedsEscape(h.method_) && !NeedsEscape(h.error) }

  function Decimal(n: nat): (r: seq<byte>)
    ensures |r| > 0 && forall i :: 0 <= i < |r| ==> IsDigit(r[i])
  {
    if n < 10 then [48 + n] else Decimal(n / 10) + [48 + n % 10]
  }

  lemma {:induction false} DecimalValue(n: nat)
    ensures ValidNumber(Decimal(n)) && ValueOf(Decimal(n)) == n && (n > 0 ==> Decimal(n)[0] != 48)
  {
    if n < 10 {
      assert Decimal(n)[..0] == [];
    } else {
      DecimalValue(n / 10);
      assert Decimal(n)[..|Decimal(n)| - 1] == Decimal(n / 10);
    }
  }

  function Power10(k: nat): nat { if k == 0 then 1 else 10 * Power10(k - 1) }

  /** The k-th digit from the right, counted from zero. */
  lemma {:induction false} DigitOf(digits: seq<byte>, k: nat)
    requires (forall i :: 0 <= i < |digits| ==> IsDigit(digits[i])) && k < |digits|
    ensures Power10(k) >= 1
    ensures ValueOf(digits) / Power10(k) % 10 == digits[|digits| - 1 - k] as int - 48
    decreases k
  {
    var n := |digits| - 1;
    assert IsDigit(digits[n]);
    if k > 0 {
      DigitOf(digits[..n], k - 1);
      assert ValueOf(digits) / 10 == ValueOf(digits[..n]);
      DivideTwice(ValueOf(digits), 10, Power10(k - 1));
    }
  }

  lemma {:induction false} DecimalLength(n: nat, k: nat)
    requires k > 0 && n < Power10(k)
    ensures |Decimal(n)| <= k
  {
    assert Power10(1) == 10;
    if n >= 10 {
      DecimalLength(n / 10, k - 1);
    }
  }

  /** The object the encoder writes, as a syntax tree without white space. */
  function DocOf(h: Header): Doc {
    Doc([], [], [
      Member([], REQUEST_ID, [], [], Num(Decimal(h.requestID)), []),
      Member([], SERVICE_NAME, [], [], Str(h.service), []),
      Member([], METHOD_NAME, [], [], Str(h.method_), []),
      Member([], ERROR, [], [], Str(h.error), []),
      Member([], CODEC_TYPE, [], [], Num(Decimal(h.codec)), []),
      Member([], COMPRESSION, [], [], Num(Decimal(h.compression)), [])], [])
  }

  /** appendHeaderJSON of a header that needs no escaping: the literal pieces of the source. */
  function EncodeFast(h: Header): seq<byte> {
    Ascii("{\"RequestID\":") + Decimal(h.requestID)
    + Ascii(",\"ServiceName\":\"") + h.service
    + Ascii("\",\"MethodName\":\"") + h.method_
    + Ascii("\",\"Error\":\"") + h.error
    + Ascii("\",\"CodecType\":") + Decimal(h.codec)
    + Ascii(",\"Compression\":") + Decimal(h.compression)
    + Ascii("}")
  }

  lemma {:induction false} Pieces()
    ensures Ascii("{\"RequestID\":") == [OPEN] + (PrintString(REQUEST_ID) + [COLON])
    ensures Ascii(",\"ServiceName\":\"") == [COMMA] + (PrintString(SERVICE_NAME) + ([COLON] + [QUOTE]))
    ensures Ascii("\",\"MethodName\":\"") == [QUOTE] + ([COMMA] + (PrintString(METHOD_NAME) + ([COLON] + [QUOTE])))
    ensures Ascii("\",\"Error\":\"") == [QUOTE] + ([COMMA] + (PrintString(ERROR) + ([COLON] + [QUOTE])))
    ensures Ascii("\",\"CodecType\":") == [QUOTE] + ([COMMA] + (PrintString(CODEC_TYPE) + [COLON]))
    ensures Ascii(",\"Compression\":") == [COMMA] + (PrintString(COMPRESSION) + [COLON])
    ensures Ascii("}") == [CLOSE]
  {
    NamePieces();
    TextPieces();
  }

  lemma {:induction false} NamePieces()
    ensures Ascii(",\"ServiceName\":\"") == [COMMA] + (PrintString(SERVICE_NAME) + ([COLON] + [QUOTE]))
    ensures Ascii("\",\"MethodName\":\"") == [QUOTE] + ([COMMA] + (PrintString(METHOD_NAME) + ([COLON] + [QUOTE])))
  {
  }

  lemma {:induction false} TextPieces()
    ensures Ascii("\",\"Error\":\"") == [QUOTE] + ([COMMA] + (PrintString(ERROR) + ([COLON] + [QUOTE])))
    ensures Ascii("\",\"CodecType\":") == [QUOTE] + ([COMMA] + (PrintString(CODEC_TYPE) + [COLON]))
  {
  }

  function Tight(key: text, v: Value): Member { Member([], key, [], [], v, []) }

  /** A member and the comma before it, without white space. */
  function AfterComma(key: text, v: Value): seq<byte> { [COMMA] + (PrintString(key) + ([COLON] + PrintValue(v))) }

  lemma {:induction false} PrintTight(key: text, v: Value)
    ensures PrintMember(Tight(key, v)) == PrintString(key) + ([COLON] + PrintValue(v))
  {
  }

  lemma {:induction false} PrintCons(key: text, v: Value, ms: seq<Member>)
    requires ms != []
    ensures PrintMembers([Tight(key, v)] + ms)
      == PrintString(key) + ([COLON] + PrintValue(v)) + ([COMMA] + PrintMembers(ms))
    ensures [COMMA] + PrintMembers([Tight(key, v)] + ms) == AfterComma(key, v) + ([COMMA] + PrintMembers(ms))
  {
    PrintTight(key, v);
    assert ([Tight(key, v)] + ms)[1..] == ms;
  }

  /** The members after the first, from the last one backwards. */
  function Tail(h: Header, n: nat): seq<Member>
    requires 1 <= n <= 5
  {
    if n == 1 then [Tight(COMPRESSION, Num(Decimal(h.compression)))]
    else if n == 2 then [Tight(CODEC_TYPE, Num(Decimal(h.codec)))] + Tail(h, 1)
    else if n == 3 then [Tight(ERROR, Str(h.error))] + Tail(h, 2)
    else if n == 4 then [Tight(METHOD_NAME, Str(h.method_))] + Tail(h, 3)
    else [Tight(SERVICE_NAME, Str(h.service))] + Tail(h, 4)
  }

  lemma {:induction false} DocMembers(h: Header)
    ensures DocOf(h).members == [Tight(REQUEST_ID, Num(Decimal(h.requestID)))] + Tail(h, 5)
  {
    TailCons(h);
  }

  lemma {:induction false} TailCons(h: Header)
    ensures Tail(h, 1) == [Tight(COMPRESSION, Num(Decimal(h.compression)))]
    ensures Tail(h, 2) == [Tight(CODEC_TYPE, Num(Decimal(h.codec)))] + Tail(h, 1)
    ensures Tail(h, 3) == [Tight(ERROR, Str(h.error))] + Tail(h, 2)
    ensures Tail(h, 4) == [Tight(METHOD_NAME, Str(h.method_))] + Tail(h, 3)
    ensures Tail(h, 5) == [Tight(SERVICE_NAME, Str(h.service))] + Tail(h, 4)
  {
  }

  lemma {:induction false} PrintTail(h: Header)
    ensures [COMMA] + PrintMembers(Tail(h, 5)) ==
      AfterComma(SERVICE_NAME, Str(h.service))
      + (AfterComma(METHOD_NAME, Str(h.method_)) + (AfterComma(ERROR, Str(h.error))
      + (AfterComma(CODEC_TYPE, Num(Decimal(h.codec))) + AfterComma(COMPRESSION, Num(Decimal(h.compression))))))
  {
    TailCons(h);
    PrintTight(COMPRESSION, Num(Decimal(h.compression)));
    PrintCons(CODEC_TYPE, Num(Decimal(h.codec)), Tail(h, 1));
    PrintCons(ERROR, Str(h.error), Tail(h, 2));
    PrintCons(METHOD_NAME, Str(h.method_), Tail(h, 3));
    PrintCons(SERVICE_NAME, Str(h.service), Tail(h, 4));
  }

  lemma {:induction false} Reassociate7(a: seq<byte>, b: seq<byte>, c: seq<byte>, d: seq<byte>, e: seq<byte>,
                                        f: seq<byte>, g: seq<byte>)
    ensures a + (b + (c + (d + (e + f)))) + g == a + b + c + d + e + f + g
  {
  }

  lemma {:induction false} PrintObject(key: text, v: Value, ms: seq<Member>)
    requires ms != []
    ensures Print(Doc([], [], [Tight(key, v)] + ms, []))
      == ([OPEN] + (PrintString(key) + ([COLON] + PrintValue(v)))) + ([COMMA] + PrintMembers(ms)) + [CLOSE]
  {
    PrintCons(key, v, ms);
  }

  lemma {:induction false} PrintDoc(h: Header)
    ensures Print(DocOf(h)) ==
      [OPEN] + (PrintString(REQUEST_ID) + ([COLON] + Decimal(h.requestID)))
      + AfterComma(SERVICE_NAME, Str(h.service)) + AfterComma(METHOD_NAME, Str(h.method_))
      + AfterComma(ERROR, Str(h.error))
      + AfterComma(CODEC_TYPE, Num(Decimal(h.codec))) + AfterComma(COMPRESSION, Num(Decimal(h.compression)))
      + [CLOSE]
  {
    var first := PrintString(REQUEST_ID) + ([COLON] + Decimal(h.requestID));
    DocMembers(h);
    PrintObject(REQUEST_ID, Num(Decimal(h.requestID)), Tail(h, 5));
    PrintTail(h);
    Reassociate7([OPEN] + first, AfterComma(SERVICE_NAME, Str(h.service)), AfterComma(METHOD_NAME, Str(h.method_)),
                 AfterComma(ERROR, Str(h.error)), AfterComma(CODEC_TYPE, Num(Decimal(h.codec))),
                 AfterComma(COMPRESSION, Num(Decimal(h.compression))), [CLOSE]);
  }

  lemma {:induction false} Quoted(e: seq<byte>, key: text, s: text)
    ensures e + ([COMMA] + (PrintString(key) + ([COLON] + [QUOTE]))) + s + [QUOTE] == e + AfterComma(key, Str(s))
    ensures e + ([QUOTE] + ([COMMA] + (PrintString(key) + ([COLON] + [QUOTE])))) + s + [QUOTE]
      == (e + [QUOTE]) + AfterComma(key, Str(s))
  {
  }

  lemma {:induction false} Counted(e: seq<byte>, key: text, d: seq<byte>)
    ensures e + ([COMMA] + (PrintString(key) + [COLON])) + d == e + AfterComma(key, Num(d))
    ensures e + ([QUOTE] + ([COMMA] + (PrintString(key) + [COLON]))) + d == (e + [QUOTE]) + AfterComma(key, Num(d))
  {
  }

  lemma {:induction false} Opening(name: seq<byte>, d: seq<byte>)
    ensures ([OPEN] + (name + [COLON])) + d == [OPEN] + (name + ([COLON] + d))
  {
  }

  lemma {:induction false} EncodeIsPrint(h: Header)
    ensures EncodeFast(h) == Print(DocOf(h))
  {
    Pieces();
    PrintDoc(h);
    var e0 := Ascii("{\"RequestID\":") + Decimal(h.requestID);
    var e1 := e0 + Ascii(",\"ServiceName\":\"") + h.service;
    var e2 := e1 + Ascii("\",\"MethodName\":\"") + h.method_;
    var e3 := e2 + Ascii("\",\"Error\":\"") + h.error;
    var e4 := e3 + Ascii("\",\"CodecType\":") + Decimal(h.codec);
    Opening(PrintString(REQUEST_ID), Decimal(h.requestID));
    Quoted(e0, SERVICE_NAME, h.service);
    Quoted(e1, METHOD_NAME, h.method_);
    Quoted(e2, ERROR, h.error);
    Counted(e3, CODEC_TYPE, Decimal(h.codec));
    Counted(e4, COMPRESSION, Decimal(h.compression));
  }

  /** Letters stand for themselves in a string. */
  lemma {:induction false} LettersPlain(s: string)
    requires forall i :: 0 <= i < |s| ==> 'A' <= s[i] <= 'Z' || 'a' <= s[i] <= 'z'
    ensures ValidString(Ascii(s))
  {
  }

  lemma {:induction false} NamesValid()
    ensures ValidString(REQUEST_ID) && ValidString(SERVICE_NAME) && ValidString(METHOD_NAME)
    ensures ValidString(ERROR) && ValidString(CODEC_TYPE) && ValidString(COMPRESSION)
  {
    LettersPlain("RequestID");
    LettersPlain("ServiceName");
    LettersPlain("MethodName");
    LettersPlain("Error");
    LettersPlain("CodecType");
    LettersPlain("Compression");
  }

  /** Reading the members of a header's tree from the back stores its fields one by one. */
  lemma {:induction false} TailReads(h: Header, h1: Header)
    requires Safe(h)
    ensures Readable(Tail(h, 3))
    ensures Fold(h1, Tail(h, 3)) == h1.(error := h.error, codec := h.codec, compression := h.compression)
  {
    NamesDistinct();
    NamesValid();
    DecimalValue(h.codec);
    DecimalValue(h.compression);
    var h2 := h1.(error := h.error);
    var h3 := h2.(codec := h.codec);
    FoldFront(h3, Tight(COMPRESSION, Num(Decimal(h.compression))), []);
    assert Tail(h, 1) + [] == Tail(h, 1);
    FoldFront(h2, Tight(CODEC_TYPE, Num(Decimal(h.codec))), Tail(h, 1));
    FoldFront(h1, Tight(ERROR, Str(h.error)), Tail(h, 2));
  }

  lemma {:induction false} NamesRead(h: Header, h1: Header)
    requires Safe(h)
    ensures Readable(Tail(h, 5)) && Fold(h1, Tail(h, 5))
      == h1.(service := h.service, method_ := h.method_, error := h.error,
             codec := h.codec, compression := h.compression)
  {
    NamesDistinct();
    NamesValid();
    var h2 := h1.(service := h.service);
    TailReads(h, h2.(method_ := h.method_));
    FoldFront(h2, Tight(METHOD_NAME, Str(h.method_)), Tail(h, 3));
    FoldFront(h1, Tight(SERVICE_NAME, Str(h.service)), Tail(h, 4));
  }

  /** The tree of a header with safe strings is understood, and reads as the header. */
  lemma {:induction false} DocReading(h: Header)
    requires Safe(h)
    ensures Valid(DocOf(h)) && Readable(DocOf(h).members) && Reading(DocOf(h).members) == h
  {
    NamesDistinct();
    NamesValid();
    DecimalValue(h.requestID);
    DocMembers(h);
    NamesRead(h, ZERO.(requestID := h.requestID));
    FoldFront(ZERO, Tight(REQUEST_ID, Num(Decimal(h.requestID))), Tail(h, 5));
    FoldIsReading(DocOf(h).members);
  }

  /** A header whose strings need no escaping survives the JSON encoding. */
  lemma {:induction false} RoundTrip(h: Header)
    requires Safe(h)
    ensures ParseFast(EncodeFast(h)) == Some(h)
  {
    DocReading(h);
    EncodeIsPrint(h);
    ParsePrinted(DocOf(h));
  }

  /** No strict prefix of the encoding of a header is accepted. */
  lemma {:induction false} PrefixRejected(h: Header, k: nat)
    requires Safe(h) && k < |EncodeFast(h)|
    ensures ParseFast(EncodeFast(h)[..k]) == None
  {
    var e := EncodeFast(h);
    RoundTrip(h);
    assert e[..k] + e[k..] == e;
    assert e[k..][|e| - k - 1] == CLOSE && !IsSpace(CLOSE);
    if ParseFast(e[..k]).Some? { NothingFollows(e[..k], e[k..]); }
  }

  lemma {:induction false} StringsInside(h: Header)
    ensures |EncodeFast(h)| >= |h.service| + |h.method_| + |h.error|
  {
  }

  /** The encoding of such a header fits the capacity reserved for it. */
  lemma {:induction false} ReservationSuffices(h: Header)
    ensures |EncodeFast(h)| <= 128 + |h.service| + |h.method_| + |h.error|
  {
    assert Power10(3) == 1000;
    assert Power10(6) == 1_000_000;
    DecimalLength(h.requestID, 20);
    DecimalLength(h.codec, 3);
    DecimalLength(h.compression, 3);
  }

  // ---------------------------------------------------------------- the loops of the source

  method SkipSpaceAt(data: seq<byte>, start: nat) returns (i: nat)
    requires start <= |data|
    ensures start <= i <= |data| && data[i..] == SkipSpace(data[start..])
  {
    i := start;
    while i < |data|
      invariant start <= i <= |data| && SkipSpace(data[i..]) == SkipSpace(data[start..])
    {
      if !IsSpace(data[i]) { return; }
      assert data[i..][1..] == data[i + 1..];
      i := i + 1;
    }
  }

  /** parseRawBytes */
  method ParseRawBytes(data: seq<byte>, at: nat) returns (s: text, next: nat, ok: bool)
    requires at <= |data|
    ensures ok <==> RawString(data[at..]).Some?
    ensures ok ==> next <= |data| && RawString(data[at..]) == Some((s, data[next..]))
  {
    if at >= |data| || data[at] != QUOTE { return [], at, false; }
    var i := at + 1;
    var start := i;
    assert data[at..][1..] == data[start..] && data[start..i] == [];
    if Chars(data[i..]).Some? { assert [] + Chars(data[i..]).value.0 == Chars(data[i..]).value.0; }
    while i < |data|
      invariant start <= i <= |data|
      invariant Chars(data[start..]) == Behind(data[start..i], Chars(data[i..]))
    {
      var c := data[i];
      if c == QUOTE {
        assert data[i..][1..] == data[i + 1..] && data[start..i] + [] == data[start..i];
        return data[start..i], i + 1, true;
      }
      if c == 92 || c < 0x20 || c >= 0x80 { return [], i, false; }
      assert data[i..][1..] == data[i + 1..] && data[start..i + 1] == data[start..i] + [c];
      BehindMore(data[start..i], c, Chars(data[i + 1..]));
      i := i + 1;
    }
    return [], i, false;
  }

  function Behind(p: text, r: Option<(text, seq<byte>)>): Option<(text, seq<byte>)> {
    if r.None? then None else Some((p + r.value.0, r.value.1))
  }

  lemma {:induction false} BehindMore(p: text, c: byte, r: Option<(text, seq<byte>)>)
    ensures Behind(p, Behind([c], r)) == Behind(p + [c], r)
  {
    if r.Some? { assert p + ([c] + r.value.0) == p + [c] + r.value.0; }
  }

  /** parseUint */
  method ParseUint(data: seq<byte>, start: nat) returns (v: nat, next: nat, ok: bool)
    requires start <= |data|
    ensures ok <==> Uint(data[start..]).Some?
    ensures ok ==> next <= |data| && Uint(data[start..]) == Some((v, data[next..]))
  {
    var i := start;
    while i < |data| && IsDigit(data[i])
      invariant start <= i <= |data|
      invariant DigitCount(data[start..]) == i - start + DigitCount(data[i..])
    {
      assert data[i..][1..] == data[i + 1..];
      i := i + 1;
    }
    var k := i - start;
    assert DigitCount(data[start..]) == k && data[start..][..k] == data[start..i] && data[start..][k..] == data[i..];
    if i == start { return 0, i, false; }
    if k > 1 && data[start] == 48 { return 0, i, false; }
    if i < |data| && (data[i] == 46 || data[i] == 101 || data[i] == 69) { return 0, i, false; }
    v := ValueOf(data[start..i]);
    return v, i, v < UINT64_LIMIT;
  }

  /** The switch over the member name. */
  method AssignAt(data: seq<byte>, at: nat, key: text, h: Header) returns (h': Header, next: nat, ok: bool)
    requires at <= |data|
    ensures ok <==> Assign(h, key, data[at..]).Some?
    ensures ok ==> next <= |data| && Assign(h, key, data[at..]) == Some((h', data[next..]))
  {
    h' := h;
    if key == SERVICE_NAME || key == METHOD_NAME || key == ERROR {
      var b;
      b, next, ok := ParseRawBytes(data, at);
      if !ok { return; }
      if key == SERVICE_NAME { h' := h.(service := b); }
      else if key == METHOD_NAME { h' := h.(method_ := b); }
      else { h' := h.(error := b); }
    } else if key == REQUEST_ID || key == CODEC_TYPE || key == COMPRESSION {
      var v;
      v, next, ok := ParseUint(data, at);
      if !ok { return; }
      if key == REQUEST_ID { h' := h.(requestID := v); return; }
      if v > 255 { ok := false; return; }
      if key == CODEC_TYPE { h' := h.(codec := v); } else { h' := h.(compression := v); }
    } else {
      next, ok := at, false;
    }
  }

  /** One round of the member loop, up to the comma or the closing brace. */
  method MemberAt(data: seq<byte>, at: nat, h: Header) returns (h': Header, i: nat, ok: bool)
    requires at <= |data|
    ensures ok <==> OneMember(data[at..], h).Some?
    ensures ok ==> i <= |data| && OneMember(data[at..], h) == Some((h', data[i..]))
  {
    h' := h;
    i := SkipSpaceAt(data, at);
    var key, next;
    key, next, ok := ParseRawBytes(data, i);
    if !ok { return; }
    i := SkipSpaceAt(data, next);
    if i >= |data| || data[i] != COLON { ok := false; return; }
    assert data[i..][1..] == data[i + 1..];
    i := SkipSpaceAt(data, i + 1);
    h', i, ok := AssignAt(data, i, key, h);
    if !ok { return; }
    i := SkipSpaceAt(data, i);
  }

  /** parseHeaderFast */
  method ParseHeaderFast(data: seq<byte>) returns (h: Header, ok: bool)
    ensures ok <==> ParseFast(data).Some?
    ensures ok ==> ParseFast(data) == Some(h)
  {
    h := ZERO;
    var i := SkipSpaceAt(data, 0);
    assert data[0..] == data;
    if i >= |data| || data[i] != OPEN { return h, false; }
    assert data[i..][1..] == data[i + 1..];
    i := SkipSpaceAt(data, i + 1);
    if i < |data| && data[i] == CLOSE {
      assert data[i..][1..] == data[i + 1..];
      var end := SkipSpaceAt(data, i + 1);
      return h, end == |data|;
    }
    h, ok := MembersAt(data, i);
  }

  /** The member loop: the cursor moves past each member until the closing brace. */
  method MembersAt(data: seq<byte>, at: nat) returns (h: Header, ok: bool)
    requires at <= |data|
    ensures ok <==> ParseMembers(data[at..], ZERO).Some?
    ensures ok ==> ParseMembers(data[at..], ZERO) == Some(h)
  {
    h := ZERO;
    var i := at;
    while true
      invariant i <= |data| && ParseMembers(data[at..], ZERO) == ParseMembers(data[i..], h)
      decreases |data| - i
    {
      ghost var before := i;
      h, i, ok := MemberAt(data, i, h);
      if !ok || i >= |data| { return h, false; }
      assert |data[i..]| < |data[before..]| && data[i..][1..] == data[i + 1..];
      if data[i] == COMMA {
        i := i + 1;
      } else if data[i] == CLOSE {
        var end := SkipSpaceAt(data, i + 1);
        return h, end == |data|;
      } else {
        return h, false;
      }
    }
  }

  method StringNeedsEscape(s: text) returns (r: bool)
    ensures r <==> NeedsEscape(s)
  {
    for i := 0 to |s|
      invariant forall j :: 0 <= j < i ==> SafeByte(s[j])
    {
      if !SafeByte(s[i]) { return true; }
    }
    return false;
  }

  /** appendHeaderJSON; `marshal` is the standard library's encoding, taken as given. */
  method Append(dst: seq<byte>, h: Header, marshal: Header -> seq<byte>) returns (r: seq<byte>)
    ensures r == dst + Encode(h, marshal)
  {
    var e1 := StringNeedsEscape(h.service);
    var e2 := StringNeedsEscape(h.method_);
    var e3 := StringNeedsEscape(h.error);
    if e1 || e2 || e3 { return dst + marshal(h); }
    r := dst + Ascii("{\"RequestID\":");
    r := r + Decimal(h.requestID);
    r := r + Ascii(",\"ServiceName\":\"");
    r := r + h.service;
    r := r + Ascii("\",\"MethodName\":\"");
    r := r + h.method_;
    r := r + Ascii("\",\"Error\":\"");
    r := r + h.error;
    r := r + Ascii("\",\"CodecType\":");
    r := r + Decimal(h.codec);
    r := r + Ascii(",\"Compression\":");
    r := r + Decimal(h.compression);
    r := r + Ascii("}");
    assert r == dst + EncodeFast(h);
  }

  function Encode(h: Header, marshal: Header -> seq<byte>): seq<byte> {
    if Safe(h) then EncodeFast(h) else marshal(h)
  }
}
