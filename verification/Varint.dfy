/** Base-128 varints as the wire uses them: seven bits a byte, low bits first, at most ten
    bytes, values below 2^64. */
module Varint {
  import opened Basics

  const MAX_VARINT_LEN := 10

  function Encode(x: nat): (r: seq<byte>)
    ensures |r| > 0
  {
    if x < 128 then [x] else [128 + x % 128] + Encode(x / 128)
  }

  /** The value at the head of buf and the bytes it takes; None when buf ends inside it or it
      does not fit in 64 bits.  i counts the bytes already read. */
  function Decode(buf: seq<byte>, i: nat): (r: Option<(nat, nat)>)
    ensures r.Some? ==> 0 < r.value.1 <= |buf|
  {
    if buf == [] || i >= MAX_VARINT_LEN then None
    else if buf[0] < 128 then
      if i == MAX_VARINT_LEN - 1 && buf[0] > 1 then None else Some((buf[0], 1))
    else
      var tail := Decode(buf[1..], i + 1);
      if tail.None? then None else Some((buf[0] - 128 + 128 * tail.value.0, tail.value.1 + 1))
  }

  /** What still fits when i bytes are already read. */
  function Room(i: nat): (r: nat)
    ensures r >= 1
    decreases MAX_VARINT_LEN - i
  {
    if i >= MAX_VARINT_LEN then 1 else if i == MAX_VARINT_LEN - 1 then 2 else 128 * Room(i + 1)
  }

  lemma {:induction false} RoomAtStart()
    ensures Room(0) == UINT64_LIMIT
  {
    assert Room(8) == 0x100;
    assert Room(7) == 0x8000;
    assert Room(6) == 0x40_0000;
    assert Room(5) == 0x2000_0000;
    assert Room(4) == 0x10_0000_0000;
    assert Room(3) == 0x800_0000_0000;
    assert Room(2) == 0x4_0000_0000_0000;
    assert Room(1) == 0x200_0000_0000_0000;
  }

  lemma {:induction false} RoundTrip(x: nat, rest: seq<byte>, i: nat)
    requires i < MAX_VARINT_LEN && x < Room(i)
    ensures Decode(Encode(x) + rest, i) == Some((x, |Encode(x)|))
    decreases x
  {
    var buf := Encode(x) + rest;
    if x >= 128 {
      assert buf[1..] == Encode(x / 128) + rest;
      RoundTrip(x / 128, rest, i + 1);
    }
  }

  lemma {:induction false} StrictPrefix(x: nat, k: nat, i: nat)
    requires k < |Encode(x)|
    ensures Decode(Encode(x)[..k], i) == None
    decreases x
  {
    if k > 0 {
      assert x >= 128;
      assert Encode(x)[..k][1..] == Encode(x / 128)[..k - 1];
      StrictPrefix(x / 128, k - 1, i + 1);
    }
  }

  /** A decoded value fits, and no encoding of it is shorter than the canonical one. */
  lemma {:induction false} Canonical(buf: seq<byte>, i: nat)
    requires Decode(buf, i).Some?
    ensures i < MAX_VARINT_LEN && Decode(buf, i).value.0 < Room(i)
    ensures |Encode(Decode(buf, i).value.0)| <= Decode(buf, i).value.1
    decreases |buf|
  {
    if buf[0] >= 128 {
      Canonical(buf[1..], i + 1);
      assert Room(i) == 128 * Room(i + 1);
      EncodeLow(buf[0] - 128, Decode(buf[1..], i + 1).value.0);
    }
  }

  lemma {:induction false} EncodeLow(low: nat, v: nat)
    requires low < 128
    ensures |Encode(low + 128 * v)| <= 1 + |Encode(v)|
  {
    assert (low + 128 * v) / 128 == v;
    if v == 0 { assert Encode(low) == [low]; }
  }

  function Power128(n: nat): nat { if n == 0 then 1 else 128 * Power128(n - 1) }

  lemma {:induction false} Powers()
    ensures Power128(5) == 0x8_0000_0000 && Power128(10) == 0x40_0000_0000_0000_0000
  {
    assert Power128(3) == 0x20_0000;
    assert Power128(7) == 0x2_0000_0000_0000;
    assert Power128(9) == 0x8000_0000_0000_0000;
  }

  /** Five bytes hold exactly the values below 2^35, and ten hold every 64-bit value. */
  lemma {:induction false} EncodedLength(x: nat)
    ensures x < 0x8_0000_0000 <==> |Encode(x)| <= 5
    ensures x < UINT64_LIMIT ==> |Encode(x)| <= MAX_VARINT_LEN
  {
    Powers();
    LengthPower(x, 5);
    LengthPower(x, 10);
  }

  lemma {:induction false} LengthPower(x: nat, n: nat)
    requires n > 0
    ensures x < Power128(n) <==> |Encode(x)| <= n
  {
    PowerPositive(n - 1);
    if n > 1 && x >= 128 {
      LengthPower(x / 128, n - 1);
    }
  }

  lemma {:induction false} PowerPositive(n: nat)
    ensures Power128(n) >= 1
  {
    if n > 0 { PowerPositive(n - 1); }
  }

  /** Byte i holds the i-th group of seven bits, the lowest first; all but the last have the high
      bit set. */
  lemma {:induction false} Groups(x: nat, i: nat)
    requires i < |Encode(x)|
    ensures Power128(i) >= 1
    ensures Encode(x)[i] == x / Power128(i) % 128 + if i < |Encode(x)| - 1 then 128 else 0
    decreases i
  {
    PowerPositive(i);
    if i > 0 {
      Groups(x / 128, i - 1);
      DivideTwice(x, 128, Power128(i - 1));
    }
  }

  /** The value of groups of seven bits, the lowest first. */
  function Value(groups: seq<byte>): nat {
    if groups == [] then 0 else groups[0] % 128 + 128 * Value(groups[1..])
  }

  lemma {:induction false} ValueGroups(groups: seq<byte>, i: nat)
    requires i < |groups|
    ensures Power128(i) >= 1 && Value(groups) / Power128(i) % 128 == groups[i] as int % 128
    decreases i
  {
    PowerPositive(i);
    if i > 0 {
      assert Value(groups) / 128 == Value(groups[1..]);
      ValueGroups(groups[1..], i - 1);
      DivideTwice(Value(groups), 128, Power128(i - 1));
    }
  }

  /** The first n bytes are a varint, i bytes having been read: the last alone has no high bit, and
      there are at most ten in all, of which the tenth is at most one. */
  predicate Whole(buf: seq<byte>, n: nat, i: nat) {
    && 1 <= n <= |buf| && i + n <= 10 && buf[n - 1] < 128 && (forall j :: 0 <= j < n - 1 ==> buf[j] >= 128)
    && (i + n == 10 ==> buf[n - 1] <= 1)
  }

  /** Exactly those are decoded, the shortest for their value or not. */
  lemma {:induction false} Accepts(buf: seq<byte>, i: nat, n: nat)
    ensures Decode(buf, i).Some? && Decode(buf, i).value.1 == n <==> Whole(buf, n, i)
    ensures Whole(buf, n, i) ==> Decode(buf, i) == Some((Value(buf[..n]), n))
    decreases |buf|
  {
    if buf != [] && i < 10 {
      if buf[0] >= 128 && n >= 1 {
        Accepts(buf[1..], i + 1, n - 1);
        OneGroup(buf, n, i);
      } else if n == 1 {
        assert buf[..1] == [buf[0]] && Value([buf[0]][1..]) == 0;
      }
    }
  }

  lemma {:induction false} OneGroup(buf: seq<byte>, n: nat, i: nat)
    requires buf != [] && buf[0] >= 128 && n >= 1
    ensures Whole(buf, n, i) <==> Whole(buf[1..], n - 1, i + 1)
    ensures Whole(buf, n, i) ==> Value(buf[..n]) == buf[0] - 128 + 128 * Value(buf[1..][..n - 1])
  {
    if n >= 2 && n <= |buf| {
      assert buf[n - 1] == buf[1..][n - 2] && buf[..n][1..] == buf[1..][..n - 1];
      if Whole(buf[1..], n - 1, i + 1) {
        forall j | 0 <= j < n - 1 ensures buf[j] >= 128 { if j > 0 { assert buf[j] == buf[1..][j - 1]; } }
      }
    }
  }

  /** AppendUvarint: the loop of the source. */
  method Append(dst: seq<byte>, x: uint64) returns (r: seq<byte>)
    ensures r == dst + Encode(x)
  {
    r := dst;
    var rest: nat := x;
    while rest >= 128
      invariant r + Encode(rest) == dst + Encode(x)
    {
      assert Encode(rest) == [128 + rest % 128] + Encode(rest / 128);
      r := r + [128 + rest % 128];
      rest := rest / 128;
    }
    r := r + [rest];
  }

  /** Uvarint: the loop of the source, with its running value and shift. */
  method Read(buf: seq<byte>) returns (x: nat, n: int)
    ensures n > 0 <==> Decode(buf, 0).Some?
    ensures n > 0 ==> Decode(buf, 0) == Some((x, n))
  {
    x := 0;
    var i: nat, scale: nat := 0, 1;
    while i < |buf|
      invariant i <= |buf| && i <= MAX_VARINT_LEN && scale == Power128(i)
      invariant Decode(buf, 0) == Continue(x, scale, i, Decode(buf[i..], i))
    {
      var b: int := buf[i];
      if i == MAX_VARINT_LEN { return 0, -(i + 1); }
      if b < 128 {
        DecodeLast(buf, i);
        if i == MAX_VARINT_LEN - 1 && b > 1 { return 0, -(i + 1); }
        x := x + b * scale;
        return x, i + 1;
      }
      DecodeMore(buf, i);
      ContinueMore(x, scale, i, b - 128, Decode(buf[i + 1..], i + 1));
      x := x + (b - 128) * scale;
      scale := 128 * scale;
      i := i + 1;
    }
    return 0, 0;
  }

  lemma {:induction false} DecodeLast(buf: seq<byte>, i: nat)
    requires i < |buf| && i < MAX_VARINT_LEN && buf[i] < 128
    ensures Decode(buf[i..], i) == if i == MAX_VARINT_LEN - 1 && buf[i] > 1 then None else Some((buf[i], 1))
  {
  }

  lemma {:induction false} DecodeMore(buf: seq<byte>, i: nat)
    requires i < |buf| && i < MAX_VARINT_LEN && buf[i] >= 128
    ensures var tail := Decode(buf[i + 1..], i + 1);
      Decode(buf[i..], i) == if tail.None? then None else Some((buf[i] - 128 + 128 * tail.value.0, tail.value.1 + 1))
  {
    assert buf[i..][1..] == buf[i + 1..];
  }

  /** The whole value, from the part read and what the rest decodes to. */
  function Continue(x: nat, scale: nat, i: nat, tail: Option<(nat, nat)>): Option<(nat, nat)> {
    if tail.None? then None else Some((x + tail.value.0 * scale, i + tail.value.1))
  }

  lemma {:induction false} ContinueMore(x: nat, scale: nat, i: nat, low: nat, tail: Option<(nat, nat)>)
    ensures Continue(x, scale, i, if tail.None? then None else Some((low + 128 * tail.value.0, tail.value.1 + 1)))
         == Continue(x + low * scale, 128 * scale, i + 1, tail)
  {
    if tail.Some? {
      calc {
        (low + 128 * tail.value.0) * scale;
        low * scale + (128 * tail.value.0) * scale;
        low * scale + tail.value.0 * (128 * scale);
      }
    }
  }
}
