/** Cutting a byte stream into packets: the abstract framing, and the packet buffer that does it
    in place on an array with a read offset. */
module Framing {
  import opened Basics
  import opened Messages

  /** Length of the complete packet at the head of d, if there is one. */
  function FrameLen(d: seq<byte>): (r: Option<nat>)
    ensures r.Some? ==> FIXED <= r.value <= |d|
  {
    if |d| < FIXED then None
    else
      var total := FIXED + Get32(d[2..6]) + Get32(d[6..10]);
      if |d| < total then None else Some(total)
  }

  /** The complete packets of a stream. */
  function Packets(d: seq<byte>): (r: seq<seq<byte>>) {
    var n := FrameLen(d);
    if n.None? then [] else [d[..n.value]] + Packets(d[n.value..])
  }

  /** What is left behind the complete packets. */
  function Rest(d: seq<byte>): (r: seq<byte>) {
    var n := FrameLen(d);
    if n.None? then d else Rest(d[n.value..])
  }

  lemma {:induction false} FrameLenAppend(a: seq<byte>, b: seq<byte>)
    requires FrameLen(a).Some?
    ensures FrameLen(a + b) == FrameLen(a)
  {
    assert (a + b)[2..6] == a[2..6] && (a + b)[6..10] == a[6..10];
  }

  /** Packets come out the same however the stream is cut. */
  lemma {:induction false} PacketsAppend(a: seq<byte>, b: seq<byte>)
    ensures Packets(a + b) == Packets(a) + Packets(Rest(a) + b) && Rest(a + b) == Rest(Rest(a) + b)
    decreases |a|
  {
    var n := FrameLen(a);
    if n.Some? {
      FrameLenAppend(a, b);
      assert (a + b)[..n.value] == a[..n.value] && (a + b)[n.value..] == a[n.value..] + b;
      PacketsAppend(a[n.value..], b);
    } else {
      assert Packets(a) + Packets(Rest(a) + b) == Packets(a + b);
    }
  }

  lemma {:induction false} RestHasNoPacket(d: seq<byte>)
    ensures FrameLen(Rest(d)) == None && d == Flatten(Packets(d)) + Rest(d)
    decreases |d|
  {
    var n := FrameLen(d);
    if n.Some? {
      RestHasNoPacket(d[n.value..]);
      HeadInFront(d[..n.value], Packets(d[n.value..]), Rest(d[n.value..]));
      assert d == d[..n.value] + d[n.value..];
    }
  }

  lemma {:induction false} HeadInFront(p: seq<byte>, packets: seq<seq<byte>>, rest: seq<byte>)
    ensures Flatten([p] + packets) + rest == p + (Flatten(packets) + rest)
  {
    assert ([p] + packets)[1..] == packets;
  }

  lemma {:induction false} FrameComplete(magic: nat, header: seq<byte>, body: seq<byte>)
    requires magic == MAGIC_JSON || magic == MAGIC_BINARY
    requires |header| < UINT32_LIMIT && |body| < UINT32_LIMIT
    ensures FrameLen(Frame(magic, header, body)) == Some(|Frame(magic, header, body)|)
  {
    NumbersKept(magic, header, body);
  }

  /** A socket read of at most c bytes onto an incomplete packet completes at most
      1 + (c - 1) / 10 packets: the first takes at least one new byte, the others ten. */
  lemma {:induction false} PacketCount(d: seq<byte>)
    ensures FIXED * |Packets(d)| <= |d| - |Rest(d)|
    decreases |d|
  {
    var n := FrameLen(d);
    if n.Some? { PacketCount(d[n.value..]); }
  }

  lemma {:induction false} PacketsPerRead(rest: seq<byte>, chunk: seq<byte>)
    requires FrameLen(rest) == None && |chunk| > 0
    ensures |Packets(rest + chunk)| <= 1 + (|chunk| - 1) / FIXED
  {
    var d := rest + chunk;
    if |rest| >= FIXED {
      assert d[2..6] == rest[2..6] && d[6..10] == rest[6..10];
    }
    if FrameLen(d).Some? {
      PacketCount(d[FrameLen(d).value..]);
    }
  }

  lemma {:induction false} AppendedPackets(written: seq<byte>, queue: seq<byte>, taken: seq<seq<byte>>, data: seq<byte>)
    requires Packets(written) == taken + Packets(queue) && Rest(written) == Rest(queue)
    ensures Packets(written + data) == taken + Packets(queue + data) && Rest(written + data) == Rest(queue + data)
  {
    PacketsAppend(written, data);
    PacketsAppend(queue, data);
    Associate(taken, Packets(queue), Packets(Rest(queue) + data));
  }

  lemma {:induction false} Associate<T>(a: seq<T>, b: seq<T>, c: seq<T>)
    ensures (a + b) + c == a + (b + c)
  {
  }

  lemma {:induction false} PacketAtHead(written: seq<byte>, queue: seq<byte>, n: nat, taken: seq<seq<byte>>)
    requires Packets(written) == taken + Packets(queue) && Rest(written) == Rest(queue) && FrameLen(queue) == Some(n)
    ensures Packets(written) == (taken + [queue[..n]]) + Packets(queue[n..]) && Rest(written) == Rest(queue[n..])
    ensures queue == queue[..n] + queue[n..]
  {
  }

  /** A slice of an array, as Go hands it out: no copy. */
  datatype Borrowed = Borrowed(arr: array<byte>, lo: nat, hi: nat)

  class PacketBuffer {
    var buf: array<byte>
    var len: nat
    var off: nat
    ghost var written: seq<byte>          // everything ever written
    ghost var taken: seq<seq<byte>>       // every packet handed out

    /** Array and offset represent a byte queue, and the packets handed out so far followed by
        those of the queue are the packets of everything written. */
    ghost predicate Valid()
      reads this, buf
    {
      && off <= len <= buf.Length
      && Packets(written) == taken + Packets(Contents())
      && Rest(written) == Rest(Contents())
    }

    function Contents(): seq<byte>
      requires off <= len <= buf.Length
      reads this, buf
    {
      buf[off..len]
    }

    constructor (capacity: nat)
      ensures Valid() && fresh(buf) && Contents() == [] && written == [] && taken == []
    {
      buf := new byte[capacity](_ => 0);
      len, off := 0, 0;
      written, taken := [], [];
    }

    /** Takes the packet at the head, if it is complete, without copying.  The bytes of the array
        are left alone, so slices borrowed before keep their contents. */
    method ReadBorrowed() returns (packet: Option<Borrowed>)
      requires Valid()
      modifies this`len, this`off, this`taken
      ensures Valid() && buf == old(buf) && written == old(written)
      ensures packet.Some? <==> FrameLen(old(Contents())).Some?
      ensures packet.None? ==> Contents() == old(Contents()) && taken == old(taken)
      ensures packet.Some? ==>
        && packet.value.arr == buf && packet.value.lo <= packet.value.hi <= buf.Length
        && var p := buf[packet.value.lo..packet.value.hi];
        && old(Contents()) == p + Contents() && FrameLen(old(Contents())) == Some(|p|)
        && taken == old(taken) + [p]
    {
      var data := buf[off..len];
      if |data| < FIXED { return None; }
      var totalLen := FIXED + Get32(data[2..6]) + Get32(data[6..10]);
      if |data| < totalLen { return None; }
      assert data[..totalLen] == buf[off..off + totalLen];
      PacketAtHead(written, data, totalLen, taken);
      packet := Some(Borrowed(buf, off, off + totalLen));
      taken := taken + [data[..totalLen]];
      Skip(totalLen);
    }

    /** Moves the offset; an empty buffer starts again at the front. */
    method Skip(n: nat)
      requires off + n <= len <= buf.Length
      modifies this`len, this`off
      ensures off <= len <= buf.Length && Contents() == old(Contents())[n..]
    {
      assert buf[off..len][n..] == buf[off + n..len];
      off := off + n;
      if off == len { len, off := 0, 0; }
    }

    method HasPacket() returns (r: bool)
      requires Valid()
      ensures r <==> FrameLen(Contents()).Some?
    {
      var data := buf[off..len];
      if |data| < FIXED { return false; }
      r := |data| >= FIXED + Get32(data[2..6]) + Get32(data[6..10]);
    }

    /** Appends: first squeezes out the consumed prefix if the data would not fit, then grows. */
    method Write(data: seq<byte>)
      requires Valid()
      modifies this, buf
      ensures Valid() && (buf == old(buf) || fresh(buf))
      ensures Contents() == old(Contents()) + data
      ensures written == old(written) + data && taken == old(taken)
    {
      ghost var queue := Contents();
      Put(data);
      AppendedPackets(written, queue, taken, data);
      written := written + data;
    }

    method Put(data: seq<byte>)
      requires off <= len <= buf.Length
      modifies this`buf, this`len, this`off, buf
      ensures off <= len <= buf.Length && (buf == old(buf) || fresh(buf))
      ensures Contents() == old(Contents()) + data
    {
      if off > 0 && len + |data| > buf.Length {
        Compact();
      }
      if len + |data| > buf.Length {
        Grow(len + |data|);
      }
      assert Contents() == old(Contents());
      forall i | 0 <= i < |data| { buf[len + i] := data[i]; }
      len := len + |data|;
    }

    /** copy(buf, buf[off:]) */
    method Compact()
      requires off <= len <= buf.Length
      modifies this`len, this`off, buf
      ensures off == 0 && len == |old(Contents())| && len <= buf.Length && Contents() == old(Contents())
    {
      var n := len - off;
      var i := 0;
      while i < n
        invariant 0 <= i <= n && off == old(off) && len == old(len) && buf == old(buf)
        invariant forall j :: 0 <= j < i ==> buf[j] == old(buf[off + j])
        invariant forall j :: off + i <= j < len ==> buf[j] == old(buf[j])
      {
        buf[i] := buf[off + i];
        i := i + 1;
      }
      off, len := 0, n;
    }

    /** append beyond the capacity moves to a larger array; how much larger is Go's business. */
    method Grow(need: nat)
      requires off <= len <= buf.Length && len <= need
      modifies this`buf
      ensures fresh(buf) && buf.Length >= need && off <= len <= buf.Length && Contents() == old(Contents())
    {
      var extra: int := *;
      var capacity := if extra > 0 then need + extra else need;
      var grown := new byte[capacity](_ => 0);
      forall i | 0 <= i < len { grown[i] := buf[i]; }
      buf := grown;
    }
  }
}
