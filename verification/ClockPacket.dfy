/** The 26-byte packet: its byte layout, and the offset and round trip time it stands for. */
module Wire {
  import opened Time

  const INT64_MIN := -0x8000_0000_0000_0000
  const INT64_MAX := 0x7FFF_FFFF_FFFF_FFFF
  const TWO_TO_64 := 0x1_0000_0000_0000_0000

  /** The bytes in a word. */
  const WIDTH: nat := 8

  type Byte = b: int | 0 <= b < 256
  type Int64 = x: int | INT64_MIN <= x <= INT64_MAX
  type Word = u: int | 0 <= u < TWO_TO_64

  /** A reading that fits a timestamp field; the largest int64 stands for Invalid. */
  type Stamp = r: Reading | r.Us? ==> INT64_MIN <= r.us < INT64_MAX witness Invalid

  // ----- 64-bit words and bytes -----

  datatype Host = LittleEndianHost | BigEndianHost

  function Pow256(n: nat): nat {
    if n == 0 then 1 else 256 * Pow256(n - 1)
  }

  /** The n low bytes of u, least significant first. */
  function Little(u: nat, n: nat): seq<Byte> {
    if n == 0 then [] else [u % 256] + Little(u / 256, n - 1)
  }

  function FromLittle(s: seq<Byte>): nat {
    if s == [] then 0 else s[0] + 256 * FromLittle(s[1..])
  }

  /** Positional value, most significant byte first. */
  function FromBig(s: seq<Byte>): nat {
    if s == [] then 0 else 256 * FromBig(s[..|s| - 1]) + s[|s| - 1]
  }

  function Reverse(s: seq<Byte>): seq<Byte> {
    if s == [] then [] else Reverse(s[1..]) + [s[0]]
  }

  lemma {:induction false} LittleRoundTrip(u: nat, n: nat)
    requires u < Pow256(n)
    ensures |Little(u, n)| == n
    ensures FromLittle(Little(u, n)) == u
  {
    if n > 0 {
      LittleRoundTrip(u / 256, n - 1);
      assert Little(u, n)[1..] == Little(u / 256, n - 1);
    }
  }

  lemma {:induction false} FromLittleRoundTrip(s: seq<Byte>)
    ensures FromLittle(s) < Pow256(|s|)
    ensures Little(FromLittle(s), |s|) == s
  {
    if s != [] {
      FromLittleRoundTrip(s[1..]);
      assert FromLittle(s) / 256 == FromLittle(s[1..]);
      assert s == [s[0]] + s[1..];
    }
  }

  lemma {:induction false} ReverseTwice(s: seq<Byte>)
    ensures |Reverse(s)| == |s|
    ensures Reverse(Reverse(s)) == s
  {
    if s != [] {
      ReverseTwice(s[1..]);
      ReverseAppend(Reverse(s[1..]), s[0]);
      assert s == [s[0]] + s[1..];
    }
  }

  lemma {:induction false} ReverseAppend(s: seq<Byte>, b: Byte)
    ensures Reverse(s + [b]) == [b] + Reverse(s)
  {
    if s == [] {
      assert s + [b] == [b] && [b][1..] == [];
    } else {
      assert (s + [b])[1..] == s[1..] + [b];
      ReverseAppend(s[1..], b);
    }
  }

  lemma {:induction false} FromBigIsReversed(s: seq<Byte>)
    ensures FromBig(Reverse(s)) == FromLittle(s)
  {
    if s != [] {
      FromBigIsReversed(s[1..]);
      assert Reverse(s)[..|Reverse(s)| - 1] == Reverse(s[1..]);
    }
  }

  lemma EightBytes()
    ensures Pow256(WIDTH) == TWO_TO_64
  {
    assert Pow256(4) == 0x1_0000_0000;
    assert Pow256(8) == 256 * (256 * (256 * (256 * Pow256(4))));
  }

  /** Reinterpretation of an int64 as a 64-bit word and back. */
  function Unsigned(x: Int64): Word {
    if x >= 0 then x else x + TWO_TO_64
  }

  function Signed(u: Word): Int64 {
    if u <= INT64_MAX then u else u - TWO_TO_64
  }

  /** How a host lays a 64-bit word out in memory. */
  function Memory(host: Host, u: Word): (s: seq<Byte>)
    ensures |s| == WIDTH
  {
    EightBytes();
    LittleRoundTrip(u, WIDTH);
    ReverseTwice(Little(u, WIDTH));
    if host.LittleEndianHost? then Little(u, WIDTH) else Reverse(Little(u, WIDTH))
  }

  function Load(host: Host, s: seq<Byte>): Word
    requires |s| == WIDTH
  {
    EightBytes();
    FromLittleRoundTrip(s);
    ReverseTwice(s);
    FromLittleRoundTrip(Reverse(s));
    if host.LittleEndianHost? then FromLittle(s) else FromLittle(Reverse(s))
  }

  /** The byte-swapping built-in. */
  function Swap(u: Word): Word {
    Load(BigEndianHost, Memory(LittleEndianHost, u))
  }

  function Reorder(host: Host, u: Word): Word {
    if host.BigEndianHost? then u else Swap(u)
  }

  function ToInt64(t: Stamp): Int64 {
    if t.Invalid? then INT64_MAX else t.us
  }

  function FromInt64(x: Int64): Stamp {
    if x == INT64_MAX then Invalid else Us(x)
  }

  function BytesOf(host: Host, t: Stamp): (s: seq<Byte>)
    ensures |s| == WIDTH
  {
    Memory(host, Reorder(host, Unsigned(ToInt64(t))))
  }

  function StampOf(host: Host, s: seq<Byte>): Stamp
    requires |s| == WIDTH
  {
    FromInt64(Signed(Reorder(host, Load(host, s))))
  }

  lemma LoadMemory(host: Host, u: Word)
    ensures Load(host, Memory(host, u)) == u
  {
    EightBytes();
    LittleRoundTrip(u, WIDTH);
    ReverseTwice(Little(u, WIDTH));
  }

  lemma MemoryLoad(host: Host, s: seq<Byte>)
    requires |s| == WIDTH
    ensures Memory(host, Load(host, s)) == s
  {
    EightBytes();
    ReverseTwice(s);
    FromLittleRoundTrip(s);
    FromLittleRoundTrip(Reverse(s));
  }

  /** Whatever the host's byte order, a timestamp goes out most significant byte first, in two's
      complement. */
  lemma NetworkOrder(host: Host, t: Stamp)
    ensures BytesOf(host, t) == Memory(BigEndianHost, Unsigned(ToInt64(t)))
    ensures FromBig(BytesOf(host, t)) == Unsigned(ToInt64(t))
  {
    var u := Unsigned(ToInt64(t));
    EightBytes();
    LittleRoundTrip(u, WIDTH);
    ReverseTwice(Little(u, WIDTH));
    FromBigIsReversed(Little(u, WIDTH));
    if host.LittleEndianHost? {
      FromLittleRoundTrip(Reverse(Little(u, WIDTH)));
    }
  }

  /** The host's byte order does not matter on input either. */
  lemma HostIndependentInput(host: Host, s: seq<Byte>)
    requires |s| == WIDTH
    ensures StampOf(host, s) == StampOf(BigEndianHost, s)
  {
    EightBytes();
    ReverseTwice(s);
    FromLittleRoundTrip(s);
    FromLittleRoundTrip(Reverse(s));
  }

  /** The two conversions are mutually inverse on all timestamps and all 8-byte strings, even
      between hosts of different byte order. */
  lemma StampRoundTrip(sender: Host, receiver: Host, t: Stamp)
    ensures StampOf(receiver, BytesOf(sender, t)) == t
  {
    hide *;
    var s := BytesOf(sender, t);
    NetworkOrder(sender, t);
    HostIndependentInput(receiver, s);
    LoadMemory(BigEndianHost, Unsigned(ToInt64(t)));
    StampBits(s);
    SameBits(t, StampOf(BigEndianHost, s));
  }

  lemma BytesRoundTrip(sender: Host, receiver: Host, s: seq<Byte>)
    requires |s| == WIDTH
    ensures BytesOf(sender, StampOf(receiver, s)) == s
  {
    hide *;
    var t := StampOf(receiver, s);
    HostIndependentInput(receiver, s);
    NetworkOrder(sender, t);
    MemoryLoad(BigEndianHost, s);
    StampBits(s);
  }

  lemma StampBits(s: seq<Byte>)
    requires |s| == WIDTH
    ensures Unsigned(ToInt64(StampOf(BigEndianHost, s))) == Load(BigEndianHost, s)
  {
    hide Load, Memory, Swap, Little, FromLittle, Reverse, Pow256;
  }

  lemma SameBits(t: Stamp, u: Stamp)
    requires Unsigned(ToInt64(t)) == Unsigned(ToInt64(u))
    ensures t == u
  {
  }

  // ----- the packet -----

  const LENGTH := 26

  const INVALID: Byte := 0
  const REQUEST: Byte := 1
  const REPLY: Byte := 2
  const ACKNOWLEDGE: Byte := 3
  const KILL: Byte := 4

  /** Packets are passed by value, so the setters are updates of a value.  The type is whatever
      byte arrived. */
  datatype Packet = Packet(kind: Byte, seqnum: Byte, request: Stamp, reply: Stamp, receive: Stamp)

  /** The packet that stands for "no packet". */
  const NO_PACKET := Packet(INVALID, 0, Invalid, Invalid, Invalid)

  function Encode(host: Host, p: Packet): (s: seq<Byte>)
    ensures |s| == LENGTH
  {
    [p.kind, p.seqnum] + BytesOf(host, p.request) + BytesOf(host, p.reply) + BytesOf(host, p.receive)
  }

  function Parse(host: Host, s: seq<Byte>): Packet
    requires |s| == LENGTH
  {
    Packet(s[0], s[1], StampOf(host, s[2..10]), StampOf(host, s[10..18]), StampOf(host, s[18..26]))
  }

  /** Writing and parsing are mutually inverse on all packets and all 26-byte buffers, even between
      hosts of different byte order. */
  lemma PacketRoundTrip(sender: Host, receiver: Host, p: Packet)
    ensures Parse(receiver, Encode(sender, p)) == p
  {
    StampRoundTrip(sender, receiver, p.request);
    StampRoundTrip(sender, receiver, p.reply);
    StampRoundTrip(sender, receiver, p.receive);
    Slices([p.kind, p.seqnum], BytesOf(sender, p.request), BytesOf(sender, p.reply), BytesOf(sender, p.receive));
  }

  lemma Slices(head: seq<Byte>, a: seq<Byte>, b: seq<Byte>, c: seq<Byte>)
    requires |head| == 2 && |a| == |b| == |c| == WIDTH
    ensures var s := head + a + b + c;
            s[0] == head[0] && s[1] == head[1] && s[2..10] == a && s[10..18] == b && s[18..26] == c
  {
  }

  /** A timestamp as it stands in a packet: eight bytes, most significant first, in two's complement, the
      largest one for an invalid time. */
  predicate Shows(s: seq<Byte>, t: Stamp) {
    |s| == 8 && FromBig(s) ==
      if t.Invalid? then 0x7FFF_FFFF_FFFF_FFFF
      else if t.us >= 0 then t.us
      else t.us + 0x1_0000_0000_0000_0000
  }

  /** Where everything stands: the type in byte 0, the sequence number in byte 1, and from bytes 2, 10 and 18
      on the times of the request, the server's reply and its receipt. */
  lemma PacketLayout(host: Host, p: Packet)
    ensures var s := Encode(host, p);
            && |s| == 26 && s[0] == p.kind && s[1] == p.seqnum
            && Shows(s[2..10], p.request) && Shows(s[10..18], p.reply) && Shows(s[18..26], p.receive)
  {
    Slices([p.kind, p.seqnum], BytesOf(host, p.request), BytesOf(host, p.reply), BytesOf(host, p.receive));
    BytesShow(host, p.request);
    BytesShow(host, p.reply);
    BytesShow(host, p.receive);
  }

  lemma BytesShow(host: Host, t: Stamp)
    ensures Shows(BytesOf(host, t), t)
  {
    hide BytesOf, FromBig;
    NetworkOrder(host, t);
  }

  lemma BufferRoundTrip(sender: Host, receiver: Host, s: seq<Byte>)
    requires |s| == LENGTH
    ensures Encode(sender, Parse(receiver, s)) == s
  {
    BytesRoundTrip(sender, receiver, s[2..10]);
    BytesRoundTrip(sender, receiver, s[10..18]);
    BytesRoundTrip(sender, receiver, s[18..26]);
    assert s == [s[0], s[1]] + s[2..10] + s[10..18] + s[18..26];
  }

  /** Copies a timestamp's bytes into the buffer. */
  method PutBytes(bytes: seq<Byte>, buffer: array<Byte>, at: nat)
    requires at + |bytes| <= buffer.Length
    modifies buffer
    ensures buffer[..] == old(buffer[..at]) + bytes + old(buffer[at + |bytes|..])
  {
    for i := 0 to |bytes|
      invariant forall j :: 0 <= j < buffer.Length ==>
        buffer[j] == if at <= j < at + i then bytes[j - at] else old(buffer[j])
    {
      buffer[at + i] := bytes[i];
    }
  }

  method PutFields(head: seq<Byte>, a: seq<Byte>, b: seq<Byte>, c: seq<Byte>, buffer: array<Byte>)
    requires |head| == 2 && |a| == |b| == |c| == WIDTH && buffer.Length == LENGTH
    modifies buffer
    ensures buffer[..] == head + a + b + c
  {
    buffer[0], buffer[1] := head[0], head[1];
    PutBytes(a, buffer, 2);
    assert buffer[..10] == head + a;
    PutBytes(b, buffer, 10);
    assert buffer[..18] == head + a + b;
    PutBytes(c, buffer, 18);
  }

  method Write(host: Host, p: Packet, buffer: array<Byte>)
    requires buffer.Length == LENGTH
    modifies buffer
    ensures buffer[..] == Encode(host, p)
  {
    PutFields([p.kind, p.seqnum], BytesOf(host, p.request), BytesOf(host, p.reply), BytesOf(host, p.receive), buffer);
  }

  // ----- what a packet says about the two clocks -----

  function RoundTrip(p: Packet): Reading {
    Diff(p.receive, p.request)
  }

  function ErrorBound(p: Packet): Reading {
    var t := RoundTrip(p);
    if t.Invalid? then Invalid else Us(TruncDiv(t.us, 2))
  }

  function ClockOffset(p: Packet): Reading {
    var bound := ErrorBound(p);
    if p.reply.Invalid? || p.receive.Invalid? || bound.Invalid? then Invalid
    else Us(p.reply.us - p.receive.us + bound.us)
  }

  /** The round trip and the offset are known exactly if the stamps that they need are valid. */
  lemma KnownExactly(p: Packet)
    ensures RoundTrip(p) == if p.request.Us? && p.receive.Us? then Us(p.receive.us - p.request.us) else Invalid
    ensures ClockOffset(p).Us? <==> p.request.Us? && p.reply.Us? && p.receive.Us?
  {
  }

  /** Half a duration, rounded up and down. */
  function CeilHalf(t: int): int { t - t / 2 }

  /** The estimate is within the error interval of the offset the clocks really had when the
      server read its clock, at which moment the client's clock read `during`. */
  ghost predicate WithinBound(p: Packet, during: int)
    requires ClockOffset(p).Us?
  {
    var truth := p.reply.us - during;
    -CeilHalf(RoundTrip(p).us) <= ClockOffset(p).us - truth <= RoundTrip(p).us / 2
  }

  /** A packet keeps its error interval exactly when the client's clock, at the server's reading, read
      between the request and the receive stamps.  Both ends of the interval are reached, unless the
      round trip is negative: then the interval is empty. */
  lemma OffsetBoundExactly(p: Packet, during: int)
    requires ClockOffset(p).Us?
    ensures WithinBound(p, during) <==> p.request.us <= during <= p.receive.us
    ensures RoundTrip(p).us >= 0 ==>
      && ClockOffset(p).us - (p.reply.us - p.request.us) == -CeilHalf(RoundTrip(p).us)
      && ClockOffset(p).us - (p.reply.us - p.receive.us) == RoundTrip(p).us / 2
    ensures RoundTrip(p).us < 0 ==> !WithinBound(p, during)
  {
  }
}
