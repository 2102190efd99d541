/**
  Server packets that carry a client packet.  TransitSpec is the layout and the way back;
  Transit builds the packets in a fixed buffer.
 */
module TransitSpec {
  import opened Wrappers
  import opened Bits
  import opened Words
  import opened Packets
  import opened FrameSpec

  type Cmd = c: nat | c < 0x10000

  const SVRBASE_CMD: Byte := 0x0a
  const TRANSIT_CMD: Cmd := 0x030a
  const TRANSIT_ACK: Cmd := 0x040a
  const MSGINSERVER_SIZE: nat := 12

  datatype MsgInServer = MsgInServer(userOnlyId: Int64, serverId: Int32)

  function HeaderBytes(h: MsgInServer): (b: seq<Byte>)
    ensures |b| == MSGINSERVER_SIZE
  {
    WideBytes(h.userOnlyId) + BytesOf(Unsigned(h.serverId))
  }

  function HeaderOf(b: seq<Byte>): MsgInServer
    requires |b| == MSGINSERVER_SIZE
  {
    MsgInServer(WideOf(b[..8]), Signed(WordOf(b[8..])))
  }

  lemma HeaderInverts(h: MsgInServer)
    ensures HeaderOf(HeaderBytes(h)) == h
  {
    WideInverts(h.userOnlyId);
    var b := HeaderBytes(h);
    assert b[..8] == WideBytes(h.userOnlyId) && b[8..] == BytesOf(Unsigned(h.serverId));
    hide WideBytes, BytesOf;
  }

  function CmdBytes(cmd: Cmd): (b: seq<Byte>)
    ensures |b| == CMDTYPE_SIZE
  {
    [cmd % 0x100, cmd / 0x100]
  }

  function CmdOf(b: seq<Byte>): Cmd
    requires |b| == CMDTYPE_SIZE
  {
    var lo: int, hi: int := b[0], b[1];
    lo + 0x100 * hi
  }

  /** A message as it lies in memory: lengths, command, data, and zeros up to the size. */
  function Image(cmd: Cmd, data: seq<Byte>, size: nat): (b: seq<Byte>)
    requires |data| < TWO32 && PREFIX + |data| <= size
    ensures |b| == size
  {
    BytesOf(|data|) + BytesOf(0) + CmdBytes(cmd) + data + Zeros(size - PREFIX - |data|)
  }

  lemma ImageParts(cmd: Cmd, data: seq<Byte>, size: nat)
    requires |data| < TWO32 && PREFIX + |data| <= size
    ensures var b := Image(cmd, data, size);
      && b[..4] == BytesOf(|data|) && b[4..8] == BytesOf(0) && b[8..10] == CmdBytes(cmd)
      && b[10..10 + |data|] == data && b[10 + |data|..] == Zeros(size - 10 - |data|)
  {
    hide BytesOf, CmdBytes;
  }

  lemma Pow64()
    ensures Pow2(64) == TWO64
  {
    Pow32();
    assert Pow2(40) == 0x100_0000_0000;
    assert Pow2(48) == 0x1_0000_0000_0000;
    assert Pow2(56) == 0x100_0000_0000_0000;
  }

  lemma LongSize(d: nat)
    requires d < TWO32
    ensures PacketSize(64, d) == 17 + d - (17 + d) % 8 >= PREFIX + d
  {
    Pow64();
    PacketSizeRounds(64, d);
    hide PacketSize, Pow2;
    ModUnique(17 + d, TWO64, 0, 17 + d);
  }

  /** Both arithmetic widths agree on the size of a packet that is not huge. */
  lemma SizeFits(d: nat)
    requires d < 0x4000_0000
    ensures PacketSize(64, d) == FrameSize(d) == 17 + d - (17 + d) % 8 >= PREFIX + d
  {
    LongSize(d);
    FrameSizeSign(d);
    hide PacketSize, FrameSize;
  }

  /** A client packet around some data. */
  function Packet(cmd: Cmd, data: seq<Byte>): seq<Byte>
    requires |data| < 0x4000_0000
  {
    SizeFits(|data|);
    Image(cmd, data, PacketSize(64, |data|))
  }

  /** A server packet around a whole client packet. */
  function Wrapped(cmd: Cmd, h: MsgInServer, inner: seq<Byte>): seq<Byte>
    requires |inner| < 0x3000_0000
  {
    Packet(cmd, HeaderBytes(h) + inner)
  }

  // ---------------------------------------------------------------- place by place

  /** Four bytes of memory, low-order byte first. */
  predicate WordAt(b: seq<Byte>, at: nat, v: nat) {
    && at + 4 <= |b|
    && b[at] == v % 0x100
    && b[at + 1] == v / 0x100 % 0x100
    && b[at + 2] == v / 0x1_0000 % 0x100
    && b[at + 3] == v / 0x100_0000 % 0x100
  }

  /** Eight bytes of memory, low-order byte first. */
  predicate WideAt(b: seq<Byte>, at: nat, v: nat) {
    && at + 8 <= |b|
    && WordAt(b, at, v)
    && b[at + 4] == v / 0x1_0000_0000 % 0x100
    && b[at + 5] == v / 0x100_0000_0000 % 0x100
    && b[at + 6] == v / 0x1_0000_0000_0000 % 0x100
    && b[at + 7] == v / 0x100_0000_0000_0000 % 0x100
  }

  /** A client packet, place by place. */
  predicate PacketLaidOut(p: seq<Byte>, cmd: Cmd, data: seq<Byte>) {
    && |p| == 17 + |data| - (17 + |data|) % 8
    && WordAt(p, 0, |data|) && p[4..8] == [0, 0, 0, 0]
    && p[8] == cmd % 0x100 && p[9] == cmd / 0x100
    && p[10..10 + |data|] == data
    && forall k :: 10 + |data| <= k < |p| ==> p[k] == 0
  }

  /** A server packet: the user at 10, the server at 18 and the client packet at 22. */
  predicate ServerLaidOut(p: seq<Byte>, cmd: Cmd, userid: Int64, svrid: Int32, inner: seq<Byte>) {
    && |p| == 29 + |inner| - (29 + |inner|) % 8
    && WordAt(p, 0, 12 + |inner|) && p[4..8] == [0, 0, 0, 0]
    && p[8] == cmd % 0x100 && p[9] == cmd / 0x100
    && WideAt(p, 10, userid % 0x1_0000_0000_0000_0000)
    && WordAt(p, 18, svrid % 0x1_0000_0000)
    && p[22..22 + |inner|] == inner
    && forall k :: 22 + |inner| <= k < |p| ==> p[k] == 0
  }

  lemma MulOrder(x: nat, y: nat, a: nat)
    requires x <= y
    ensures x * a <= y * a
  {
    if x < y {
      MulOrder(x, y - 1, a);
    }
  }

  lemma DivIs(v: nat, m: nat, q: nat, r: nat)
    requires m > 0 && v == q * m + r && r < m
    ensures v / m == q
  {
    ModUnique(v, m, q, r);
  }

  lemma DivDiv(v: nat, a: nat, b: nat)
    requires a > 0 && b > 0
    ensures a * b > 0 && v / (a * b) == v / a / b
  {
    var q, r := v / a / b, v / a % b;
    assert v == (q * b + r) * a + v % a;
    assert v == q * (a * b) + (r * a + v % a);
    assert r * a + v % a < a * b by {
      assert r + 1 <= b;
      MulOrder(r + 1, b, a);
    }
    DivIs(v, a * b, q, r * a + v % a);
  }

  lemma BytesOfAt(w: Word)
    ensures WordAt(BytesOf(w), 0, w)
  {
    DivDiv(w, 0x100, 0x100);
    DivDiv(w, 0x1_0000, 0x100);
  }

  /** A low byte is not touched by what is above the word. */
  lemma LowByte(lo: nat, hi: nat, k: nat, m: nat)
    requires k > 0
    ensures (lo + k * 0x100 * m * hi) / k % 0x100 == lo / k % 0x100
  {
    var x := m * hi;
    assert k * 0x100 * m * hi == k * (0x100 * x);
    ModUnique(lo + k * (0x100 * x), k, lo / k + 0x100 * x, lo % k);
    var q := lo / k;
    assert (q + 0x100 * x) % 0x100 == q % 0x100;
  }

  lemma LowPlaces(lo: Word, hi: nat)
    ensures WordAt(BytesOf(lo), 0, lo + TWO32 * hi)
  {
    hide BytesOf;
    BytesOfAt(lo);
    LowByte(lo, hi, 1, 0x100_0000);
    LowByte(lo, hi, 0x100, 0x1_0000);
    LowByte(lo, hi, 0x1_0000, 0x100);
    LowByte(lo, hi, 0x100_0000, 1);
  }

  lemma HighPlaces(hi: Word, u: nat)
    requires u / TWO32 == hi
    ensures var b := BytesOf(hi);
      && b[0] == u / 0x1_0000_0000 % 0x100 && b[1] == u / 0x100_0000_0000 % 0x100
      && b[2] == u / 0x1_0000_0000_0000 % 0x100 && b[3] == u / 0x100_0000_0000_0000 % 0x100
  {
    hide BytesOf;
    BytesOfAt(hi);
    DivDiv(u, TWO32, 0x100);
    DivDiv(u, TWO32, 0x1_0000);
    DivDiv(u, TWO32, 0x100_0000);
  }

  lemma WordIn(b: seq<Byte>, part: seq<Byte>, at: nat, v: nat)
    requires at + |part| <= |b| && b[at..at + |part|] == part && WordAt(part, 0, v)
    ensures WordAt(b, at, v)
  {
    assert forall i :: at <= i < at + |part| ==> b[i] == part[i - at];
  }

  lemma WideBytesAt(d: Int64)
    ensures WideAt(WideBytes(d), 0, d % TWO64)
  {
    hide BytesOf, WordAt;
    var u := if d < 0 then d + TWO64 else d;
    ModUnique(u, TWO64, 0, u);
    assert d % TWO64 == u;
    var lo, hi := u % TWO32, u / TWO32;
    LowPlaces(lo, hi);
    HighPlaces(hi, u);
    WordIn(BytesOf(lo) + BytesOf(hi), BytesOf(lo), 0, u);
  }

  lemma WideIn(b: seq<Byte>, part: seq<Byte>, at: nat, v: nat)
    requires at + |part| <= |b| && b[at..at + |part|] == part && WideAt(part, 0, v)
    ensures WideAt(b, at, v)
  {
    assert forall i :: at <= i < at + |part| ==> b[i] == part[i - at];
  }

  lemma ZeroWord()
    ensures BytesOf(0) == [0, 0, 0, 0]
  {
  }

  lemma PacketPlaces(cmd: Cmd, data: seq<Byte>)
    requires |data| < 0x4000_0000
    ensures PacketLaidOut(Packet(cmd, data), cmd, data)
  {
    hide BytesOf, PacketSize, FrameSize, Image, WordAt, Zeros;
    SizeFits(|data|);
    var p := Packet(cmd, data);
    var size := PacketSize(64, |data|);
    ImageParts(cmd, data, size);
    BytesOfAt(|data|);
    WordIn(p, BytesOf(|data|), 0, |data|);
    ZeroWord();
    assert p[8] == p[8..10][0] && p[9] == p[8..10][1];
    forall k | 10 + |data| <= k < |p| ensures p[k] == 0 {
      assert p[k] == p[10 + |data|..][k - 10 - |data|];
    }
  }

  lemma HeaderPlaces(h: MsgInServer)
    ensures var b := HeaderBytes(h);
      WideAt(b, 0, h.userOnlyId % TWO64) && WordAt(b, 8, h.serverId % TWO32)
  {
    hide BytesOf, WideBytes, WordAt, WideAt;
    var b := HeaderBytes(h);
    WideBytesAt(h.userOnlyId);
    WideIn(b, WideBytes(h.userOnlyId), 0, h.userOnlyId % TWO64);
    BytesOfAt(Unsigned(h.serverId));
    WordIn(b, BytesOf(Unsigned(h.serverId)), 8, Unsigned(h.serverId));
    ModUnique(Unsigned(h.serverId), TWO32, 0, Unsigned(h.serverId));
  }

  lemma PartPlaces(p: seq<Byte>, header: seq<Byte>, at: nat, v: nat, w: nat)
    requires |header| == 12 && at + 12 <= |p| && p[at..at + 12] == header
    requires WideAt(header, 0, v) && WordAt(header, 8, w)
    ensures WideAt(p, at, v) && WordAt(p, at + 8, w)
  {
    assert forall i :: at <= i < at + 12 ==> p[i] == header[i - at];
  }

  /** Where a wrapped packet holds what. */
  lemma WrappedPlaces(cmd: Cmd, h: MsgInServer, inner: seq<Byte>)
    requires |inner| < 0x3000_0000
    ensures ServerLaidOut(Wrapped(cmd, h, inner), cmd, h.userOnlyId, h.serverId, inner)
  {
    hide Packet, HeaderBytes, WordAt;
    var p, header := Wrapped(cmd, h, inner), HeaderBytes(h);
    PacketPlaces(cmd, header + inner);
    HeaderPlaces(h);
    var data := p[10..22 + |inner|];
    assert data == header + inner;
    assert p[22..22 + |inner|] == data[12..];
    assert p[10..22] == data[..12] == header;
    PartPlaces(p, header, 10, h.userOnlyId % TWO64, h.serverId % TWO32);
  }

  lemma IdPlaces(cmd: Cmd, userid: Int64, svrid: Int32, inner: seq<Byte>)
    requires |inner| < 0x3000_0000
    ensures var p := Wrapped(cmd, MsgInServer(userid, svrid), inner);
            |p| >= 22 && WideAt(p, 10, userid % TWO64) && WordAt(p, 18, svrid % TWO32)
  {
    hide Wrapped, WordAt;
    WrappedPlaces(cmd, MsgInServer(userid, svrid), inner);
  }

  /** For example, user 2 and server 1. */
  lemma SmallIdsInBytes(cmd: Cmd, inner: seq<Byte>)
    requires |inner| < 0x3000_0000
    ensures var p := Wrapped(cmd, MsgInServer(2, 1), inner);
            |p| >= 22 && p[10..22] == [2, 0, 0, 0, 0, 0, 0, 0, 1, 0, 0, 0]
  {
    hide Wrapped;
    IdPlaces(cmd, 2, 1, inner);
  }

  /** ... and user -1 and server -2. */
  lemma NegativeIdsInBytes(cmd: Cmd, inner: seq<Byte>)
    requires |inner| < 0x3000_0000
    ensures var p := Wrapped(cmd, MsgInServer(-1, -2), inner);
            |p| >= 22 && p[10..22] == [255, 255, 255, 255, 255, 255, 255, 255, 254, 255, 255, 255]
  {
    hide Wrapped;
    IdPlaces(cmd, -1, -2, inner);
  }

  lemma PacketIsFramed(cmd: Cmd, data: seq<Byte>)
    requires |data| < 0x4000_0000
    ensures Framed(Packet(cmd, data)) && DataLen(Packet(cmd, data)) == |data|
  {
    SizeFits(|data|);
    ImageParts(cmd, data, PacketSize(64, |data|));
    hide PacketSize, FrameSize, Image, BytesOf;
  }

  /** What a receiver makes of a message. */
  datatype Analyzed = Analyzed(msg: Option<seq<Byte>>, wholeCmd: Cmd, header: MsgInServer)

  /** A message that holds what is read from it. */
  predicate Readable(b: seq<Byte>) {
    |b| >= PREFIX && (b[8] == SVRBASE_CMD ==> |b| >= PREFIX + MSGINSERVER_SIZE)
  }

  /** Which packets off the stream are such messages. */
  lemma ReceivedIsReadableIff(p: seq<Byte>)
    requires Framed(p)
    ensures |p| >= PREFIX <==> DataLen(p) >= -1
    ensures Readable(p) <==> DataLen(p) >= -1 && (DataLen(p) < 7 ==> p[8] != SVRBASE_CMD)
  {
    FramedHoldsCommandIff(p);
    hide Framed, DataLen;
  }

  /** Looks into a server packet; any other packet is handed back as it is. */
  function AnalyzeSvrMsg(msg: Option<seq<Byte>>, header: MsgInServer): Analyzed
    requires msg.Some? ==> Readable(msg.value)
  {
    match msg
    case None => Analyzed(None, 0, header)
    case Some(b) =>
      var wholeCmd := CmdOf(b[8..10]);
      if b[8] == SVRBASE_CMD
      then Analyzed(Some(b[10 + MSGINSERVER_SIZE..]), wholeCmd, HeaderOf(b[10..10 + MSGINSERVER_SIZE]))
      else Analyzed(Some(b), wholeCmd, header)
  }

  /** The packet that begins at an address. */
  function PacketAt(b: seq<Byte>): seq<Byte>
    requires |b| > 4 && 0 <= SizeAt(b) <= |b|
  {
    b[..SizeAt(b)]
  }

  lemma CmdInverts(cmd: Cmd)
    ensures CmdOf(CmdBytes(cmd)) == cmd && CmdBytes(cmd)[0] == cmd % 0x100
  {
  }

  /**
    The way back from a wrapped packet: for a server command the two ids and the inner
    packet, byte for byte; for any other command the wrapped packet itself.
   */
  lemma AnalyzeInvertsWrap(cmd: Cmd, h: MsgInServer, inner: seq<Byte>, before: MsgInServer)
    requires Framed(inner) && |inner| < 0x3000_0000
    ensures var p := Wrapped(cmd, h, inner);
      && Framed(p) && |p| >= PREFIX + MSGINSERVER_SIZE
      && var a := AnalyzeSvrMsg(Some(p), before);
      && a.wholeCmd == cmd && a.msg.Some?
      && (cmd % 0x100 == SVRBASE_CMD ==>
          && a.header == h && |a.msg.value| > 4 && 0 <= SizeAt(a.msg.value) <= |a.msg.value|
          && PacketAt(a.msg.value) == inner)
      && (cmd % 0x100 != SVRBASE_CMD ==> a.header == before && a.msg.value == p)
  {
    var data := HeaderBytes(h) + inner;
    var p := Wrapped(cmd, h, inner);
    PacketIsFramed(cmd, data);
    SizeFits(|data|);
    ImageParts(cmd, data, PacketSize(64, |data|));
    HeaderInverts(h);
    CmdInverts(cmd);
    hide PacketSize, FrameSize, Image, HeaderBytes, HeaderOf, BytesOf;
    assert p[8..10][0] == p[8];
    assert p[10..22] == p[10..10 + |data|][..12] == HeaderBytes(h);
    var q := p[22..];
    assert q[..|inner|] == p[10..10 + |data|][12..] == inner;
    assert q == inner + q[|inner|..];
    ReadsPrefix(inner, q[|inner|..]);
  }

  // ---------------------------------------------------------------- through the gateway

  datatype Parcel = Parcel(cmd: Cmd, header: MsgInServer, inner: seq<Byte>)

  ghost predicate Deliverable(ps: seq<Parcel>) {
    forall p :: p in ps ==> Framed(p.inner) && |p.inner| < 0x3000_0000 && p.cmd % 0x100 == SVRBASE_CMD
  }

  function WrapAll(ps: seq<Parcel>): (w: seq<seq<Byte>>)
    requires forall p :: p in ps ==> |p.inner| < 0x3000_0000
    ensures |w| == |ps|
  {
    seq(|ps|, i requires 0 <= i < |ps| => Wrapped(ps[i].cmd, ps[i].header, ps[i].inner))
  }

  /** The parcel is what the receiver reads out of the packet. */
  ghost predicate Opens(packet: seq<Byte>, before: MsgInServer, p: Parcel) {
    && |packet| >= PREFIX + MSGINSERVER_SIZE
    && var a := AnalyzeSvrMsg(Some(packet), before);
    && a.wholeCmd == p.cmd && a.header == p.header && a.msg.Some?
    && |a.msg.value| > 4 && 0 <= SizeAt(a.msg.value) <= |a.msg.value| && PacketAt(a.msg.value) == p.inner
  }

  lemma OpensWrapped(p: Parcel, before: MsgInServer)
    requires Framed(p.inner) && |p.inner| < 0x3000_0000 && p.cmd % 0x100 == SVRBASE_CMD
    ensures Opens(Wrapped(p.cmd, p.header, p.inner), before, p) && Framed(Wrapped(p.cmd, p.header, p.inner))
  {
    AnalyzeInvertsWrap(p.cmd, p.header, p.inner, before);
    hide AnalyzeSvrMsg, SizeAt, Wrapped;
  }

  lemma DeliverAll(sent: seq<seq<Byte>>, chunks: seq<seq<Byte>>)
    requires AllFramed(sent) && Concat(chunks) == Concat(sent)
    ensures Deliver([], chunks) == Extracted(sent, [])
  {
    assert Concat(chunks) + [] == Concat(sent);
    StreamReassembly(sent, chunks, []);
    var d := Deliver([], chunks);
    var k := |d.packets|;
    hide Deliver;
    if k < |sent| {
      assert false;
    }
    assert sent[..k] == sent;
  }

  /**
    Client packets are wrapped, written to a stream, delivered in any pieces, cut into
    packets and looked into: out come the same client packets with the same user and
    server, in order, and nothing is left.
   */
  lemma GatewayRoundTrip(ps: seq<Parcel>, chunks: seq<seq<Byte>>, before: MsgInServer)
    requires Deliverable(ps) && Concat(chunks) == Concat(WrapAll(ps))
    ensures var d := Deliver([], chunks);
      && d.rest == [] && |d.packets| == |ps|
      && forall i :: 0 <= i < |ps| ==> Opens(d.packets[i], before, ps[i])
  {
    hide Opens, Framed, Wrapped, Concat, Deliver;
    var sent := WrapAll(ps);
    forall i | 0 <= i < |ps| ensures Opens(sent[i], before, ps[i]) && Framed(sent[i]) {
      assert ps[i] in ps;
      OpensWrapped(ps[i], before);
    }
    DeliverAll(sent, chunks);
  }
}

module Transit {
  import opened Wrappers
  import opened Bits
  import opened Words
  import opened Packets
  import opened FrameSpec
  import opened TransitSpec

  const MAX_BUFF_SIZE: nat := 65535

  /** Memory after `data` is copied behind the data so far and the length field is raised. */
  function Pushed(mem: seq<Byte>, data: seq<Byte>): seq<Byte>
    requires |mem| >= PREFIX && PREFIX + WordOf(mem[..4]) + |data| <= |mem|
  {
    var n := WordOf(mem[..4]);
    BytesOf((n + |data|) % TWO32) + mem[4..PREFIX + n] + data + mem[PREFIX + n + |data|..]
  }

  lemma PushedParts(mem: seq<Byte>, data: seq<Byte>)
    requires |mem| >= PREFIX && PREFIX + WordOf(mem[..4]) + |data| <= |mem|
    ensures var n := WordOf(mem[..4]);
      Pushed(mem, data) == BytesOf((n + |data|) % TWO32) + mem[4..10 + n] + data + mem[10 + n + |data|..]
  {
  }

  lemma MemoryParts(image: seq<Byte>, behind: seq<Byte>, n1: nat, n2: nat)
    requires 10 + n1 + n2 <= |image|
    ensures var mem := image + behind;
      && mem[..4] == image[..4] && mem[4..10 + n1] == image[4..10 + n1]
      && mem[10 + n1 + n2..] == image[10 + n1..][n2..] + behind
  {
  }

  lemma ImageMiddle(cmd: Cmd, d: seq<Byte>, size: nat)
    requires |d| < TWO32 && PREFIX + |d| <= size
    ensures Image(cmd, d, size)[4..10 + |d|] == BytesOf(0) + CmdBytes(cmd) + d
    ensures Image(cmd, d, size)[10 + |d|..] == Zeros(size - 10 - |d|)
  {
    hide BytesOf, CmdBytes;
  }

  lemma ImageMade(cmd: Cmd, d1: seq<Byte>, d2: seq<Byte>, size: nat, behind: seq<Byte>)
    requires |d1| + |d2| < TWO32 && PREFIX + |d1| + |d2| <= size
    ensures BytesOf(|d1| + |d2|) + (BytesOf(0) + CmdBytes(cmd) + d1) + d2 + (Zeros(size - 10 - |d1|)[|d2|..] + behind)
         == Image(cmd, d1 + d2, size) + behind
  {
    hide BytesOf, CmdBytes;
    assert Zeros(size - 10 - |d1|)[|d2|..] == Zeros(size - 10 - |d1| - |d2|);
  }

  lemma LengthRead(n: Word)
    ensures |BytesOf(n)| == 4 && WordOf(BytesOf(n)) == n
  {
  }

  lemma PushImage(cmd: Cmd, d1: seq<Byte>, d2: seq<Byte>, size: nat, behind: seq<Byte>)
    requires |d1| + |d2| < TWO32 && PREFIX + |d1| + |d2| <= size
    ensures var mem := Image(cmd, d1, size) + behind;
      && WordOf(mem[..4]) == |d1|
      && Pushed(mem, d2) == Image(cmd, d1 + d2, size) + behind
  {
    hide BytesOf, CmdBytes, WordOf, Image, Pushed;
    var image := Image(cmd, d1, size);
    ImageParts(cmd, d1, size);
    LengthRead(|d1|);
    MemoryParts(image, behind, |d1|, |d2|);
    ImageMiddle(cmd, d1, size);
    ImageMade(cmd, d1, d2, size, behind);
    PushedParts(image + behind, d2);
  }

  /** Copying the data and then the new length. */
  lemma CopiesPush(mem: seq<Byte>, data: seq<Byte>)
    requires |mem| >= PREFIX && PREFIX + WordOf(mem[..4]) + |data| <= |mem|
    ensures var n := WordOf(mem[..4]); var length := BytesOf((n + |data|) % TWO32);
      var once := mem[..PREFIX + n] + data + mem[PREFIX + n + |data|..];
      once[..0] + length + once[0 + |length|..] == Pushed(mem, data)
  {
    hide BytesOf, WordOf;
    var n := WordOf(mem[..4]);
    var once := mem[..PREFIX + n] + data + mem[PREFIX + n + |data|..];
    assert once[4..] == mem[4..PREFIX + n] + data + mem[PREFIX + n + |data|..];
  }

  /** Copying zeros and then the command. */
  lemma CopiesBegin(mem: seq<Byte>, cmd: Cmd, size: nat)
    requires PREFIX <= size <= |mem|
    ensures var once := mem[..0] + Zeros(size) + mem[0 + |Zeros(size)|..];
      once[..CMDHEADER_SIZE] + CmdBytes(cmd) + once[CMDHEADER_SIZE + |CmdBytes(cmd)|..] ==
      Image(cmd, [], size) + mem[size..]
  {
    hide CmdBytes;
    assert BytesOf(0) == [0, 0, 0, 0];
    hide BytesOf;
    assert Zeros(size)[..8] == BytesOf(0) + BytesOf(0);
    assert Zeros(size)[10..] == Zeros(size - 10);
  }

  /** Pushing the header and then the client packet makes the wrapped packet. */
  lemma TwoPushes(cmd: Cmd, h: MsgInServer, packet: seq<Byte>, size: nat, behind: seq<Byte>)
    requires |packet| < 0x3000_0000 && 22 + |packet| <= size && size == PacketSize(64, |packet| + MSGINSERVER_SIZE)
    ensures var m0 := Image(cmd, [], size) + behind; var m1 := Image(cmd, HeaderBytes(h), size) + behind;
      && WordOf(m0[..4]) == 0 && Pushed(m0, HeaderBytes(h)) == m1
      && WordOf(m1[..4]) == 12 && Pushed(m1, packet) == Wrapped(cmd, h, packet) + behind
      && |Wrapped(cmd, h, packet)| == size
  {
    hide PacketSize, Image, HeaderBytes, Pushed;
    PushImage(cmd, [], HeaderBytes(h), size, behind);
    assert [] + HeaderBytes(h) == HeaderBytes(h);
    PushImage(cmd, HeaderBytes(h), packet, size, behind);
  }

  lemma LargeSize(d: nat)
    requires d < 0x2_0000_0000
    ensures PacketSize(64, d) >= PREFIX + d
  {
    Pow64();
    PacketSizeRounds(64, d);
    hide PacketSize, Pow2;
    ModUnique(17 + d, TWO64, 0, 17 + d);
  }

  /** What is known of the sizes once the wrapped packet fits the memory. */
  lemma FittingSizes(len: nat)
    requires len < TWO32
    ensures var n := PacketSize(64, len); var size := PacketSize(64, n + MSGINSERVER_SIZE);
            size <= MAX_BUFF_SIZE ==> 0 < n < 0x3000_0000 && 22 + n <= size
  {
    LongSize(len);
    LargeSize(PacketSize(64, len) + MSGINSERVER_SIZE);
    hide PacketSize;
  }

  /** The memory begins with a server packet, place by place, and is as it was behind it. */
  ghost predicate HoldsServerPacket(
    mem: seq<Byte>, was: seq<Byte>, cmd: Cmd, svrid: Int32, userid: Int64, inner: seq<Byte>)
  {
    var size := 29 + |inner| - (29 + |inner|) % 8;
    && size <= |mem| == |was| && mem[size..] == was[size..]
    && ServerLaidOut(mem[..size], cmd, userid, svrid, inner)
  }

  lemma WrappedInFront(was: seq<Byte>, cmd: Cmd, h: MsgInServer, inner: seq<Byte>)
    requires |inner| < 0x3000_0000 && |Wrapped(cmd, h, inner)| <= |was|
    ensures var p := Wrapped(cmd, h, inner);
            HoldsServerPacket(p + was[|p|..], was, cmd, h.serverId, h.userOnlyId, inner)
  {
    hide Wrapped, WordAt, WideAt;
    WrappedPlaces(cmd, h, inner);
    var p := Wrapped(cmd, h, inner);
    assert (p + was[|p|..])[..|p|] == p;
  }

  /** The fixed memory in which messages are built. */
  class Capacity {
    const mem: array<Byte>

    ghost predicate Valid()
      reads this
    {
      mem.Length == MAX_BUFF_SIZE
    }

    constructor ()
      ensures Valid() && fresh(mem)
    {
      mem := new Byte[MAX_BUFF_SIZE](_ => 0);
    }

    method Begin(wholeCmd: Cmd, size: nat)
      requires Valid() && PREFIX <= size <= MAX_BUFF_SIZE
      modifies mem
      ensures mem[..] == Image(wholeCmd, [], size) + old(mem[..])[size..]
    {
      hide Image, CmdBytes;
      CopiesBegin(mem[..], wholeCmd, size);
      Copy(mem, 0, Zeros(size));
      Copy(mem, CMDHEADER_SIZE, CmdBytes(wholeCmd));
    }

    method PushBack(data: seq<Byte>)
      requires Valid() && PREFIX + WordOf(mem[..4]) + |data| <= mem.Length
      modifies mem
      ensures mem[..] == Pushed(old(mem[..]), data)
    {
      hide BytesOf, WordOf, Pushed;
      CopiesPush(mem[..], data);
      var n := WordOf(mem[..4]);
      Copy(mem, PREFIX + n, data);
      Copy(mem, 0, BytesOf((n + |data|) % TWO32));
    }

    method SetMessage(wholeCmd: Cmd, data: seq<Byte>)
      requires Valid() && |data| < TWO32 && PacketSize(64, |data|) <= MAX_BUFF_SIZE
      modifies mem
      ensures |data| < 0x4000_0000 && BeginsWith(Packet(wholeCmd, data), old(mem[..]))
      ensures var size := 17 + |data| - (17 + |data|) % 8;
        && size <= mem.Length && mem[size..] == old(mem[..])[size..]
        && PacketLaidOut(mem[..size], wholeCmd, data)
    {
      LongSize(|data|);
      hide PacketSize, Image, Pushed;
      ghost var was := mem[..];
      var size := PacketSize(64, |data|);
      PushImage(wholeCmd, [], data, size, was[size..]);
      Begin(wholeCmd, size);
      PushBack(data);
      assert [] + data == data;
      PacketPlaces(wholeCmd, data);
    }

    /** The memory begins with the packet and is as it was behind it. */
    ghost predicate BeginsWith(packet: seq<Byte>, was: seq<Byte>)
      reads this, mem
    {
      |packet| <= |was| && mem[..] == packet + was[|packet|..]
    }

    /** Wraps the client packet of `len` bytes of data that `data` begins with. */
    method SetServerMessage(svrid: Int32, userid: Int64, data: seq<Byte>, len: nat)
      requires Valid() && len < TWO32 && PacketSize(64, len) <= |data|
      requires PacketSize(64, PacketSize(64, len) + MSGINSERVER_SIZE) <= MAX_BUFF_SIZE
      modifies mem
      ensures PacketSize(64, len) < 0x3000_0000
      ensures BeginsWith(Wrapped(TRANSIT_CMD, MsgInServer(userid, svrid), data[..PacketSize(64, len)]), old(mem[..]))
      ensures HoldsServerPacket(mem[..], old(mem[..]), 0x030a, svrid, userid, data[..PacketSize(64, len)])
    {
      var packageLen := PacketSize(64, len);
      var size := PacketSize(64, packageLen + MSGINSERVER_SIZE);
      var svrheader := MsgInServer(userid, svrid);
      FittingSizes(len);
      TwoPushes(TRANSIT_CMD, svrheader, data[..packageLen], size, mem[size..]);
      WrappedInFront(mem[..], TRANSIT_CMD, svrheader, data[..packageLen]);
      hide PacketSize, Image, Pushed, HeaderBytes, Wrapped, WordOf, HoldsServerPacket;
      Begin(TRANSIT_CMD, size);
      PushBack(HeaderBytes(svrheader));
      if packageLen > 0 {
        PushBack(data[..packageLen]);
      }
    }

    method SetOtherSvrMsg(wholeCmd: Cmd, svrid: Int32, userid: Int64, data: seq<Byte>, len: nat)
      requires Valid() && len < TWO32 && PacketSize(64, len) <= |data|
      requires PacketSize(64, PacketSize(64, len) + MSGINSERVER_SIZE) <= MAX_BUFF_SIZE
      modifies mem
      ensures PacketSize(64, len) < 0x3000_0000
      ensures BeginsWith(Wrapped(wholeCmd, MsgInServer(userid, svrid), data[..PacketSize(64, len)]), old(mem[..]))
      ensures HoldsServerPacket(mem[..], old(mem[..]), wholeCmd, svrid, userid, data[..PacketSize(64, len)])
    {
      var packageLen := PacketSize(64, len);
      var size := PacketSize(64, packageLen + MSGINSERVER_SIZE);
      var svrheader := MsgInServer(userid, svrid);
      FittingSizes(len);
      TwoPushes(wholeCmd, svrheader, data[..packageLen], size, mem[size..]);
      WrappedInFront(mem[..], wholeCmd, svrheader, data[..packageLen]);
      hide PacketSize, Image, Pushed, HeaderBytes, Wrapped, WordOf, HoldsServerPacket;
      Begin(wholeCmd, size);
      PushBack(HeaderBytes(svrheader));
      PushBack(data[..packageLen]);
    }

    method SetServerMessageAck(svrid: Int32, userid: Int64, data: seq<Byte>, len: nat)
      requires Valid() && len < TWO32 && PacketSize(64, len) <= |data|
      requires PacketSize(64, PacketSize(64, len) + MSGINSERVER_SIZE) <= MAX_BUFF_SIZE
      modifies mem
      ensures PacketSize(64, len) < 0x3000_0000
      ensures BeginsWith(Wrapped(TRANSIT_ACK, MsgInServer(userid, svrid), data[..PacketSize(64, len)]), old(mem[..]))
      ensures HoldsServerPacket(mem[..], old(mem[..]), 0x040a, svrid, userid, data[..PacketSize(64, len)])
    {
      SetOtherSvrMsg(TRANSIT_ACK, svrid, userid, data, len);
    }
  }
}
