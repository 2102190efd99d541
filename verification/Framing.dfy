/**
  Packets on a byte stream.  Packets is the rounded packet size; FrameSpec is what a
  stream of packets holds; Framing is the buffer code and the two receive loops.
 */
module Packets {
  import opened Wrappers
  import opened Bits
  import opened Words

  const CMDHEADER_SIZE: nat := 8
  const CMDTYPE_SIZE: nat := 2
  const PREFIX: nat := CMDHEADER_SIZE + CMDTYPE_SIZE

  /** The size of a packet with `d` bytes of data, in unsigned arithmetic of the given width. */
  function PacketSize(width: nat, d: nat): (size: nat)
    requires width >= 3
  {
    And(width, (PREFIX + d + (8 - 1)) % Pow2(width), Not(width, 8 - 1))
  }

  /** The same in signed 32-bit arithmetic. */
  function FrameSize(d: Int32): (size: Int32) {
    Pow32();
    Signed(PacketSize(32, Unsigned(d)))
  }

  /** The mask rounds down. */
  lemma PacketSizeRounds(width: nat, d: nat)
    requires width >= 3
    ensures var s := (17 + d) % Pow2(width); PacketSize(width, d) == s - s % 8
  {
    hide And, Not;
    assert Pow2(3) == 8;
    hide Pow2;
    var s := (17 + d) % Pow2(width);
    AndNotMask(width, 3, s);
  }

  lemma RoundedDown(v: nat, size: nat, other: nat)
    requires size == v - v % 8 && v >= 7
    ensures size % 8 == 0 && v - 7 <= size
    ensures other % 8 == 0 && v - 7 <= other ==> size <= other
  {
  }

  /** Short of an overflow it is the least multiple of 8 that holds header, command and data. */
  lemma PacketSizeIsLeast(width: nat, d: nat, other: nat)
    requires width >= 3 && 17 + d < Pow2(width)
    ensures PacketSize(width, d) % 8 == 0 && PREFIX + d <= PacketSize(width, d)
    ensures other % 8 == 0 && PREFIX + d <= other ==> PacketSize(width, d) <= other
  {
    PacketSizeRounds(width, d);
    var size, p := PacketSize(width, d), Pow2(width);
    hide *;
    ModUnique(17 + d, p, 0, 17 + d);
    RoundedDown(17 + d, size, other);
  }

  lemma SignOfRounded(d: Int32, size: Word)
    requires var s := (17 + Unsigned(d)) % TWO32; size == s - s % 8
    ensures Signed(size) == 0 <==> -17 <= d <= -10
    ensures Signed(size) > 0 <==> -10 < d <= 0x7fff_ffff - 17
    ensures Signed(size) > 0 ==> Signed(size) == 17 + d - (17 + d) % 8 >= 8
  {
    var s := (17 + Unsigned(d)) % TWO32;
    if d < -17 {
      assert s == 17 + d + TWO32;
    } else {
      assert s == 17 + d;
    }
  }

  /** When the size in a header is positive, zero, or negative. */
  lemma FrameSizeSign(d: Int32)
    ensures FrameSize(d) == 0 <==> -17 <= d <= -10
    ensures FrameSize(d) > 0 <==> -10 < d <= 0x7fff_ffff - 17
    ensures FrameSize(d) > 0 ==> FrameSize(d) == 17 + d - (17 + d) % 8 >= 8
  {
    Pow32();
    PacketSizeRounds(32, Unsigned(d));
    var size := PacketSize(32, Unsigned(d));
    assert FrameSize(d) == Signed(size);
    hide PacketSize, Pow2, FrameSize;
    SignOfRounded(d, size);
  }
}

module FrameSpec {
  import opened Wrappers
  import opened Words
  import opened Packets

  /** The length field. */
  function DataLen(b: seq<Byte>): Int32
    requires |b| >= 4
  {
    Signed(WordOf(b[..4]))
  }

  function SizeAt(b: seq<Byte>): Int32
    requires |b| >= 4
  {
    FrameSize(DataLen(b))
  }

  /** A whole packet is there.  A negative size is compared as an unsigned one that no buffer reaches. */
  predicate Enough(b: seq<Byte>) {
    |b| > 4 && 0 <= SizeAt(b) <= |b|
  }

  predicate Advances(b: seq<Byte>) {
    Enough(b) && SizeAt(b) > 0
  }

  datatype Extracted = Extracted(packets: seq<seq<Byte>>, rest: seq<Byte>)

  /** The packets at the front of a buffer, and what is left. */
  function Extract(b: seq<Byte>): Extracted {
    if !Advances(b) then Extracted([], b)
    else
      var r := Extract(b[SizeAt(b)..]);
      Extracted([b[..SizeAt(b)]] + r.packets, r.rest)
  }

  /** Exactly one packet. */
  predicate Framed(p: seq<Byte>) {
    |p| > 4 && SizeAt(p) == |p|
  }

  lemma RoundedHolds(d: int, size: int)
    requires d > -10 && size == 17 + d - (17 + d) % 8
    ensures PREFIX + d <= size && (size >= PREFIX <==> d >= -1) && (size >= PREFIX + 12 <==> d >= 7)
  {
  }

  /**
    A packet holds its data; it holds its own header and command exactly when its length is
    at least -1, and a header of 12 bytes behind them exactly when it is at least 7.
   */
  lemma FramedHoldsCommandIff(p: seq<Byte>)
    requires Framed(p)
    ensures PREFIX + DataLen(p) <= |p|
    ensures |p| >= PREFIX <==> DataLen(p) >= -1
    ensures |p| >= PREFIX + 12 <==> DataLen(p) >= 7
  {
    FrameSizeSign(DataLen(p));
    hide FrameSize;
    RoundedHolds(DataLen(p), |p|);
  }

  predicate AllFramed(ps: seq<seq<Byte>>) {
    forall p :: p in ps ==> Framed(p)
  }

  lemma ReadsPrefix(a: seq<Byte>, c: seq<Byte>)
    requires |a| >= 4
    ensures DataLen(a + c) == DataLen(a) && SizeAt(a + c) == SizeAt(a)
  {
    assert (a + c)[..4] == a[..4];
  }

  lemma FrontIsFramed(b: seq<Byte>)
    requires Advances(b)
    ensures Framed(b[..SizeAt(b)])
  {
    var n := SizeAt(b);
    FrameSizeSign(DataLen(b));
    hide FrameSize;
    ReadsPrefix(b[..n], b[n..]);
    assert b == b[..n] + b[n..];
  }

  /** Nothing is lost: the packets and the rest, put together, are the buffer. */
  lemma {:induction false} ExtractConserves(b: seq<Byte>)
    ensures Concat(Extract(b).packets) + Extract(b).rest == b
    ensures AllFramed(Extract(b).packets) && !Advances(Extract(b).rest)
    decreases |b|
  {
    hide SizeAt, Framed;
    if Advances(b) {
      var n, r := SizeAt(b), Extract(b[SizeAt(b)..]);
      ExtractConserves(b[n..]);
      assert Extract(b).packets[1..] == r.packets;
      Regroup(b[..n], Concat(r.packets), r.rest);
      assert b == b[..n] + b[n..];
      FrontIsFramed(b);
    }
  }

  lemma TakeFront(p: seq<Byte>, more: seq<Byte>)
    requires Framed(p)
    ensures Extract(p + more) == Extracted([p] + Extract(more).packets, Extract(more).rest)
  {
    ReadsPrefix(p, more);
    FrameSizeSign(DataLen(p));
    hide FrameSize;
    assert (p + more)[..|p|] == p && (p + more)[|p|..] == more;
  }

  /** There is only one way to cut a buffer into packets. */
  lemma {:induction false} ExtractSerialized(ps: seq<seq<Byte>>, rest: seq<Byte>)
    requires AllFramed(ps)
    ensures Extract(Concat(ps) + rest) == Extracted(ps + Extract(rest).packets, Extract(rest).rest)
  {
    hide SizeAt, Framed, Advances;
    if |ps| == 0 {
      assert [] + rest == rest;
    } else {
      var p, more := ps[0], Concat(ps[1..]) + rest;
      assert p in ps;
      Regroup(p, Concat(ps[1..]), rest);
      TakeFront(p, more);
      ExtractSerialized(ps[1..], rest);
      assert ps == [p] + ps[1..];
      Regroup([p], ps[1..], Extract(rest).packets);
    }
  }

  /** Extracting early takes nothing from what is extracted later. */
  lemma ExtractCut(a: seq<Byte>, c: seq<Byte>)
    ensures var e := Extract(a); var f := Extract(e.rest + c);
            Extract(a + c) == Extracted(e.packets + f.packets, f.rest)
  {
    var e := Extract(a);
    ExtractConserves(a);
    Regroup(Concat(e.packets), e.rest, c);
    ExtractSerialized(e.packets, e.rest + c);
  }

  // ---------------------------------------------------------------- deliveries

  /** Chunks arrive one after another; after each the receive loop runs. */
  function Deliver(b: seq<Byte>, chunks: seq<seq<Byte>>): Extracted
    decreases chunks
  {
    if |chunks| == 0 then Extracted([], b)
    else
      var e := Extract(b + chunks[0]);
      var d := Deliver(e.rest, chunks[1..]);
      Extracted(e.packets + d.packets, d.rest)
  }

  /** The packets received do not depend on how the stream is cut. */
  lemma {:induction false} DeliverIgnoresCuts(b: seq<Byte>, chunks: seq<seq<Byte>>)
    requires !Advances(b)
    ensures Deliver(b, chunks) == Extract(b + Concat(chunks))
    decreases chunks
  {
    if |chunks| == 0 {
      assert b + [] == b;
    } else {
      var e := Extract(b + chunks[0]);
      ExtractConserves(b + chunks[0]);
      DeliverIgnoresCuts(e.rest, chunks[1..]);
      ExtractCut(b + chunks[0], Concat(chunks[1..]));
      Regroup(b, chunks[0], Concat(chunks[1..]));
    }
  }

  lemma SplitFront(p: seq<Byte>, b: seq<Byte>, later: seq<Byte>, more: seq<Byte>)
    requires |b| >= |p| && b + later == p + more
    ensures b == p + b[|p|..] && b[|p|..] + later == more
  {
    assert (b + later)[..|p|] == b[..|p|] && (p + more)[..|p|] == p;
    assert (b + later)[|p|..] == b[|p|..] + later && (p + more)[|p|..] == more;
  }

  lemma ArrivedFirst(sent: seq<seq<Byte>>, later: seq<Byte>, d: Extracted)
    requires |sent| > 0 && Arrived(sent[1..], later, d)
    ensures Arrived(sent, later, Extracted([sent[0]] + d.packets, d.rest))
  {
    var k := |d.packets|;
    hide Concat;
    assert sent[1..][k..] == sent[k + 1..];
    assert [sent[0]] + sent[1..][..k] == sent[..k + 1];
  }

  lemma ShortIsNotEnough(p: seq<Byte>, b: seq<Byte>, later: seq<Byte>, more: seq<Byte>)
    requires Framed(p) && |b| < |p| && b + later == p + more
    ensures !Enough(b)
  {
    if |b| > 4 {
      assert b[..4] == (b + later)[..4] == (p + more)[..4] == p[..4];
    }
  }

  lemma EndsAfter(p: seq<Byte>, more: seq<Byte>)
    requires Framed(p) && Ends(more)
    ensures Ends(p + more)
  {
    ReadsPrefix(p, more);
    FrameSizeSign(DataLen(p));
    hide FrameSize;
    assert (p + more)[|p|..] == more;
  }

  lemma {:induction false} ExtractPart(sent: seq<seq<Byte>>, b: seq<Byte>, later: seq<Byte>)
    requires AllFramed(sent) && b + later == Concat(sent)
    ensures Arrived(sent, later, Extract(b)) && Ends(b) && Ends(Extract(b).rest)
  {
    if |sent| > 0 {
      var p := sent[0];
      assert p in sent;
      if |b| < |p| {
        ShortIsNotEnough(p, b, later, Concat(sent[1..]));
        assert sent[0..] == sent;
      } else {
        var b' := b[|p|..];
        SplitFront(p, b, later, Concat(sent[1..]));
        TakeFront(p, b');
        ExtractPart(sent[1..], b', later);
        EndsAfter(p, b');
        ArrivedFirst(sent, later, Extract(b'));
      }
    }
  }

  /**
    A sender writes whole packets; some first part of the stream has arrived, in any
    pieces.  Then exactly the packets that have arrived in full have been handed out, in
    order and unchanged, and what is left is the beginning of the next one.
   */
  lemma StreamReassembly(sent: seq<seq<Byte>>, chunks: seq<seq<Byte>>, later: seq<Byte>)
    requires AllFramed(sent) && Concat(chunks) + later == Concat(sent)
    ensures Arrived(sent, later, Deliver([], chunks)) && Ends(Deliver([], chunks).rest)
  {
    DeliverIgnoresCuts([], chunks);
    assert [] + Concat(chunks) == Concat(chunks);
    ExtractPart(sent, Concat(chunks), later);
  }

  /** The packets are the first ones sent; the rest and what is still to come are the others. */
  ghost predicate Arrived(sent: seq<seq<Byte>>, later: seq<Byte>, d: Extracted) {
    var k := |d.packets|;
    && k <= |sent| && d.packets == sent[..k]
    && d.rest + later == Concat(sent[k..])
    && (if k == |sent| then d.rest == [] else |d.rest| < |sent[k]|)
  }

  // ---------------------------------------------------------------- termination

  /** The loop that extracts while there is enough comes to an end. */
  ghost predicate Ends(b: seq<Byte>)
    decreases |b|
  {
    Enough(b) ==> SizeAt(b) > 0 && Ends(b[SizeAt(b)..])
  }

  /** It does so unless it comes upon a length from -17 to -10, whose packet is empty. */
  lemma {:induction false} EndsUnlessEmptyPacket(b: seq<Byte>)
    ensures var r := Extract(b).rest; Ends(b) <==> !(|r| > 4 && -17 <= DataLen(r) <= -10)
    decreases |b|
  {
    if |b| > 4 {
      FrameSizeSign(DataLen(b));
    }
    hide FrameSize;
    if Advances(b) {
      EndsUnlessEmptyPacket(b[SizeAt(b)..]);
    }
  }

  /** Taking an empty packet leaves the buffer as it was. */
  lemma EmptyPacketStaysPut(b: seq<Byte>)
    requires |b| > 4 && -17 <= DataLen(b) <= -10
    ensures Enough(b) && b[SizeAt(b)..] == b && !Ends(b)
  {
    FrameSizeSign(DataLen(b));
    hide FrameSize;
    assert b[0..] == b;
  }

  /** Such a buffer: the length is -10. */
  lemma SomeBufferNeverEnds()
    ensures !Ends([0xf6, 0xff, 0xff, 0xff, 0])
  {
    var b: seq<Byte> := [0xf6, 0xff, 0xff, 0xff, 0];
    assert b[..4] == [0xf6, 0xff, 0xff, 0xff];
    assert WordOf(b[..4]) == 0xffff_fff6;
    EmptyPacketStaysPut(b);
  }
}

module Framing {
  import opened Wrappers
  import opened Bits
  import opened Words
  import opened Packets
  import opened FrameSpec

  /** A network buffer: bytes are appended behind and taken from the front. */
  class Buffer {
    var data: seq<Byte>

    method Append(bytes: seq<Byte>)
      modifies this
      ensures data == old(data) + bytes
    {
      data := data + bytes;
    }

    method Retrieve(n: nat)
      requires n <= |data|
      modifies this
      ensures data == old(data)[n..]
    {
      data := data[n..];
    }
  }

  /** Writes a message as one packet. */
  method Msg2Buffer(msg: seq<Byte>, buf: Buffer)
    requires |msg| >= 4 && 0 < SizeAt(msg) <= |msg|
    modifies buf
    ensures buf.data == old(buf.data) + msg[..SizeAt(msg)] && Framed(msg[..SizeAt(msg)])
  {
    Pow32();
    var size := Signed(PacketSize(32, WordOf(msg[..4])));
    assert size == SizeAt(msg);
    FrameSizeSign(DataLen(msg));
    FrontIsFramed(msg);
    buf.Append(msg[..size]);
  }

  /** A whole packet is there exactly if some packet is what the buffer begins with. */
  lemma EnoughIff(b: seq<Byte>)
    requires |b| > 4 ==> DataLen(b) < -17 || DataLen(b) > -10
    ensures Enough(b) ==> Framed(b[..SizeAt(b)])
    ensures !Enough(b) ==> forall p :: Framed(p) ==> !(p <= b)
  {
    if |b| > 4 {
      FrameSizeSign(DataLen(b));
    }
    if Enough(b) {
      FrontIsFramed(b);
    }
    forall p | Framed(p) && p <= b ensures Enough(b) {
      ReadsPrefix(p, b[|p|..]);
      assert b == p + b[|p|..];
    }
  }

  method EnouthData(buf: Buffer) returns (ret: bool)
    ensures ret == Enough(buf.data)
    ensures |buf.data| > 4 && -17 <= DataLen(buf.data) <= -10 ==> ret
    ensures (|buf.data| > 4 ==> DataLen(buf.data) < -17 || DataLen(buf.data) > -10) ==>
              if ret then Framed(buf.data[..SizeAt(buf.data)]) else forall p :: Framed(p) ==> !(p <= buf.data)
  {
    if |buf.data| <= 4 || DataLen(buf.data) < -17 || DataLen(buf.data) > -10 {
      EnoughIff(buf.data);
    } else {
      EmptyPacketStaysPut(buf.data);
    }
    ret := false;
    var bufsize := |buf.data|;
    if bufsize > 4 {
      var datasize := Signed(WordOf(buf.data[..4]));
      if 0 <= FrameSize(datasize) <= bufsize {
        ret := true;
      }
    }
  }

  method NewMsgFormBuffer(buf: Buffer) returns (msg: seq<Byte>)
    requires Enough(buf.data)
    modifies buf
    ensures msg == old(buf.data)[..SizeAt(old(buf.data))] && buf.data == old(buf.data)[SizeAt(old(buf.data))..]
  {
    var datasize := Signed(WordOf(buf.data[..4]));
    var packetsize := FrameSize(datasize);
    msg := buf.data[..packetsize];
    buf.Retrieve(packetsize);
  }

  /** Of a buffer that held `all`, `got` has been taken out and `b` is left. */
  ghost predicate Taken(all: Extracted, got: seq<seq<Byte>>, b: seq<Byte>) {
    Ends(b) && got + Extract(b).packets == all.packets && Extract(b).rest == all.rest
  }

  lemma TakenNothing(b: seq<Byte>)
    requires Ends(b)
    ensures Taken(Extract(b), [], b)
  {
  }

  /** One round of a receive loop. */
  lemma TakenOne(all: Extracted, got: seq<seq<Byte>>, b: seq<Byte>)
    requires Taken(all, got, b) && Enough(b)
    ensures |b| > 4 && 0 < SizeAt(b) <= |b| && Taken(all, got + [b[..SizeAt(b)]], b[SizeAt(b)..])
  {
    hide SizeAt;
    Regroup(got, [b[..SizeAt(b)]], Extract(b[SizeAt(b)..]).packets);
  }

  lemma TakenAll(all: Extracted, got: seq<seq<Byte>>, b: seq<Byte>)
    requires Taken(all, got, b) && !Enough(b)
    ensures got == all.packets && b == all.rest
  {
  }

  class TcpClient {
    var inMsgList: seq<seq<Byte>>

    method OnMessage(buf: Buffer)
      requires Ends(buf.data)
      modifies this, buf
      ensures inMsgList == old(inMsgList) + Extract(old(buf.data)).packets
      ensures buf.data == Extract(old(buf.data)).rest && !Enough(buf.data)
    {
      hide SizeAt, Taken, Enough;
      ghost var all, got := Extract(buf.data), [];
      TakenNothing(buf.data);
      while true
        invariant Taken(all, got, buf.data) && inMsgList == old(inMsgList) + got
        decreases |buf.data|
      {
        var enough := EnouthData(buf);
        if !enough {
          break;
        }
        TakenOne(all, got, buf.data);
        var msg := NewMsgFormBuffer(buf);
        Regroup(old(inMsgList), got, [msg]);
        inMsgList, got := inMsgList + [msg], got + [msg];
      }
      TakenAll(all, got, buf.data);
    }
  }

  datatype MsgFromClient<S> = MsgFromClient(message: seq<Byte>, userSession: S)

  function From<S>(packets: seq<seq<Byte>>, session: S): (ms: seq<MsgFromClient<S>>)
    ensures |ms| == |packets|
    ensures forall i :: 0 <= i < |ms| ==> ms[i] == MsgFromClient(packets[i], session)
  {
    seq(|packets|, i requires 0 <= i < |packets| => MsgFromClient(packets[i], session))
  }

  lemma FromMore<S>(packets: seq<seq<Byte>>, msg: seq<Byte>, session: S)
    ensures From([], session) == []
    ensures From(packets + [msg], session) == From(packets, session) + [MsgFromClient(msg, session)]
  {
  }

  class TcpServer<S> {
    var msgList: seq<MsgFromClient<S>>

    method OnMessage(session: S, buf: Buffer)
      requires Ends(buf.data)
      modifies this, buf
      ensures msgList == old(msgList) + From(Extract(old(buf.data)).packets, session)
      ensures buf.data == Extract(old(buf.data)).rest && !Enough(buf.data)
    {
      hide SizeAt, Taken, Enough, From;
      ghost var all, got := Extract(buf.data), [];
      TakenNothing(buf.data);
      FromMore([], [], session);
      var enough := EnouthData(buf);
      if enough {
        while true
          invariant Taken(all, got, buf.data) && Enough(buf.data) && msgList == old(msgList) + From(got, session)
          decreases |buf.data|
        {
          TakenOne(all, got, buf.data);
          var msg := NewMsgFormBuffer(buf);
          FromMore(got, msg, session);
          Regroup(old(msgList), From(got, session), [MsgFromClient(msg, session)]);
          msgList, got := msgList + [MsgFromClient(msg, session)], got + [msg];
          enough := EnouthData(buf);
          if !enough {
            break;
          }
        }
      }
      TakenAll(all, got, buf.data);
    }
  }
}
