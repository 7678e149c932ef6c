/** The datagrams byte by byte: what is written where, and what the server does with the bytes it gets. */
module PacketBytes {
  import opened Words
  import opened AckWindow
  import opened Packets
  import opened PendingTable
  import opened Delivery
  import opened ServerModel

  /** Four bytes, the least significant first. */
  function LittleEndian(d: seq<byte>, at: nat): nat
    requires at + 4 <= |d|
  {
    var d0: int, d1: int, d2: int, d3: int := d[at], d[at + 1], d[at + 2], d[at + 3];
    d0 + 0x100 * d1 + 0x1_0000 * d2 + 0x100_0000 * d3
  }

  /** Bit `i` of the four bytes from `at`. */
  predicate BitOf(d: seq<byte>, at: nat, i: nat)
    requires at + 4 <= |d| && i < 32
  {
    Halved(d[at + i / 8], i % 8) % 2 == 1
  }

  /** `n >> k`. */
  function Halved(n: nat, k: nat): nat {
    if k == 0 then n else Halved(n / 2, k - 1)
  }

  /** The four bytes from `at` are `g` in two's complement. */
  predicate IsInt32(d: seq<byte>, at: nat, g: int32)
    requires at + 4 <= |d|
  {
    LittleEndian(d, at) == if g >= 0 then g else g + 0x1_0000_0000
  }

  /** A datagram with this type, number, acknowledgement and payload: 13 bytes of header, packed. */
  predicate Says(d: seq<byte>, kind: byte, sequence: uint32, w: Window, payload: seq<byte>) {
    && |d| == 13 + |payload|
    && d[0] == kind
    && LittleEndian(d, 1) == sequence
    && LittleEndian(d, 5) == w.top
    && (forall i :: 0 <= i < 32 ==> (BitOf(d, 9, i) <==> w.bits[i]))
    && d[13..] == payload
  }

  // Bits of a word

  lemma {:induction false} LowBitsAt(n: nat, len: nat, i: nat)
    requires i < len
    ensures LowBits(n, len)[i] <==> Halved(n, i) % 2 == 1
  {
    if i > 0 {
      LowBitsAt(n / 2, len - 1, i - 1);
    }
  }

  lemma {:induction false} HalvedTwice(n: nat, j: nat, k: nat)
    ensures Halved(n, j + k) == Halved(Halved(n, j), k)
  {
    if j > 0 {
      HalvedTwice(n / 2, j - 1, k);
    }
  }

  lemma TwiceProduct(a: nat, q: nat)
    ensures (2 * a) * q == 2 * (a * q)
  {
  }

  lemma {:induction false} HalvedSum(x: nat, q: nat, k: nat)
    ensures Halved(x + Pow2(k) * q, k) == Halved(x, k) + q
  {
    if k > 0 {
      TwiceProduct(Pow2(k - 1), q);
      var t := Pow2(k - 1) * q;
      assert (x + 2 * t) / 2 == x / 2 + t;
      HalvedSum(x / 2, q, k - 1);
    }
  }

  lemma {:induction false} HalvedAway(x: nat, k: nat)
    requires x < Pow2(k)
    ensures Halved(x, k) == 0
  {
    if k > 0 {
      HalvedAway(x / 2, k - 1);
    }
  }

  lemma {:induction false} Pow2Splits(j: nat, k: nat)
    requires k < j
    ensures Pow2(j) == Pow2(k) * (2 * Pow2(j - k - 1))
  {
    if k > 0 {
      Pow2Splits(j - 1, k - 1);
      TwiceProduct(Pow2(k - 1), 2 * Pow2(j - k - 1));
    }
  }

  lemma Associates(a: nat, b: nat, m: nat)
    ensures (a * (2 * b)) * m == a * (2 * (b * m))
  {
  }

  lemma ByteAbove(m: nat, k: nat)
    requires k < 8
    ensures 256 * m == Pow2(k) * (2 * (Pow2(7 - k) * m))
  {
    assert Pow2(8) == 256;
    Pow2Splits(8, k);
    Associates(Pow2(k), Pow2(7 - k), m);
  }

  /** The low byte does not feel what lies above it. */
  lemma LowByteShifts(x: byte, m: nat, k: nat)
    requires k < 8
    ensures Halved(x + 256 * m, k) % 2 == Halved(x, k) % 2
  {
    ByteAbove(m, k);
    EvenAbove(x, 256 * m, Pow2(7 - k) * m, k);
  }

  lemma EvenAbove(x: nat, above: nat, t: nat, k: nat)
    requires above == Pow2(k) * (2 * t)
    ensures Halved(x + above, k) % 2 == Halved(x, k) % 2
  {
    HalvedSum(x, 2 * t, k);
  }

  /** Eight shifts take it away. */
  lemma LowByteGoes(x: byte, m: nat)
    ensures Halved(x + 256 * m, 8) == m
  {
    assert Pow2(8) == 256;
    HalvedSum(x, m, 8);
    HalvedAway(x, 8);
  }

  lemma OneByteUp(x: byte, m: nat, i: nat)
    ensures Halved(x + 256 * m, i) % 2 == (if i < 8 then Halved(x, i) else Halved(m, i - 8)) % 2
  {
    if i < 8 {
      LowByteShifts(x, m, i);
    } else {
      LowByteGoes(x, m);
      HalvedTwice(x + 256 * m, 8, i - 8);
    }
  }

  lemma BitsOfWord(b: seq<byte>, i: nat)
    requires |b| == 4 && i < 32
    ensures LowBits(ReadWord(b), 32)[i] <==> Halved(b[i / 8], i % 8) % 2 == 1
  {
    var b1: int, b2: int, b3: int := b[1], b[2], b[3];
    var m2: nat := b2 + 256 * b3;
    var m1: nat := b1 + 256 * m2;
    LowBitsAt(ReadWord(b), 32, i);
    OneByteUp(b[0], m1, i);
    if i >= 8 { OneByteUp(b[1], m2, i - 8); }
    if i >= 16 { OneByteUp(b[2], b3, i - 16); }
  }

  // Headers

  /** Where each field of a header is read from. */
  lemma HeaderIsRead(d: seq<byte>)
    requires |d| >= 13
    ensures var h := Decode(d);
            h.kind == d[0] && h.sequence == LittleEndian(d, 1) && h.lastAcked == LittleEndian(d, 5)
    ensures forall i :: 0 <= i < 32 ==> (Decode(d).bits[i] <==> BitOf(d, 9, i))
    ensures Encode(Decode(d)) + d[13..] == d
  {
    EncodeDecode(d);
    forall i | 0 <= i < 32 ensures Decode(d).bits[i] <==> BitOf(d, 9, i) {
      BitsOfWord(d[9..13], i);
    }
  }

  lemma HeaderIsWritten(h: Header, payload: seq<byte>)
    ensures Says(Encode(h) + payload, h.kind, h.sequence, Window(h.lastAcked, h.bits), payload)
    ensures Decode(Encode(h) + payload) == h && Payload(Encode(h) + payload) == payload
  {
    DecodeEncode(h, payload);
    HeaderIsRead(Encode(h) + payload);
  }

  /** A Data packet starts with a zero byte, an Ack with a one. */
  lemma DataPacketSays(k: uint32, w: Window, payload: seq<byte>)
    ensures Says(DataPacket(k, w, payload), 0, k, w, payload)
  {
    HeaderIsWritten(Header(DATA, k, w.top, w.bits), payload);
  }

  /** The datagram of a send: a zero byte, the next number, the receive state, the payload. */
  lemma NextDataSays(c: Conn, payload: seq<byte>)
    ensures Says(NextData(c, payload), 0, (c.sent + 1) % 0x1_0000_0000, c.window, payload)
  {
    DataPacketSays((c.sent + 1) % 0x1_0000_0000, c.window, payload);
  }

  lemma ControlPacketSays(kind: byte, w: Window)
    ensures Says(ControlPacket(kind, w), kind, 0, w, [])
    ensures Says(ControlPacket(ACK, w), 1, 0, w, [])
  {
    HeaderIsWritten(Header(kind, 0, w.top, w.bits), []);
    HeaderIsWritten(Header(ACK, 0, w.top, w.bits), []);
    ControlPacketDecodes(kind, w);
    ControlPacketDecodes(ACK, w);
  }

  // What the server does with the bytes

  /** The acknowledgement in the header covers `k`, counted forward from `k` so that it wraps. */
  predicate Covers(d: seq<byte>, k: uint32)
    requires |d| >= 13
  {
    var l := LittleEndian(d, 5);
    k == l || exists i :: 0 <= i < 32 && BitOf(d, 9, i) && (k + i + 1) % 0x1_0000_0000 == l
  }

  lemma CoversIsAcknowledges(d: seq<byte>, k: uint32)
    requires |d| >= 13
    ensures Covers(d, k) <==> Acknowledges(Decode(d).lastAcked, Decode(d).bits, k)
  {
    HeaderIsRead(d);
    var l := LittleEndian(d, 5);
    if Covers(d, k) && k != l {
      var i :| 0 <= i < 32 && BitOf(d, 9, i) && (k + i + 1) % 0x1_0000_0000 == l;
      Wraps(k, l, i);
      assert Decode(d).bits[i];
    }
    if Acknowledges(l, Decode(d).bits, k) && k != l {
      var i :| 0 <= i < 32 && Decode(d).bits[i] && k == Sub32(l, i + 1);
      Wraps(k, l, i);
      assert BitOf(d, 9, i);
    }
  }

  lemma Wraps(k: uint32, l: uint32, i: nat)
    requires i < 32
    ensures (k + i + 1) % 0x1_0000_0000 == l <==> k == Sub32(l, i + 1)
  {
  }

  lemma Int32IsRead(d: seq<byte>, g: int32)
    requires |d| == 17
    ensures ReadInt32(Payload(d)) == g <==> IsInt32(d, 13, g)
  {
    assert Payload(d) == d[13..17];
  }

  /** From a stranger only a datagram of at least 13 bytes that starts with a 2 does anything: it becomes a client. */
  lemma StrangerByByte(s: Server, a: Address, d: seq<byte>, now: real, undef: Bits)
    requires a !in s.conns
    ensures var s' := HandlePacket(s, a, d, now, undef);
            if |d| >= 13 && d[0] == 2
            then s' == s.(conns := s.conns[a := Conn(a, 0, Window(0, Zero()), now, {}, map[])])
            else s' == s
  {
  }

  /** From a client: what is too short does nothing, and a first byte of 3 ends the connection. */
  lemma ClientLeavesByByte(mode: Receiver, calls: seq<Call>, limits: Limits, a: Address, d: seq<byte>, now: real,
                           undef: Bits)
    requires a in RunServer(mode, calls, limits).conns
    ensures var s := RunServer(mode, calls, limits);
            var s' := HandlePacket(s, a, d, now, undef);
            && (|d| < 13 ==> s' == s)
            && (|d| >= 13 ==> (a in s'.conns <==> d[0] != 3))
            && (|d| >= 13 && d[0] == 3 ==> s'.conns == s.conns - {a} && forall g :: !InGroup(s', g, a))
  {
    GoodAlways(mode, calls, limits);
    var s := RunServer(mode, calls, limits);
    MirrorPacket(s, a, d, now, undef);
    var s' := HandlePacket(s, a, d, now, undef);
    assert forall g :: InGroup(s', g, a) <==> Joined(s', g, a);
  }

  /** The acknowledgement is taken off the pending table, and only a first byte of 0 moves the receive window. */
  lemma ConnectionByByte(s: Server, a: Address, d: seq<byte>, now: real, undef: Bits)
    requires a in s.conns && |d| >= 13 && d[0] != 3
    ensures var c, c' := s.conns[a], HandlePacket(s, a, d, now, undef).conns[a];
            && c'.sent == c.sent && c'.lastReceive == now && c'.address == c.address
            && c'.pending == (map k | k in c.pending && !Covers(d, k) :: c.pending[k])
            && c'.window == if d[0] == 0 then ReceiverStep(s.receiver, c.window, LittleEndian(d, 1), undef)
                            else c.window
  {
    HeaderIsRead(d);
    forall k: uint32 ensures Covers(d, k) <==> Acknowledges(Decode(d).lastAcked, Decode(d).bits, k) {
      CoversIsAcknowledges(d, k);
    }
  }

  /** The same at an endpoint of the delivery model, where the payload of a Data packet goes to the end of the inbox. */
  lemma EndpointByByte(mode: Receiver, x: Endpoint, d: seq<byte>, undef: Bits)
    requires x.live
    ensures var x' := ReceiveAt(mode, x, d, undef);
            if |d| < 13 then x' == x
            else
              && x'.live == (d[0] != 3) && x'.sent == x.sent && x'.drafts == x.drafts
              && x'.pending == (map k | k in x.pending && !Covers(d, k) :: x.pending[k])
              && x'.window == (if d[0] == 0 then ReceiverStep(mode, x.window, LittleEndian(d, 1), undef) else x.window)
              && x'.past.inbox == x.past.inbox + (if d[0] == 0 then [d[13..]] else [])
  {
    if |d| >= 13 {
      HeaderIsRead(d);
      forall k: uint32 ensures Covers(d, k) <==> Acknowledges(Decode(d).lastAcked, Decode(d).bits, k) {
        CoversIsAcknowledges(d, k);
      }
    }
  }

  /** A send takes the next number, and its bytes are laid out as `Says` says. */
  lemma AllocateByByte(x: Endpoint, payload: seq<byte>)
    ensures var x', k := AllocateAt(x, payload), (x.sent + 1) % 0x1_0000_0000;
            && x'.sent == k && x'.drafts.Keys == x.drafts.Keys + {k} && !x'.drafts[k].transmitted
            && Says(x'.drafts[k].data, 0, k, x.window, payload)
            && x'.window == x.window && x'.pending == x.pending && x'.live == x.live
  {
    DataPacketSays((x.sent + 1) % 0x1_0000_0000, x.window, payload);
  }

  /** A first byte of 6 joins the group in the four bytes after the header, a 7 leaves it; nothing else does either. */
  lemma GroupsByByte(mode: Receiver, calls: seq<Call>, limits: Limits, a: Address, d: seq<byte>, now: real, undef: Bits,
                     g: int32)
    requires a in RunServer(mode, calls, limits).conns && |d| >= 13 && d[0] != 3
    ensures var s := RunServer(mode, calls, limits);
            InGroup(HandlePacket(s, a, d, now, undef), g, a) <==>
              if |d| == 17 && d[0] == 6 then InGroup(s, g, a) || IsInt32(d, 13, g)
              else if |d| == 17 && d[0] == 7 then InGroup(s, g, a) && !IsInt32(d, 13, g)
              else InGroup(s, g, a)
  {
    GoodAlways(mode, calls, limits);
    var s := RunServer(mode, calls, limits);
    MirrorPacket(s, a, d, now, undef);
    var s' := HandlePacket(s, a, d, now, undef);
    assert (InGroup(s, g, a) <==> Joined(s, g, a)) && (InGroup(s', g, a) <==> Joined(s', g, a));
    JoinedByByte(s, a, d, now, undef, g);
  }

  lemma JoinedByByte(s: Server, a: Address, d: seq<byte>, now: real, undef: Bits, g: int32)
    requires a in s.conns && |d| >= 13 && d[0] != 3
    ensures Joined(HandlePacket(s, a, d, now, undef), g, a) <==>
              if |d| == 17 && d[0] == 6 then Joined(s, g, a) || IsInt32(d, 13, g)
              else if |d| == 17 && d[0] == 7 then Joined(s, g, a) && !IsInt32(d, 13, g)
              else Joined(s, g, a)
  {
    if |d| == 17 {
      Int32IsRead(d, g);
    }
  }

  /** The answer to Data from a client, and to a stranger's 2, is an Ack of the state it leaves. */
  lemma ReplyByByte(mode: Receiver, calls: seq<Call>, limits: Limits, a: Address, d: seq<byte>, now: real, undef: Bits)
    ensures var s := RunServer(mode, calls, limits);
            var s', out := HandlePacket(s, a, d, now, undef), Reply(s, a, d, now, undef);
            if |d| >= 13 && d[0] == (if a in s.conns then 0 else 2)
            then a in s'.conns && |out| == 1 && out[0].to == a && Says(out[0].data, 1, 0, s'.conns[a].window, [])
            else out == []
  {
    GoodAlways(mode, calls, limits);
    var s := RunServer(mode, calls, limits);
    var s' := HandlePacket(s, a, d, now, undef);
    MirrorPacket(s, a, d, now, undef);
    if a in s'.conns {
      ControlPacketSays(ACK, s'.conns[a].window);
    }
  }
}
