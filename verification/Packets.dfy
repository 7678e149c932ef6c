/** The packed 13-byte header and the datagrams that carry it. */
module Packets {
  import opened Words

  // EPacketType; any other byte value is possible in a received header
  const DATA: byte := 0
  const ACK: byte := 1
  const CONNECT: byte := 2
  const DISCONNECT: byte := 3
  const PING: byte := 4
  const PONG: byte := 5
  const JOIN_GROUP: byte := 6
  const LEAVE_GROUP: byte := 7

  const HEADER_SIZE := 13

  datatype Header = Header(kind: byte, sequence: uint32, lastAcked: uint32, bits: Bits)

  function Word(n: uint32): (b: seq<byte>)
    ensures |b| == 4
  {
    var n1 := n / 0x100;
    var n2 := n1 / 0x100;
    [n % 0x100, n1 % 0x100, n2 % 0x100, n2 / 0x100]
  }

  function ReadWord(b: seq<byte>): uint32
    requires |b| == 4
  {
    var b0: int, b1: int, b2: int, b3: int := b[0], b[1], b[2], b[3];
    b0 + 0x100 * (b1 + 0x100 * (b2 + 0x100 * b3))
  }

  function BitsWord(b: Bits): (w: seq<byte>)
    ensures |w| == 4
  {
    BitsFit(b);
    Word(Value(b))
  }

  function Encode(h: Header): (b: seq<byte>)
    ensures |b| == HEADER_SIZE
  {
    [h.kind] + Word(h.sequence) + Word(h.lastAcked) + BitsWord(h.bits)
  }

  /** The header at the front of a datagram, as Memcpy reads it. */
  function Decode(d: seq<byte>): Header
    requires |d| >= HEADER_SIZE
  {
    Header(d[0], ReadWord(d[1..5]), ReadWord(d[5..9]), LowBits(ReadWord(d[9..13]), 32))
  }

  function Payload(d: seq<byte>): seq<byte>
    requires |d| >= HEADER_SIZE
  {
    d[HEADER_SIZE..]
  }

  /** A four-byte payload read as int32. */
  function ReadInt32(b: seq<byte>): int32
    requires |b| == 4
  {
    var n := ReadWord(b);
    if n < 0x8000_0000 then n else n - 0x1_0000_0000
  }

  lemma WordRoundTrip(n: uint32)
    ensures ReadWord(Word(n)) == n
  {
  }

  lemma ReadWordInjective(b: seq<byte>)
    requires |b| == 4
    ensures Word(ReadWord(b)) == b
  {
    var b1: int, b2: int, b3: int := b[1], b[2], b[3];
    LowByte(b[2], b3);
    LowByte(b[1], b2 + 0x100 * b3);
    LowByte(b[0], b1 + 0x100 * (b2 + 0x100 * b3));
  }

  lemma LowByte(b: byte, m: nat)
    ensures var b': int := b; (b' + 0x100 * m) % 0x100 == b && (b' + 0x100 * m) / 0x100 == m
  {
  }

  lemma BitsRoundTrip(b: Bits)
    ensures LowBits(ReadWord(BitsWord(b)), 32) == b
  {
    BitsFit(b);
    WordRoundTrip(Value(b));
    LowBitsOfValue(b);
  }

  /** Reading a datagram recovers the header and the payload it was built from. */
  lemma DecodeEncode(h: Header, payload: seq<byte>)
    ensures Decode(Encode(h) + payload) == h
    ensures Payload(Encode(h) + payload) == payload
  {
    var kind, w1, w2, w3 := [h.kind], Word(h.sequence), Word(h.lastAcked), BitsWord(h.bits);
    var d := kind + w1 + w2 + w3 + payload;
    assert d[1..5] == w1 && d[5..9] == w2 && d[9..13] == w3 && d[13..] == payload;
    WordRoundTrip(h.sequence);
    WordRoundTrip(h.lastAcked);
    BitsRoundTrip(h.bits);
  }

  /** Every datagram long enough to hold a header is the encoding of what it decodes to. */
  lemma EncodeDecode(d: seq<byte>)
    requires |d| >= HEADER_SIZE
    ensures Encode(Decode(d)) + Payload(d) == d
  {
    ReadWordInjective(d[1..5]);
    ReadWordInjective(d[5..9]);
    ReadWordInjective(d[9..13]);
    Pow2Of32();
    ValueOfLowBits(ReadWord(d[9..13]), 32);
    var h := Decode(d);
    assert Word(h.sequence) == d[1..5] && Word(h.lastAcked) == d[5..9] && BitsWord(h.bits) == d[9..13];
    assert d == [d[0]] + d[1..5] + d[5..9] + d[9..13] + d[13..];
  }
}
