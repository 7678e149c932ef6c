/** The protocol-buffer wire format the generated code writes: varints, tags and length-delimited records. */
module Wire {
  import opened Options
  import opened Words

  type uint64 = n: nat | n < 0x1_0000_0000_0000_0000

  type int64 = n: int | -0x8000_0000_0000_0000 <= n < 0x8000_0000_0000_0000

  /** A bytes field; the library refuses to hold more than 2^31 - 1 bytes. */
  type Blob = b: seq<byte> | |b| < 0x8000_0000

  // Varints

  function Varint(v: nat): (b: seq<byte>)
    ensures |b| >= 1
  {
    if v < 128 then [v] else [v % 128 + 128] + Varint(v / 128)
  }

  /** A varint of at most `limit` bytes at the front of `b`, with the bytes it takes. */
  function ReadVarint(b: seq<byte>, limit: nat): (r: Option<(nat, nat)>)
    ensures r.Some? ==> 1 <= r.value.1 <= |b|
  {
    if limit == 0 || b == [] then None
    else if b[0] < 128 then Some((b[0], 1))
    else
      match ReadVarint(b[1..], limit - 1)
      case None => None
      case Some((v, n)) => Some((b[0] - 128 + 128 * v, n + 1))
  }

  /** At most ten bytes, of which the low 64 bits count. */
  function ReadVarint64(b: seq<byte>): (r: Option<(uint64, nat)>)
    ensures r.Some? ==> 1 <= r.value.1 <= |b|
  {
    match ReadVarint(b, 10)
    case None => None
    case Some((v, n)) => Some((v % 0x1_0000_0000_0000_0000, n))
  }

  /** The bytes a varint of `v` takes, as the size computation knows it. */
  function VarintSize(v: uint64): nat {
    if v < 0x80 then 1
    else if v < 0x4000 then 2
    else if v < 0x20_0000 then 3
    else if v < 0x1000_0000 then 4
    else if v < 0x8_0000_0000 then 5
    else if v < 0x400_0000_0000 then 6
    else if v < 0x2_0000_0000_0000 then 7
    else if v < 0x100_0000_0000_0000 then 8
    else if v < 0x8000_0000_0000_0000 then 9
    else 10
  }

  lemma VarintSizeStep(v: uint64)
    requires v >= 128
    ensures VarintSize(v) == 1 + VarintSize(v / 128)
  {
  }

  lemma {:induction false} VarintSizeAgrees(v: uint64)
    ensures |Varint(v)| == VarintSize(v)
  {
    if v >= 128 {
      VarintSizeAgrees(v / 128);
      VarintSizeStep(v);
    }
  }

  lemma {:induction false} VarintRoundTrip(v: nat, limit: nat, rest: seq<byte>)
    requires |Varint(v)| <= limit
    ensures ReadVarint(Varint(v) + rest, limit) == Some((v, |Varint(v)|))
  {
    var b := Varint(v) + rest;
    if v >= 128 {
      VarintRoundTrip(v / 128, limit - 1, rest);
      assert b[1..] == Varint(v / 128) + rest;
    }
  }

  lemma Varint64RoundTrip(v: uint64, rest: seq<byte>)
    ensures ReadVarint64(Varint(v) + rest) == Some((v, |Varint(v)|))
  {
    VarintSizeAgrees(v);
    VarintRoundTrip(v, 10, rest);
  }

  lemma {:induction false} ReadVarintPrefix(b: seq<byte>, more: seq<byte>, limit: nat)
    requires ReadVarint(b, limit).Some?
    ensures ReadVarint(b + more, limit) == ReadVarint(b, limit)
  {
    if b[0] >= 128 {
      ReadVarintPrefix(b[1..], more, limit - 1);
      assert (b + more)[1..] == b[1..] + more;
    }
  }

  // Signed integers; int32 is sign-extended to 64 bits on the wire

  function ToWire(n: int64): uint64 {
    if n < 0 then n + 0x1_0000_0000_0000_0000 else n
  }

  function ToInt64(v: uint64): int64 {
    if v < 0x8000_0000_0000_0000 then v else v - 0x1_0000_0000_0000_0000
  }

  function ToInt32(v: uint64): int32 {
    var low := v % 0x1_0000_0000;
    if low < 0x8000_0000 then low else low - 0x1_0000_0000
  }

  lemma Int64RoundTrip(n: int64)
    ensures ToInt64(ToWire(n)) == n
  {
  }

  lemma Int32RoundTrip(n: int32)
    ensures ToInt32(ToWire(n)) == n
  {
  }

  // Records

  datatype Record =
    | Number(field: nat, value: uint64)
    | Bytes(field: nat, data: seq<byte>)

  /** One record at the front of `b`, with the bytes it takes; wire types 0 and 2 are the ones this schema uses. */
  function ReadRecord(b: seq<byte>): (r: Option<(Record, nat)>)
    ensures r.Some? ==> 1 <= r.value.1 <= |b|
  {
    match ReadVarint64(b)
    case None => None
    case Some((tag, n)) =>
      match ReadVarint64(b[n..])
      case None => None
      case Some((v, m)) =>
        if tag % 8 == 0 then Some((Number(tag / 8, v), n + m))
        else if tag % 8 == 2 && v <= |b| - n - m then Some((Bytes(tag / 8, b[n + m..n + m + v]), n + m + v))
        else None
  }

  function Records(b: seq<byte>): Option<seq<Record>> {
    if b == [] then Some([])
    else
      match ReadRecord(b)
      case None => None
      case Some((r, n)) =>
        match Records(b[n..])
        case None => None
        case Some(rs) => Some([r] + rs)
  }

  lemma ReadVarint64Prefix(b: seq<byte>, more: seq<byte>)
    requires ReadVarint64(b).Some?
    ensures ReadVarint64(b + more) == ReadVarint64(b)
  {
    ReadVarintPrefix(b, more, 10);
  }

  lemma ReadRecordPrefix(b: seq<byte>, more: seq<byte>)
    requires ReadRecord(b).Some?
    ensures ReadRecord(b + more) == ReadRecord(b)
  {
    ReadVarint64Prefix(b, more);
    var n := ReadVarint64(b).value.1;
    ReadVarint64Prefix(b[n..], more);
    assert (b + more)[n..] == b[n..] + more;
    var (v, m) := ReadVarint64(b[n..]).value;
    if ReadVarint64(b).value.0 % 8 == 2 {
      assert (b + more)[n + m..n + m + v] == b[n + m..n + m + v];
    }
  }

  lemma RecordsStep(b: seq<byte>, r: Record, n: nat, rs: seq<Record>)
    requires b != [] && n <= |b| && ReadRecord(b) == Some((r, n)) && Records(b[n..]) == Some(rs)
    ensures Records(b) == Some([r] + rs)
  {
  }

  lemma RecordsSplit(b: seq<byte>, bs: seq<Record>) returns (r: Record, n: nat, rs: seq<Record>)
    requires b != [] && Records(b) == Some(bs)
    ensures 1 <= n <= |b| && ReadRecord(b) == Some((r, n)) && Records(b[n..]) == Some(rs) && bs == [r] + rs
  {
    r, n := ReadRecord(b).value.0, ReadRecord(b).value.1;
    rs := Records(b[n..]).value;
  }

  lemma RecordsJoin(b: seq<byte>, more: seq<byte>, r: Record, n: nat, tail: seq<Record>)
    requires 1 <= n <= |b| && ReadRecord(b) == Some((r, n)) && Records(b[n..] + more) == Some(tail)
    ensures Records(b + more) == Some([r] + tail)
  {
    ReadRecordPrefix(b, more);
    var c := b + more;
    assert c[n..] == b[n..] + more;
    RecordsStep(c, r, n, tail);
  }

  /** What a well-formed string parses to does not depend on what follows it. */
  lemma {:induction false} RecordsOfConcatenation(b: seq<byte>, bs: seq<Record>, more: seq<byte>, ms: seq<Record>)
    requires Records(b) == Some(bs) && Records(more) == Some(ms)
    ensures Records(b + more) == Some(bs + ms)
    decreases |b|
  {
    if b == [] {
      assert b + more == more && bs + ms == ms;
    } else {
      var r, n, rs := RecordsSplit(b, bs);
      RecordsOfConcatenation(b[n..], rs, more, ms);
      RecordsJoin(b, more, r, n, rs + ms);
      Regroup([r], rs, ms);
    }
  }

  // Fields as the serializer writes them; every tag of this schema is one byte

  function NumberField(tag: byte, n: int64): seq<byte> {
    [tag] + Varint(ToWire(n))
  }

  function BytesField(tag: byte, data: seq<byte>): seq<byte> {
    [tag] + Varint(|data|) + data
  }

  lemma OneRecord(b: seq<byte>, r: Record)
    requires b != [] && ReadRecord(b) == Some((r, |b|))
    ensures Records(b) == Some([r])
  {
    assert b[|b|..] == [];
    RecordsStep(b, r, |b|, []);
    assert [r] + [] == [r];
  }

  lemma TagReads(tag: byte, rest: seq<byte>)
    requires tag < 128
    ensures ReadVarint64([tag] + rest) == Some((tag, 1)) && ([tag] + rest)[1..] == rest
  {
  }

  lemma NumberFieldParses(tag: byte, n: int64)
    requires tag < 128 && tag % 8 == 0
    ensures Records(NumberField(tag, n)) == Some([Number(tag / 8, ToWire(n))])
  {
    var v := Varint(ToWire(n));
    TagReads(tag, v);
    Varint64RoundTrip(ToWire(n), []);
    assert v + [] == v;
    OneRecord(NumberField(tag, n), Number(tag / 8, ToWire(n)));
  }

  lemma BytesFieldParses(tag: byte, data: seq<byte>)
    requires tag < 128 && tag % 8 == 2 && |data| < 0x1_0000_0000_0000_0000
    ensures Records(BytesField(tag, data)) == Some([Bytes(tag / 8, data)])
  {
    var b, size := BytesField(tag, data), Varint(|data|);
    TagReads(tag, size + data);
    assert b == [tag] + (size + data);
    Varint64RoundTrip(|data|, data);
    assert b[1 + |size|..1 + |size| + |data|] == data;
    OneRecord(b, Bytes(tag / 8, data));
  }
}
