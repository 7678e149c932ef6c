/**
 The wire format of the four messages as a grammar over bytes: literal tags and
 base-128 numbers, in the order the serializers write them. The serializers
 write this grammar and the parsers read it.
 */
module MessageBytes {
  import opened Options
  import opened Words
  import opened Wire
  import opened Messages
  import opened MessageState

  /** Every byte but the last has its high bit set. */
  predicate IsVarint(b: seq<byte>) {
    |b| >= 1 && if |b| == 1 then b[0] < 128 else b[0] >= 128 && IsVarint(b[1..])
  }

  /** The low seven bits of each byte, the least significant first. */
  function Base128(b: seq<byte>): nat {
    if b == [] then 0
    else
      var first: int := b[0];
      first % 128 + 128 * Base128(b[1..])
  }

  /** A number in at most ten bytes, negative ones in two's complement of 64 bits. */
  predicate IsNumber(b: seq<byte>, n: int64) {
    IsVarint(b) && |b| <= 10 && Base128(b) == if n < 0 then n + 0x1_0000_0000_0000_0000 else n
  }

  /** The field with this tag, absent when it is zero. */
  predicate IsScalar(b: seq<byte>, tag: byte, n: int64) {
    if n == 0 then b == [] else |b| >= 1 && b[0] == tag && IsNumber(b[1..], n)
  }

  /** A tag, the length of what follows, and `data`. */
  ghost predicate IsBlob(b: seq<byte>, tag: byte, data: seq<byte>) {
    exists n :: IsBlobAt(b, tag, data, n)
  }

  predicate IsBlobAt(b: seq<byte>, tag: byte, data: seq<byte>, n: nat) {
    && 2 <= n <= |b| && b[0] == tag && b[n..] == data
    && IsVarint(b[1..n]) && n <= 11 && Base128(b[1..n]) == |data|
  }

  // The messages

  ghost predicate IsPacket(b: seq<byte>, p: Packet) {
    exists i, j, k :: IsPacketAt(b, p, i, j, k)
  }

  ghost predicate IsPacketAt(b: seq<byte>, p: Packet, i: nat, j: nat, k: nat) {
    && i <= j <= k <= |b|
    && IsScalar(b[..i], 8, p.behaviorId)
    && IsScalar(b[i..j], 16, p.ownerPlayerId)
    && IsScalar(b[j..k], 24, p.behaviorTypeId)
    && (if p.payload == [] then b[k..] == [] else IsBlob(b[k..], 34, p.payload))
  }

  ghost predicate IsSyncRequest(b: seq<byte>, m: SyncRequest) {
    exists i :: 0 <= i <= |b| && IsScalar(b[..i], 8, m.playerId) && IsScalar(b[i..], 16, m.groupId)
  }

  /** A submessage field, absent when there is none; an empty submessage is still written. */
  ghost predicate IsSubmessage(b: seq<byte>, tag: byte, p: Option<Packet>) {
    if p.None? then b == [] else exists data :: IsBlob(b, tag, data) && IsPacket(data, p.value)
  }

  ghost predicate IsRequest(b: seq<byte>, m: BehaviorRequest) {
    exists i :: 0 <= i <= |b| && IsScalar(b[..i], 8, m.groupId) && IsSubmessage(b[i..], 18, m.packet)
  }

  ghost predicate IsResponse(b: seq<byte>, m: SyncResponse) {
    IsSubmessage(b, 10, m.packet)
  }

  // The serializers write the grammar

  lemma OneMoreByte(first: byte, rest: seq<byte>)
    requires first >= 128 && IsVarint(rest)
    ensures IsVarint([first] + rest)
    ensures Base128([first] + rest) == first % 128 + 128 * Base128(rest)
  {
    var b := [first] + rest;
    assert b[1..] == rest;
  }

  lemma {:induction false} VarintIsBase128(v: nat)
    ensures IsVarint(Varint(v)) && Base128(Varint(v)) == v
  {
    if v < 128 {
      assert Base128(Varint(v)[1..]) == 0;
    } else {
      VarintIsBase128(v / 128);
      OneMoreByte(v % 128 + 128, Varint(v / 128));
    }
  }

  lemma NumberIsWritten(n: int64)
    ensures IsNumber(Varint(ToWire(n)), n) && ToInt64(ToWire(n)) == n
  {
    VarintIsBase128(ToWire(n));
    VarintSizeAgrees(ToWire(n));
  }

  lemma IntIsWritten(n: int32)
    ensures IsNumber(Varint(ToWire(n)), n) && ToInt32(ToWire(n)) == n
  {
    NumberIsWritten(n);
    Int32RoundTrip(n);
  }

  lemma ScalarIsWritten(tag: byte, n: int64)
    ensures IsScalar(NumberIfSet(tag, n), tag, n)
  {
    if n != 0 {
      NumberIsWritten(n);
      assert NumberField(tag, n)[1..] == Varint(ToWire(n));
    }
  }

  lemma BlobIsWritten(tag: byte, data: seq<byte>)
    requires |data| < 0x1_0000_0000_0000_0000
    ensures IsBlob(BytesField(tag, data), tag, data)
  {
    var b, v := BytesField(tag, data), Varint(|data|);
    VarintIsBase128(|data|);
    VarintSizeAgrees(|data|);
    assert b[1..1 + |v|] == v && b[1 + |v|..] == data;
    assert IsBlobAt(b, tag, data, 1 + |v|);
  }

  lemma FourParts<T>(a: seq<T>, b: seq<T>, c: seq<T>, d: seq<T>)
    ensures var all, i, j, k := a + b + c + d, |a|, |a| + |b|, |a| + |b| + |c|;
            all[..i] == a && all[i..j] == b && all[j..k] == c && all[k..] == d
  {
  }

  lemma PacketIsWritten(p: Packet)
    ensures IsPacket(EncodePacket(p), p)
  {
    var b1, b2 := NumberIfSet(8, p.behaviorId), NumberIfSet(16, p.ownerPlayerId);
    var b3, b4 := NumberIfSet(24, p.behaviorTypeId), BytesIfSet(34, p.payload);
    ScalarIsWritten(8, p.behaviorId);
    ScalarIsWritten(16, p.ownerPlayerId);
    ScalarIsWritten(24, p.behaviorTypeId);
    if p.payload != [] {
      BlobIsWritten(34, p.payload);
    }
    PartsAreAPacket(b1, b2, b3, b4, p);
  }

  lemma PartsAreAPacket(b1: seq<byte>, b2: seq<byte>, b3: seq<byte>, b4: seq<byte>, p: Packet)
    requires IsScalar(b1, 8, p.behaviorId) && IsScalar(b2, 16, p.ownerPlayerId) && IsScalar(b3, 24, p.behaviorTypeId)
    requires if p.payload == [] then b4 == [] else IsBlob(b4, 34, p.payload)
    ensures IsPacket(b1 + b2 + b3 + b4, p)
  {
    FourParts(b1, b2, b3, b4);
    assert IsPacketAt(b1 + b2 + b3 + b4, p, |b1|, |b1| + |b2|, |b1| + |b2| + |b3|);
  }

  /** A packet object writes the fields whose bits are set, and reading that gives just those. */
  lemma ShownIsWritten(r: RawPacket)
    ensures IsPacket(WrittenPacket(r), Shown(r)) && ParsePacket(WrittenPacket(r)) == Some(Shown(r))
  {
    WritesWhatIsShown(r);
    PacketIsWritten(Shown(r));
    PacketLaws(Shown(r), DEFAULT_PACKET);
  }

  lemma SubmessageIsWritten(tag: byte, p: Option<Packet>)
    ensures IsSubmessage(SubmessageField(tag, p), tag, p)
  {
    if p.Some? {
      EncodingIsShort(p.value);
      PacketIsWritten(p.value);
      BlobIsWritten(tag, EncodePacket(p.value));
    }
  }

  lemma SyncRequestIsWritten(m: SyncRequest)
    ensures IsSyncRequest(EncodeSyncRequest(m), m)
  {
    var b, i := EncodeSyncRequest(m), |NumberIfSet(8, m.playerId)|;
    ScalarIsWritten(8, m.playerId);
    ScalarIsWritten(16, m.groupId);
    assert b[..i] == NumberIfSet(8, m.playerId) && b[i..] == NumberIfSet(16, m.groupId);
  }

  lemma RequestIsWritten(m: BehaviorRequest)
    ensures IsRequest(EncodeRequest(m), m)
  {
    var b, i := EncodeRequest(m), |NumberIfSet(8, m.groupId)|;
    ScalarIsWritten(8, m.groupId);
    SubmessageIsWritten(18, m.packet);
    assert b[..i] == NumberIfSet(8, m.groupId) && b[i..] == SubmessageField(18, m.packet);
  }

  lemma ResponseIsWritten(m: SyncResponse)
    ensures IsResponse(EncodeResponse(m), m)
  {
    SubmessageIsWritten(10, m.packet);
  }

  // The parsers read the grammar, shortest numbers or not

  lemma {:induction false} Base128IsRead(b: seq<byte>, limit: nat, rest: seq<byte>)
    requires IsVarint(b) && |b| <= limit
    ensures ReadVarint(b + rest, limit) == Some((Base128(b), |b|))
  {
    var c := b + rest;
    if |b| == 1 {
      assert Base128(b[1..]) == 0;
    } else {
      Base128IsRead(b[1..], limit - 1, rest);
      assert c[1..] == b[1..] + rest;
    }
  }

  lemma FieldIsRead(b: seq<byte>, tag: byte, v: nat)
    requires |b| >= 2 && b[0] == tag && tag < 128 && tag % 8 == 0
    requires IsVarint(b[1..]) && |b| <= 11 && Base128(b[1..]) == v
    ensures Records(b) == Some([Number(tag / 8, v % 0x1_0000_0000_0000_0000)])
  {
    TagReads(tag, b[1..]);
    assert b == [tag] + b[1..] && b[1..] + [] == b[1..];
    Base128IsRead(b[1..], 10, []);
    OneRecord(b, Number(tag / 8, v % 0x1_0000_0000_0000_0000));
  }

  lemma BlobIsRead(b: seq<byte>, tag: byte, data: seq<byte>)
    requires IsBlob(b, tag, data) && tag < 128 && tag % 8 == 2 && |data| < 0x1_0000_0000_0000_0000
    ensures Records(b) == Some([Bytes(tag / 8, data)])
  {
    var n: nat :| IsBlobAt(b, tag, data, n);
    BlobAtIsRead(b, tag, b[1..n], data);
    assert b == [tag] + b[1..n] + data;
  }

  lemma BlobAtIsRead(b: seq<byte>, tag: byte, size: seq<byte>, data: seq<byte>)
    requires b == [tag] + size + data && tag < 128 && tag % 8 == 2 && |data| < 0x1_0000_0000_0000_0000
    requires IsVarint(size) && |size| <= 10 && Base128(size) == |data|
    ensures Records(b) == Some([Bytes(tag / 8, data)])
  {
    Regroup([tag], size, data);
    TagReads(tag, size + data);
    Base128IsRead(size, 10, data);
    assert b[1 + |size|..1 + |size| + |data|] == data;
    OneRecord(b, Bytes(tag / 8, data));
  }

  lemma ScalarIsRead<M>(step: (M, Record) -> Option<M>, m: M, m': M, b: seq<byte>, tag: byte, n: int64)
    requires IsScalar(b, tag, n) && tag < 128 && tag % 8 == 0
    requires n == 0 ==> m' == m
    requires n != 0 ==> step(m, Number(tag / 8, if n < 0 then n + 0x1_0000_0000_0000_0000 else n)) == Some(m')
    ensures ParseInto(step, m, b) == Some(m')
  {
    if n == 0 {
      ParseNothing(step, m);
    } else {
      FieldIsRead(b, tag, Base128(b[1..]));
      ParseOne(step, m, b, Number(tag / 8, if n < 0 then n + 0x1_0000_0000_0000_0000 else n));
    }
  }

  lemma PartsOf<T>(b: seq<T>, i: nat, j: nat, k: nat)
    requires i <= j <= k <= |b|
    ensures b == b[..i] + b[i..j] + b[j..k] + b[k..]
  {
  }

  lemma PacketFieldsAreRead(b: seq<byte>, m: Packet, p: Packet, i: nat, j: nat, k: nat)
    requires IsPacketAt(b, p, i, j, k) && |b| < 0x1_0000_0000_0000_0000
    ensures ParseInto(PacketStep, m, b) == Some(MergePacket(m, p))
  {
    PartsOf(b, i, j, k);
    PartsAreRead(b[..i], b[i..j], b[j..k], b[k..], m, p);
  }

  lemma PartsAreRead(b1: seq<byte>, b2: seq<byte>, b3: seq<byte>, b4: seq<byte>, m: Packet, p: Packet)
    requires IsScalar(b1, 8, p.behaviorId) && IsScalar(b2, 16, p.ownerPlayerId) && IsScalar(b3, 24, p.behaviorTypeId)
    requires if p.payload == [] then b4 == [] else IsBlob(b4, 34, p.payload)
    ensures ParseInto(PacketStep, m, b1 + b2 + b3 + b4) == Some(MergePacket(m, p))
  {
    var m1 := m.(behaviorId := Newer(m.behaviorId, p.behaviorId, 0));
    var m2 := m1.(ownerPlayerId := Newer(m.ownerPlayerId, p.ownerPlayerId, 0));
    var m3 := m2.(behaviorTypeId := Newer(m.behaviorTypeId, p.behaviorTypeId, 0));
    BehaviorIdIsRead(m, b1, p.behaviorId);
    OwnerIsRead(m1, b2, p.ownerPlayerId);
    TypeIsRead(m2, b3, p.behaviorTypeId);
    PayloadIsRead(m3, MergePacket(m, p), b4, p.payload);
    InFourSteps(PacketStep, m, b1, m1, b2, m2, b3, m3, b4, MergePacket(m, p));
  }

  lemma InFourSteps<M>(step: (M, Record) -> Option<M>, m: M, b1: seq<byte>, m1: M, b2: seq<byte>, m2: M,
                       b3: seq<byte>, m3: M, b4: seq<byte>, m4: M)
    requires ParseInto(step, m, b1) == Some(m1) && ParseInto(step, m1, b2) == Some(m2)
    requires ParseInto(step, m2, b3) == Some(m3) && ParseInto(step, m3, b4) == Some(m4)
    ensures ParseInto(step, m, b1 + b2 + b3 + b4) == Some(m4)
  {
    ParseConcatenation(step, m, b1, m1, b2, m2);
    ParseConcatenation(step, m, b1 + b2, m2, b3, m3);
    ParseConcatenation(step, m, b1 + b2 + b3, m3, b4, m4);
  }

  lemma TwosComplement(n: int32)
    ensures ToInt32(if n < 0 then n + 0x1_0000_0000_0000_0000 else n) == n
  {
  }

  lemma BehaviorIdIsRead(m: Packet, b: seq<byte>, n: int64)
    requires IsScalar(b, 8, n)
    ensures ParseInto(PacketStep, m, b) == Some(m.(behaviorId := Newer(m.behaviorId, n, 0)))
  {
    ScalarIsRead(PacketStep, m, m.(behaviorId := Newer(m.behaviorId, n, 0)), b, 8, n);
  }

  lemma OwnerIsRead(m: Packet, b: seq<byte>, n: int64)
    requires IsScalar(b, 16, n)
    ensures ParseInto(PacketStep, m, b) == Some(m.(ownerPlayerId := Newer(m.ownerPlayerId, n, 0)))
  {
    ScalarIsRead(PacketStep, m, m.(ownerPlayerId := Newer(m.ownerPlayerId, n, 0)), b, 16, n);
  }

  lemma TypeIsRead(m: Packet, b: seq<byte>, n: int32)
    requires IsScalar(b, 24, n)
    ensures ParseInto(PacketStep, m, b) == Some(m.(behaviorTypeId := Newer(m.behaviorTypeId, n, 0)))
  {
    TwosComplement(n);
    ScalarIsRead(PacketStep, m, m.(behaviorTypeId := Newer(m.behaviorTypeId, n, 0)), b, 24, n);
  }

  lemma PayloadIsRead(m: Packet, m': Packet, b: seq<byte>, payload: Blob)
    requires if payload == [] then b == [] else IsBlob(b, 34, payload)
    requires m' == if payload == [] then m else m.(payload := payload)
    ensures ParseInto(PacketStep, m, b) == Some(m')
  {
    if payload == [] {
      ParseNothing(PacketStep, m);
    } else {
      BlobIsRead(b, 34, payload);
      ParseOne(PacketStep, m, b, Bytes(4, payload));
    }
  }

  /** Whatever writes a packet in this grammar, reading it gives the packet, and reading it into another merges it. */
  lemma PacketIsRead(b: seq<byte>, m: Packet, p: Packet)
    requires IsPacket(b, p) && |b| < 0x1_0000_0000_0000_0000
    ensures ParsePacket(b) == Some(p) && ParseInto(PacketStep, m, b) == Some(MergePacket(m, p))
  {
    var i, j, k :| IsPacketAt(b, p, i, j, k);
    PacketFieldsAreRead(b, DEFAULT_PACKET, p, i, j, k);
    PacketFieldsAreRead(b, m, p, i, j, k);
    assert MergePacket(DEFAULT_PACKET, p) == p;
  }

  lemma SubmessageIsRead<M>(step: (M, Record) -> Option<M>, m: M, m': M, b: seq<byte>, tag: byte, p: Option<Packet>)
    requires IsSubmessage(b, tag, p) && tag < 128 && tag % 8 == 2 && |b| < 0x1_0000_0000_0000_0000
    requires p.None? ==> m' == m
    requires p.Some? ==> forall data | IsPacket(data, p.value) && |data| <= |b| ::
               step(m, Bytes(tag / 8, data)) == Some(m')
    ensures ParseInto(step, m, b) == Some(m')
  {
    if p.None? {
      ParseNothing(step, m);
    } else {
      var data :| IsBlob(b, tag, data) && IsPacket(data, p.value);
      var n: nat :| IsBlobAt(b, tag, data, n);
      BlobIsRead(b, tag, data);
      ParseOne(step, m, b, Bytes(tag / 8, data));
    }
  }

  lemma PlayerIsRead(b: seq<byte>, n: int64)
    requires IsScalar(b, 8, n)
    ensures ParseInto(SyncRequestStep, DEFAULT_SYNC_REQUEST, b) == Some(SyncRequest(n, 0))
  {
    ScalarIsRead(SyncRequestStep, DEFAULT_SYNC_REQUEST, SyncRequest(n, 0), b, 8, n);
  }

  lemma GroupIsRead(player: int64, b: seq<byte>, n: int32)
    requires IsScalar(b, 16, n)
    ensures ParseInto(SyncRequestStep, SyncRequest(player, 0), b) == Some(SyncRequest(player, n))
  {
    TwosComplement(n);
    ScalarIsRead(SyncRequestStep, SyncRequest(player, 0), SyncRequest(player, n), b, 16, n);
  }

  lemma SyncRequestIsRead(b: seq<byte>, m: SyncRequest)
    requires IsSyncRequest(b, m)
    ensures ParseSyncRequest(b) == Some(m)
  {
    var i :| 0 <= i <= |b| && IsScalar(b[..i], 8, m.playerId) && IsScalar(b[i..], 16, m.groupId);
    TwoParts(b, i);
    InTwoParts(b[..i], b[i..], m);
  }

  lemma TwoParts<T>(b: seq<T>, i: nat)
    requires i <= |b|
    ensures b[..i] + b[i..] == b
  {
  }

  lemma InTwoParts(b1: seq<byte>, b2: seq<byte>, m: SyncRequest)
    requires IsScalar(b1, 8, m.playerId) && IsScalar(b2, 16, m.groupId)
    ensures ParseSyncRequest(b1 + b2) == Some(m)
  {
    PlayerIsRead(b1, m.playerId);
    GroupIsRead(m.playerId, b2, m.groupId);
    ParseConcatenation(SyncRequestStep, DEFAULT_SYNC_REQUEST, b1, SyncRequest(m.playerId, 0), b2, m);
  }

  lemma PacketOfRequestIsRead(b: seq<byte>, m1: BehaviorRequest, m: BehaviorRequest)
    requires IsSubmessage(b, 18, m.packet) && m1 == m.(packet := None) && |b| < 0x1_0000_0000_0000_0000
    ensures ParseInto(RequestStep, m1, b) == Some(m)
  {
    if m.packet.Some? {
      forall data | IsPacket(data, m.packet.value) && |data| <= |b| ensures RequestStep(m1, Bytes(2, data)) == Some(m) {
        PacketIsRead(data, DEFAULT_PACKET, m.packet.value);
      }
    }
    SubmessageIsRead(RequestStep, m1, m, b, 18, m.packet);
  }

  lemma RequestIsRead(b: seq<byte>, m: BehaviorRequest)
    requires IsRequest(b, m) && |b| < 0x1_0000_0000_0000_0000
    ensures ParseRequest(b) == Some(m)
  {
    var i :| 0 <= i <= |b| && IsScalar(b[..i], 8, m.groupId) && IsSubmessage(b[i..], 18, m.packet);
    TwoParts(b, i);
    RequestInTwoParts(b[..i], b[i..], m);
  }

  lemma RequestInTwoParts(b1: seq<byte>, b2: seq<byte>, m: BehaviorRequest)
    requires IsScalar(b1, 8, m.groupId) && IsSubmessage(b2, 18, m.packet) && |b2| < 0x1_0000_0000_0000_0000
    ensures ParseRequest(b1 + b2) == Some(m)
  {
    var m1 := m.(packet := None);
    GroupOfRequestIsRead(b1, m.groupId);
    PacketOfRequestIsRead(b2, m1, m);
    ParseConcatenation(RequestStep, DEFAULT_REQUEST, b1, m1, b2, m);
  }

  lemma GroupOfRequestIsRead(b: seq<byte>, n: int32)
    requires IsScalar(b, 8, n)
    ensures ParseInto(RequestStep, DEFAULT_REQUEST, b) == Some(BehaviorRequest(n, None))
  {
    TwosComplement(n);
    ScalarIsRead(RequestStep, DEFAULT_REQUEST, BehaviorRequest(n, None), b, 8, n);
  }

  lemma ResponseIsRead(b: seq<byte>, m: SyncResponse)
    requires IsResponse(b, m) && |b| < 0x1_0000_0000_0000_0000
    ensures ParseResponse(b) == Some(m)
  {
    if m.packet.Some? {
      forall data | IsPacket(data, m.packet.value) && |data| <= |b|
        ensures ResponseStep(DEFAULT_RESPONSE, Bytes(1, data)) == Some(m)
      {
        PacketIsRead(data, DEFAULT_PACKET, m.packet.value);
      }
    }
    SubmessageIsRead(ResponseStep, DEFAULT_RESPONSE, m, b, 10, m.packet);
  }

  // Two messages laid end to end

  /** Every field is the later one, unless that is zero or empty. */
  predicate Overlays(m: Packet, a: Packet, b: Packet) {
    && m.behaviorId == (if b.behaviorId == 0 then a.behaviorId else b.behaviorId)
    && m.ownerPlayerId == (if b.ownerPlayerId == 0 then a.ownerPlayerId else b.ownerPlayerId)
    && m.behaviorTypeId == (if b.behaviorTypeId == 0 then a.behaviorTypeId else b.behaviorTypeId)
    && m.payload == (if b.payload == [] then a.payload else b.payload)
  }

  /** A later submessage is laid over an earlier one; an absent one changes nothing. */
  predicate OverlaysOption(m: Option<Packet>, a: Option<Packet>, b: Option<Packet>) {
    if b.None? then m == a
    else m.Some? && Overlays(m.value, if a.None? then Packet(0, 0, 0, []) else a.value, b.value)
  }

  lemma LaterPacketWins(b: seq<byte>, c: seq<byte>, p: Packet, q: Packet)
    requires IsPacket(b, p) && IsPacket(c, q)
    requires |b| < 0x1_0000_0000_0000_0000 && |c| < 0x1_0000_0000_0000_0000
    ensures ParsePacket(b + c).Some? && Overlays(ParsePacket(b + c).value, p, q)
  {
    PacketIsRead(b, DEFAULT_PACKET, p);
    PacketIsRead(c, p, q);
    assert MergePacket(DEFAULT_PACKET, p) == p;
    ParseConcatenation(PacketStep, DEFAULT_PACKET, b, p, c, MergePacket(p, q));
  }

  lemma LaterSyncRequestWins(p: SyncRequest, q: SyncRequest)
    ensures ParseSyncRequest(EncodeSyncRequest(p) + EncodeSyncRequest(q)) ==
            Some(SyncRequest(if q.playerId == 0 then p.playerId else q.playerId,
                             if q.groupId == 0 then p.groupId else q.groupId))
  {
    SyncRequestLaws(p, q);
  }

  lemma LaterRequestWins(p: BehaviorRequest, q: BehaviorRequest)
    ensures var m := ParseRequest(EncodeRequest(p) + EncodeRequest(q));
            && m.Some? && m.value.groupId == (if q.groupId == 0 then p.groupId else q.groupId)
            && OverlaysOption(m.value.packet, p.packet, q.packet)
  {
    RequestLaws(p, q);
  }

  lemma LaterResponseWins(p: SyncResponse, q: SyncResponse)
    ensures var m := ParseResponse(EncodeResponse(p) + EncodeResponse(q));
            m.Some? && OverlaysOption(m.value.packet, p.packet, q.packet)
  {
    ResponseLaws(p, q);
  }

  // The parser accepts nothing else

  /** A tag and a number, or a tag, a length and that many bytes; tag and number count modulo 2^64. */
  predicate IsRecordOf(tag: seq<byte>, number: seq<byte>, data: seq<byte>, r: Record) {
    && IsVarint(tag) && |tag| <= 10 && IsVarint(number) && |number| <= 10
    && (var t, n := Base128(tag) % 0x1_0000_0000_0000_0000, Base128(number) % 0x1_0000_0000_0000_0000;
        match r
        case Number(field, value) => t == 8 * field && n == value && data == []
        case Bytes(field, content) => t == 8 * field + 2 && n == |content| && data == content)
  }

  ghost predicate IsRecord(b: seq<byte>, r: Record) {
    exists tag, number, data :: IsRecordOf(tag, number, data, r) && b == tag + number + data
  }

  /** `b` is these records, one after the other. */
  ghost predicate AreRecords(b: seq<byte>, rs: seq<Record>)
    decreases |rs|
  {
    if rs == [] then b == []
    else exists first, rest :: b == first + rest && IsRecord(first, rs[0]) && AreRecords(rest, rs[1..])
  }

  lemma {:induction false} VarintIsFound(b: seq<byte>, limit: nat)
    requires ReadVarint(b, limit).Some?
    ensures var (v, n) := ReadVarint(b, limit).value; n <= limit && IsVarint(b[..n]) && Base128(b[..n]) == v
  {
    if b[0] < 128 {
      assert b[..1][1..] == [];
    } else {
      VarintIsFound(b[1..], limit - 1);
      var n := ReadVarint(b[1..], limit - 1).value.1;
      assert b[..n + 1] == [b[0]] + b[1..][..n];
      OneMoreByte(b[0], b[1..][..n]);
    }
  }

  lemma TagOrNumberIsFound(b: seq<byte>, v: uint64, n: nat)
    requires ReadVarint64(b) == Some((v, n))
    ensures n <= |b| && n <= 10 && IsVarint(b[..n]) && Base128(b[..n]) % 0x1_0000_0000_0000_0000 == v
  {
    VarintIsFound(b, 10);
  }

  lemma TagOrNumberIsRead(b: seq<byte>, more: seq<byte>)
    requires IsVarint(b) && |b| <= 10
    ensures ReadVarint64(b + more) == Some((Base128(b) % 0x1_0000_0000_0000_0000, |b|))
    ensures (b + more)[|b|..] == more
  {
    Base128IsRead(b, 10, more);
  }

  lemma ThreeParts<T>(b: seq<T>, n: nat, m: nat, k: nat)
    requires n + m <= k <= |b|
    ensures b[..k] == b[..n] + b[n..][..m] + b[n + m..k]
  {
  }

  lemma RecordIsFound(b: seq<byte>, r: Record, k: nat)
    requires ReadRecord(b) == Some((r, k))
    ensures k <= |b| && IsRecord(b[..k], r)
  {
    var (t, n) := ReadVarint64(b).value;
    var (v, m) := ReadVarint64(b[n..]).value;
    TagOrNumberIsFound(b, t, n);
    TagOrNumberIsFound(b[n..], v, m);
    ThreeParts(b, n, m, k);
    assert IsRecordOf(b[..n], b[n..][..m], b[n + m..k], r);
  }

  lemma FrontOf<T>(a: seq<T>, b: seq<T>, c: seq<T>)
    ensures (a + b + c)[|a|..] == b + c && (a + b + c)[|a|..|a| + |b|] == b
  {
  }

  lemma PartsAreARecord(tag: seq<byte>, number: seq<byte>, data: seq<byte>, r: Record, more: seq<byte>)
    requires IsRecordOf(tag, number, data, r)
    ensures ReadRecord(tag + (number + (data + more))) == Some((r, |tag| + |number| + |data|))
  {
    var b := tag + (number + (data + more));
    TagOrNumberIsRead(tag, number + (data + more));
    TagOrNumberIsRead(number, data + more);
    Regroup(tag, number, data + more);
    FrontOf(tag + number, data, more);
    Regroup(tag + number, data, more);
    assert b[|tag| + |number|..|tag| + |number| + |data|] == data;
  }

  lemma RecordIsRead(b: seq<byte>, r: Record, more: seq<byte>)
    requires IsRecord(b, r)
    ensures b != [] && ReadRecord(b + more) == Some((r, |b|))
  {
    var tag, number, data :| IsRecordOf(tag, number, data, r) && b == tag + number + data;
    PartsAreARecord(tag, number, data, r, more);
    Regroup(tag + number, data, more);
    Regroup(tag, number, data + more);
  }

  lemma {:induction false} RecordsAreFound(b: seq<byte>, rs: seq<Record>)
    requires Records(b) == Some(rs)
    ensures AreRecords(b, rs)
    decreases |b|
  {
    if b != [] {
      var r, n, rest := RecordsSplit(b, rs);
      RecordIsFound(b, r, n);
      RecordsAreFound(b[n..], rest);
      TwoParts(b, n);
      assert rs[0] == r && rs[1..] == rest;
      assert b == b[..n] + b[n..] && IsRecord(b[..n], rs[0]) && AreRecords(b[n..], rs[1..]);
    }
  }

  lemma {:induction false} RecordsAreRead(b: seq<byte>, rs: seq<Record>)
    requires AreRecords(b, rs)
    ensures Records(b) == Some(rs)
    decreases |rs|
  {
    if rs != [] {
      var first, rest :| b == first + rest && IsRecord(first, rs[0]) && AreRecords(rest, rs[1..]);
      RecordsAreRead(rest, rs[1..]);
      FirstIsRead(first, rest, rs[0], rs[1..]);
      assert [rs[0]] + rs[1..] == rs;
    }
  }

  lemma FirstIsRead(first: seq<byte>, rest: seq<byte>, r: Record, rs: seq<Record>)
    requires IsRecord(first, r) && Records(rest) == Some(rs)
    ensures Records(first + rest) == Some([r] + rs)
  {
    RecordIsRead(first, r, rest);
    var b := first + rest;
    assert b[|first|..] == rest;
    RecordsStep(b, r, |first|, rs);
  }

  /** A string of bytes parses to a list of records if and only if it is that list, written in any admissible way. */
  lemma RecordsExactly(b: seq<byte>, rs: seq<Record>)
    ensures Records(b) == Some(rs) <==> AreRecords(b, rs)
  {
    if Records(b) == Some(rs) { RecordsAreFound(b, rs); }
    if AreRecords(b, rs) { RecordsAreRead(b, rs); }
  }
}
