/** The four messages of the hkt schema as values: encoding, parsing and merging. */
module Messages {
  import opened Options
  import opened Words
  import opened Wire

  datatype SyncRequest = SyncRequest(playerId: int64, groupId: int32)

  datatype Packet = Packet(behaviorId: int64, ownerPlayerId: int64, behaviorTypeId: int32, payload: Blob)

  datatype BehaviorRequest = BehaviorRequest(groupId: int32, packet: Option<Packet>)

  datatype SyncResponse = SyncResponse(packet: Option<Packet>)

  const DEFAULT_SYNC_REQUEST := SyncRequest(0, 0)
  const DEFAULT_PACKET := Packet(0, 0, 0, [])
  const DEFAULT_REQUEST := BehaviorRequest(0, None)
  const DEFAULT_RESPONSE := SyncResponse(None)

  // Serialization: a scalar is written unless it is zero, a submessage whenever it is present

  function NumberIfSet(tag: byte, n: int64): seq<byte> {
    if n != 0 then NumberField(tag, n) else []
  }

  function BytesIfSet(tag: byte, data: seq<byte>): seq<byte> {
    if data != [] then BytesField(tag, data) else []
  }

  function EncodePacket(p: Packet): seq<byte> {
    NumberIfSet(8, p.behaviorId) + NumberIfSet(16, p.ownerPlayerId) + NumberIfSet(24, p.behaviorTypeId)
      + BytesIfSet(34, p.payload)
  }

  function SubmessageField(tag: byte, p: Option<Packet>): seq<byte> {
    if p.Some? then BytesField(tag, EncodePacket(p.value)) else []
  }

  function EncodeSyncRequest(m: SyncRequest): seq<byte> {
    NumberIfSet(8, m.playerId) + NumberIfSet(16, m.groupId)
  }

  function EncodeRequest(m: BehaviorRequest): seq<byte> {
    NumberIfSet(8, m.groupId) + SubmessageField(18, m.packet)
  }

  function EncodeResponse(m: SyncResponse): seq<byte> {
    SubmessageField(10, m.packet)
  }

  // Merging, as MergeImpl does it: what is set in `b` wins

  function Newer<T(==)>(a: T, b: T, unset: T): T {
    if b != unset then b else a
  }

  function MergePacket(a: Packet, b: Packet): Packet {
    Packet(Newer(a.behaviorId, b.behaviorId, 0), Newer(a.ownerPlayerId, b.ownerPlayerId, 0),
           Newer(a.behaviorTypeId, b.behaviorTypeId, 0), Newer(a.payload, b.payload, []))
  }

  function MergeSubmessage(a: Option<Packet>, b: Option<Packet>): Option<Packet> {
    if b.None? then a
    else if a.None? then b
    else Some(MergePacket(a.value, b.value))
  }

  function MergeSyncRequest(a: SyncRequest, b: SyncRequest): SyncRequest {
    SyncRequest(Newer(a.playerId, b.playerId, 0), Newer(a.groupId, b.groupId, 0))
  }

  function MergeRequest(a: BehaviorRequest, b: BehaviorRequest): BehaviorRequest {
    BehaviorRequest(Newer(a.groupId, b.groupId, 0), MergeSubmessage(a.packet, b.packet))
  }

  function MergeResponse(a: SyncResponse, b: SyncResponse): SyncResponse {
    SyncResponse(MergeSubmessage(a.packet, b.packet))
  }

  // Parsing: one step per record of the parse tables, the last occurrence of a field wins, submessages merge.
  // A record no table row knows is outside this model.

  function Fold<M>(step: (M, Record) -> Option<M>, m: M, rs: seq<Record>): Option<M> {
    if rs == [] then Some(m)
    else
      match step(m, rs[0])
      case None => None
      case Some(m') => Fold(step, m', rs[1..])
  }

  function ParseInto<M>(step: (M, Record) -> Option<M>, m: M, b: seq<byte>): Option<M> {
    match Records(b)
    case None => None
    case Some(rs) => Fold(step, m, rs)
  }

  function PacketStep(m: Packet, r: Record): Option<Packet> {
    match r
    case Number(1, v) => Some(m.(behaviorId := ToInt64(v)))
    case Number(2, v) => Some(m.(ownerPlayerId := ToInt64(v)))
    case Number(3, v) => Some(m.(behaviorTypeId := ToInt32(v)))
    case Bytes(4, data) => if |data| < 0x8000_0000 then Some(m.(payload := data)) else None
    case _ => None
  }

  function SubmessageStep(p: Option<Packet>, data: seq<byte>): Option<Packet> {
    ParseInto(PacketStep, if p.Some? then p.value else DEFAULT_PACKET, data)
  }

  function SyncRequestStep(m: SyncRequest, r: Record): Option<SyncRequest> {
    match r
    case Number(1, v) => Some(m.(playerId := ToInt64(v)))
    case Number(2, v) => Some(m.(groupId := ToInt32(v)))
    case _ => None
  }

  function RequestStep(m: BehaviorRequest, r: Record): Option<BehaviorRequest> {
    match r
    case Number(1, v) => Some(m.(groupId := ToInt32(v)))
    case Bytes(2, data) =>
      var p := SubmessageStep(m.packet, data);
      if p.Some? then Some(m.(packet := p)) else None
    case _ => None
  }

  function ResponseStep(m: SyncResponse, r: Record): Option<SyncResponse> {
    match r
    case Bytes(1, data) =>
      var p := SubmessageStep(m.packet, data);
      if p.Some? then Some(m.(packet := p)) else None
    case _ => None
  }

  function ParseSyncRequest(b: seq<byte>): Option<SyncRequest> {
    ParseInto(SyncRequestStep, DEFAULT_SYNC_REQUEST, b)
  }

  function ParsePacket(b: seq<byte>): Option<Packet> {
    ParseInto(PacketStep, DEFAULT_PACKET, b)
  }

  function ParseRequest(b: seq<byte>): Option<BehaviorRequest> {
    ParseInto(RequestStep, DEFAULT_REQUEST, b)
  }

  function ParseResponse(b: seq<byte>): Option<SyncResponse> {
    ParseInto(ResponseStep, DEFAULT_RESPONSE, b)
  }

  lemma {:induction false} FoldAppend<M>(step: (M, Record) -> Option<M>, m: M, rs: seq<Record>, m': M,
                                         more: seq<Record>)
    requires Fold(step, m, rs) == Some(m')
    ensures Fold(step, m, rs + more) == Fold(step, m', more)
  {
    if rs == [] {
      assert rs + more == more;
    } else {
      FoldAppend(step, step(m, rs[0]).value, rs[1..], m', more);
      assert (rs + more)[1..] == rs[1..] + more;
    }
  }

  /** Parsing a concatenation is parsing the second part into what the first part gave. */
  lemma ParseConcatenation<M>(step: (M, Record) -> Option<M>, m: M, b: seq<byte>, m': M, more: seq<byte>, m'': M)
    requires ParseInto(step, m, b) == Some(m') && ParseInto(step, m', more) == Some(m'')
    ensures ParseInto(step, m, b + more) == Some(m'')
  {
    var bs, ms := Records(b).value, Records(more).value;
    RecordsOfConcatenation(b, bs, more, ms);
    FoldAppend(step, m, bs, m', ms);
  }

  lemma ParseNothing<M>(step: (M, Record) -> Option<M>, m: M)
    ensures ParseInto(step, m, []) == Some(m)
  {
  }

  lemma ParseOne<M>(step: (M, Record) -> Option<M>, m: M, b: seq<byte>, r: Record)
    requires Records(b) == Some([r])
    ensures ParseInto(step, m, b) == step(m, r)
  {
    assert [r][1..] == [];
    if step(m, r).Some? {
      assert Fold(step, step(m, r).value, [r][1..]) == step(m, r);
    }
  }

  lemma EncodingIsShort(p: Packet)
    ensures |EncodePacket(p)| < 0x1_0000_0000
  {
    VarintSizeAgrees(ToWire(p.behaviorId));
    VarintSizeAgrees(ToWire(p.ownerPlayerId));
    VarintSizeAgrees(ToWire(p.behaviorTypeId));
    VarintSizeAgrees(|p.payload|);
  }

  /** Parsing the encoding of `p` into `m` merges `p` into `m`. */
  lemma PacketMerges(m: Packet, p: Packet)
    ensures ParseInto(PacketStep, m, EncodePacket(p)) == Some(MergePacket(m, p))
  {
    var b1, b2, b3, b4 := NumberIfSet(8, p.behaviorId), NumberIfSet(16, p.ownerPlayerId),
      NumberIfSet(24, p.behaviorTypeId), BytesIfSet(34, p.payload);
    var m1 := m.(behaviorId := Newer(m.behaviorId, p.behaviorId, 0));
    var m2 := m1.(ownerPlayerId := Newer(m.ownerPlayerId, p.ownerPlayerId, 0));
    var m3 := m2.(behaviorTypeId := Newer(m.behaviorTypeId, p.behaviorTypeId, 0));
    assert ParseInto(PacketStep, m, b1) == Some(m1) by { NumberStep(PacketStep, m, m1, 8, p.behaviorId); }
    assert ParseInto(PacketStep, m1, b2) == Some(m2) by { NumberStep(PacketStep, m1, m2, 16, p.ownerPlayerId); }
    assert ParseInto(PacketStep, m2, b3) == Some(m3) by {
      Int32RoundTrip(p.behaviorTypeId);
      NumberStep(PacketStep, m2, m3, 24, p.behaviorTypeId);
    }
    assert ParseInto(PacketStep, m3, b4) == Some(MergePacket(m, p)) by {
      if p.payload == [] {
        ParseNothing(PacketStep, m3);
      } else {
        BytesFieldParses(34, p.payload);
        ParseOne(PacketStep, m3, b4, Bytes(4, p.payload));
      }
    }
    ParseConcatenation(PacketStep, m, b1, m1, b2, m2);
    ParseConcatenation(PacketStep, m, b1 + b2, m2, b3, m3);
    ParseConcatenation(PacketStep, m, b1 + b2 + b3, m3, b4, MergePacket(m, p));
  }

  /** A number field takes `m` to `m'` if its record does, and an unset one leaves `m` as it is. */
  lemma NumberStep<M>(step: (M, Record) -> Option<M>, m: M, m': M, tag: byte, n: int64)
    requires tag < 128 && tag % 8 == 0
    requires if n == 0 then m' == m else step(m, Number(tag / 8, ToWire(n))) == Some(m')
    ensures ParseInto(step, m, NumberIfSet(tag, n)) == Some(m')
  {
    if n == 0 {
      ParseNothing(step, m);
    } else {
      NumberFieldParses(tag, n);
      ParseOne(step, m, NumberField(tag, n), Number(tag / 8, ToWire(n)));
    }
  }

  lemma SubmessageMerges(a: Option<Packet>, p: Packet)
    ensures SubmessageStep(a, EncodePacket(p)) == MergeSubmessage(a, Some(p))
  {
    PacketMerges(if a.Some? then a.value else DEFAULT_PACKET, p);
    assert MergePacket(DEFAULT_PACKET, p) == p;
  }

  lemma SubmessageFieldStep<M>(step: (M, Record) -> Option<M>, m: M, m': M, tag: byte, p: Option<Packet>)
    requires tag < 128 && tag % 8 == 2
    requires if p.None? then m' == m else step(m, Bytes(tag / 8, EncodePacket(p.value))) == Some(m')
    ensures ParseInto(step, m, SubmessageField(tag, p)) == Some(m')
  {
    if p.None? {
      ParseNothing(step, m);
    } else {
      EncodingIsShort(p.value);
      BytesFieldParses(tag, EncodePacket(p.value));
      ParseOne(step, m, BytesField(tag, EncodePacket(p.value)), Bytes(tag / 8, EncodePacket(p.value)));
    }
  }

  lemma SyncRequestMerges(m: SyncRequest, n: SyncRequest)
    ensures ParseInto(SyncRequestStep, m, EncodeSyncRequest(n)) == Some(MergeSyncRequest(m, n))
  {
    var m1 := m.(playerId := Newer(m.playerId, n.playerId, 0));
    NumberStep(SyncRequestStep, m, m1, 8, n.playerId);
    Int32RoundTrip(n.groupId);
    NumberStep(SyncRequestStep, m1, MergeSyncRequest(m, n), 16, n.groupId);
    ParseConcatenation(SyncRequestStep, m, NumberIfSet(8, n.playerId), m1, NumberIfSet(16, n.groupId),
                       MergeSyncRequest(m, n));
  }

  lemma RequestMerges(m: BehaviorRequest, n: BehaviorRequest)
    ensures ParseInto(RequestStep, m, EncodeRequest(n)) == Some(MergeRequest(m, n))
  {
    var m1 := m.(groupId := Newer(m.groupId, n.groupId, 0));
    Int32RoundTrip(n.groupId);
    NumberStep(RequestStep, m, m1, 8, n.groupId);
    if n.packet.Some? { SubmessageMerges(m1.packet, n.packet.value); }
    SubmessageFieldStep(RequestStep, m1, MergeRequest(m, n), 18, n.packet);
    ParseConcatenation(RequestStep, m, NumberIfSet(8, n.groupId), m1, SubmessageField(18, n.packet),
                       MergeRequest(m, n));
  }

  lemma ResponseMerges(m: SyncResponse, n: SyncResponse)
    ensures ParseInto(ResponseStep, m, EncodeResponse(n)) == Some(MergeResponse(m, n))
  {
    if n.packet.Some? { SubmessageMerges(m.packet, n.packet.value); }
    SubmessageFieldStep(ResponseStep, m, MergeResponse(m, n), 10, n.packet);
  }

  // The laws of each message

  lemma SyncRequestLaws(a: SyncRequest, b: SyncRequest)
    ensures ParseSyncRequest(EncodeSyncRequest(a)) == Some(a)
    ensures ParseSyncRequest(EncodeSyncRequest(a) + EncodeSyncRequest(b)) == Some(MergeSyncRequest(a, b))
  {
    SyncRequestMerges(DEFAULT_SYNC_REQUEST, a);
    SyncRequestMerges(a, b);
    ParseConcatenation(SyncRequestStep, DEFAULT_SYNC_REQUEST, EncodeSyncRequest(a), a, EncodeSyncRequest(b),
                       MergeSyncRequest(a, b));
  }

  lemma PacketLaws(a: Packet, b: Packet)
    ensures ParsePacket(EncodePacket(a)) == Some(a)
    ensures ParsePacket(EncodePacket(a) + EncodePacket(b)) == Some(MergePacket(a, b))
  {
    PacketMerges(DEFAULT_PACKET, a);
    PacketMerges(a, b);
    assert MergePacket(DEFAULT_PACKET, a) == a;
    ParseConcatenation(PacketStep, DEFAULT_PACKET, EncodePacket(a), a, EncodePacket(b), MergePacket(a, b));
  }

  lemma RequestLaws(a: BehaviorRequest, b: BehaviorRequest)
    ensures ParseRequest(EncodeRequest(a)) == Some(a)
    ensures ParseRequest(EncodeRequest(a) + EncodeRequest(b)) == Some(MergeRequest(a, b))
  {
    RequestMerges(DEFAULT_REQUEST, a);
    RequestMerges(a, b);
    ParseConcatenation(RequestStep, DEFAULT_REQUEST, EncodeRequest(a), a, EncodeRequest(b), MergeRequest(a, b));
  }

  lemma ResponseLaws(a: SyncResponse, b: SyncResponse)
    ensures ParseResponse(EncodeResponse(a)) == Some(a)
    ensures ParseResponse(EncodeResponse(a) + EncodeResponse(b)) == Some(MergeResponse(a, b))
  {
    ResponseMerges(DEFAULT_RESPONSE, a);
    ResponseMerges(a, b);
    ParseConcatenation(ResponseStep, DEFAULT_RESPONSE, EncodeResponse(a), a, EncodeResponse(b), MergeResponse(a, b));
  }

  // Any number of messages of any kind

  function EncodeAll<M>(encode: M -> seq<byte>, ms: seq<M>): seq<byte> {
    if ms == [] then [] else EncodeAll(encode, ms[..|ms| - 1]) + encode(ms[|ms| - 1])
  }

  function MergeAll<M>(merge: (M, M) -> M, m: M, ms: seq<M>): M {
    if ms == [] then m else merge(MergeAll(merge, m, ms[..|ms| - 1]), ms[|ms| - 1])
  }

  ghost predicate Merges<M(!new)>(step: (M, Record) -> Option<M>, encode: M -> seq<byte>, merge: (M, M) -> M) {
    forall m, n :: ParseInto(step, m, encode(n)) == Some(merge(m, n))
  }

  /** If parsing an encoding merges, parsing any number of encodings laid end to end merges them in that order. */
  lemma {:induction false} ConcatenationMerges<M(!new)>(
      step: (M, Record) -> Option<M>, encode: M -> seq<byte>, merge: (M, M) -> M, m: M, ms: seq<M>)
    requires Merges(step, encode, merge)
    ensures ParseInto(step, m, EncodeAll(encode, ms)) == Some(MergeAll(merge, m, ms))
  {
    if ms == [] {
      ParseNothing(step, m);
    } else {
      var before, n := ms[..|ms| - 1], ms[|ms| - 1];
      ConcatenationMerges(step, encode, merge, m, before);
      var merged := MergeAll(merge, m, before);
      assert ParseInto(step, merged, encode(n)) == Some(merge(merged, n));
      ParseConcatenation(step, m, EncodeAll(encode, before), merged, encode(n), merge(merged, n));
    }
  }

  lemma PacketsMergeAll(ms: seq<Packet>)
    ensures ParsePacket(EncodeAll(EncodePacket, ms)) == Some(MergeAll(MergePacket, DEFAULT_PACKET, ms))
  {
    forall m, n ensures ParseInto(PacketStep, m, EncodePacket(n)) == Some(MergePacket(m, n)) {
      PacketMerges(m, n);
    }
    assert Merges(PacketStep, EncodePacket, MergePacket);
    ConcatenationMerges(PacketStep, EncodePacket, MergePacket, DEFAULT_PACKET, ms);
  }

  lemma RequestsMergeAll(ms: seq<BehaviorRequest>)
    ensures ParseRequest(EncodeAll(EncodeRequest, ms)) == Some(MergeAll(MergeRequest, DEFAULT_REQUEST, ms))
  {
    forall m, n ensures ParseInto(RequestStep, m, EncodeRequest(n)) == Some(MergeRequest(m, n)) {
      RequestMerges(m, n);
    }
    assert Merges(RequestStep, EncodeRequest, MergeRequest);
    ConcatenationMerges(RequestStep, EncodeRequest, MergeRequest, DEFAULT_REQUEST, ms);
  }

  lemma SyncRequestsMergeAll(ms: seq<SyncRequest>)
    ensures ParseSyncRequest(EncodeAll(EncodeSyncRequest, ms)) ==
            Some(MergeAll(MergeSyncRequest, DEFAULT_SYNC_REQUEST, ms))
  {
    forall m, n ensures ParseInto(SyncRequestStep, m, EncodeSyncRequest(n)) == Some(MergeSyncRequest(m, n)) {
      SyncRequestMerges(m, n);
    }
    assert Merges(SyncRequestStep, EncodeSyncRequest, MergeSyncRequest);
    ConcatenationMerges(SyncRequestStep, EncodeSyncRequest, MergeSyncRequest, DEFAULT_SYNC_REQUEST, ms);
  }

  lemma ResponsesMergeAll(ms: seq<SyncResponse>)
    ensures ParseResponse(EncodeAll(EncodeResponse, ms)) == Some(MergeAll(MergeResponse, DEFAULT_RESPONSE, ms))
  {
    forall m, n ensures ParseInto(ResponseStep, m, EncodeResponse(n)) == Some(MergeResponse(m, n)) {
      ResponseMerges(m, n);
    }
    assert Merges(ResponseStep, EncodeResponse, MergeResponse);
    ConcatenationMerges(ResponseStep, EncodeResponse, MergeResponse, DEFAULT_RESPONSE, ms);
  }

  // Merging is associative, and two messages with the same encoding are the same

  lemma PacketMergeAssociates(a: Packet, b: Packet, c: Packet)
    ensures MergePacket(MergePacket(a, b), c) == MergePacket(a, MergePacket(b, c))
    ensures EncodePacket(a) == EncodePacket(b) ==> a == b
  {
    PacketLaws(a, b);
    PacketLaws(b, a);
  }

  lemma RequestMergeAssociates(a: BehaviorRequest, b: BehaviorRequest, c: BehaviorRequest)
    ensures MergeRequest(MergeRequest(a, b), c) == MergeRequest(a, MergeRequest(b, c))
    ensures EncodeRequest(a) == EncodeRequest(b) ==> a == b
  {
    RequestLaws(a, b);
    RequestLaws(b, a);
  }

  lemma SyncRequestMergeAssociates(a: SyncRequest, b: SyncRequest, c: SyncRequest)
    ensures MergeSyncRequest(MergeSyncRequest(a, b), c) == MergeSyncRequest(a, MergeSyncRequest(b, c))
    ensures EncodeSyncRequest(a) == EncodeSyncRequest(b) ==> a == b
  {
    SyncRequestLaws(a, b);
    SyncRequestLaws(b, a);
  }

  lemma ResponseMergeAssociates(a: SyncResponse, b: SyncResponse, c: SyncResponse)
    ensures MergeResponse(MergeResponse(a, b), c) == MergeResponse(a, MergeResponse(b, c))
    ensures EncodeResponse(a) == EncodeResponse(b) ==> a == b
  {
    ResponseLaws(a, b);
    ResponseLaws(b, a);
  }
}
