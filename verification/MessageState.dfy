/**
 The stored form of the messages: fields beside their has-bits, and a submessage
 that is kept for reuse after it has been cleared. Every sequence of calls on it
 behaves as the plain values do.
 */
module MessageState {
  import opened Options
  import opened Words
  import opened Wire
  import opened Messages

  // BehaviorPacket

  datatype RawPacket = RawPacket(hasPayload: bool, hasBehaviorId: bool, hasOwnerPlayerId: bool,
                                 hasBehaviorTypeId: bool, value: Packet)

  const EMPTY_PACKET := RawPacket(false, false, false, false, DEFAULT_PACKET)

  /** A field that holds something has its bit set. */
  predicate CleanPacket(r: RawPacket) {
    && (r.value.payload != [] ==> r.hasPayload)
    && (r.value.behaviorId != 0 ==> r.hasBehaviorId)
    && (r.value.ownerPlayerId != 0 ==> r.hasOwnerPlayerId)
    && (r.value.behaviorTypeId != 0 ==> r.hasBehaviorTypeId)
  }

  /** Clear touches only the parts whose bits say there is something to clear. */
  function ClearedPacket(r: RawPacket): RawPacket {
    var v := if r.hasPayload then r.value.(payload := []) else r.value;
    var w := if r.hasBehaviorId || r.hasOwnerPlayerId || r.hasBehaviorTypeId
             then v.(behaviorId := 0, ownerPlayerId := 0, behaviorTypeId := 0) else v;
    RawPacket(false, false, false, false, w)
  }

  function MergedPacket(r: RawPacket, from: RawPacket): RawPacket {
    RawPacket(r.hasPayload || from.hasPayload, r.hasBehaviorId || from.hasBehaviorId,
              r.hasOwnerPlayerId || from.hasOwnerPlayerId, r.hasBehaviorTypeId || from.hasBehaviorTypeId,
              Packet(if from.hasBehaviorId && from.value.behaviorId != 0 then from.value.behaviorId
                     else r.value.behaviorId,
                     if from.hasOwnerPlayerId && from.value.ownerPlayerId != 0 then from.value.ownerPlayerId
                       else r.value.ownerPlayerId,
                     if from.hasBehaviorTypeId && from.value.behaviorTypeId != 0 then from.value.behaviorTypeId
                       else r.value.behaviorTypeId,
                     if from.hasPayload && from.value.payload != [] then from.value.payload else r.value.payload))
  }

  /** _InternalSerialize: a field is written when its bit is set and it is not zero. */
  function WrittenPacket(r: RawPacket): seq<byte> {
    (if r.hasBehaviorId then NumberIfSet(8, r.value.behaviorId) else [])
    + (if r.hasOwnerPlayerId then NumberIfSet(16, r.value.ownerPlayerId) else [])
    + (if r.hasBehaviorTypeId then NumberIfSet(24, r.value.behaviorTypeId) else [])
    + (if r.hasPayload then BytesIfSet(34, r.value.payload) else [])
  }

  /** The fields whose bits are set. */
  function Shown(r: RawPacket): Packet {
    Packet(if r.hasBehaviorId then r.value.behaviorId else 0, if r.hasOwnerPlayerId then r.value.ownerPlayerId else 0,
           if r.hasBehaviorTypeId then r.value.behaviorTypeId else 0, if r.hasPayload then r.value.payload else [])
  }

  lemma WritesWhatIsShown(r: RawPacket)
    ensures WrittenPacket(r) == EncodePacket(Shown(r))
  {
  }

  datatype PacketOp =
    | SetBehaviorId(id: int64)
    | SetOwnerPlayerId(id: int64)
    | SetBehaviorTypeId(kind: int32)
    | SetPayload(payload: Blob)
    | ClearBehaviorId
    | ClearOwnerPlayerId
    | ClearBehaviorTypeId
    | ClearPayload
    | ReleasePayload
    | ClearPacket
    | MergePacketFrom(built: seq<PacketOp>)
    | CopyPacketFrom(built: seq<PacketOp>)

  function ApplyPacket(r: RawPacket, op: PacketOp): RawPacket
    decreases op, 0
  {
    match op
    case SetBehaviorId(id) => r.(hasBehaviorId := true, value := r.value.(behaviorId := id))
    case SetOwnerPlayerId(id) => r.(hasOwnerPlayerId := true, value := r.value.(ownerPlayerId := id))
    case SetBehaviorTypeId(kind) => r.(hasBehaviorTypeId := true, value := r.value.(behaviorTypeId := kind))
    case SetPayload(payload) => r.(hasPayload := true, value := r.value.(payload := payload))
    case ClearBehaviorId => r.(hasBehaviorId := false, value := r.value.(behaviorId := 0))
    case ClearOwnerPlayerId => r.(hasOwnerPlayerId := false, value := r.value.(ownerPlayerId := 0))
    case ClearBehaviorTypeId => r.(hasBehaviorTypeId := false, value := r.value.(behaviorTypeId := 0))
    case ClearPayload => r.(hasPayload := false, value := r.value.(payload := []))
    case ReleasePayload => if r.hasPayload then r.(hasPayload := false, value := r.value.(payload := [])) else r
    case ClearPacket => ClearedPacket(r)
    case MergePacketFrom(built) => MergedPacket(r, BuildPacket(built))
    case CopyPacketFrom(built) => MergedPacket(ClearedPacket(r), BuildPacket(built))
  }

  /** A packet after the calls `ops`; the other message of a merge or copy is built by its own calls. */
  function BuildPacket(ops: seq<PacketOp>): RawPacket
    decreases ops, 1
  {
    if ops == [] then EMPTY_PACKET else ApplyPacket(BuildPacket(ops[..|ops| - 1]), ops[|ops| - 1])
  }

  /** What the same call does to the plain value. */
  function ModelPacket(p: Packet, op: PacketOp): Packet
    decreases op, 0
  {
    match op
    case SetBehaviorId(id) => p.(behaviorId := id)
    case SetOwnerPlayerId(id) => p.(ownerPlayerId := id)
    case SetBehaviorTypeId(kind) => p.(behaviorTypeId := kind)
    case SetPayload(payload) => p.(payload := payload)
    case ClearBehaviorId => p.(behaviorId := 0)
    case ClearOwnerPlayerId => p.(ownerPlayerId := 0)
    case ClearBehaviorTypeId => p.(behaviorTypeId := 0)
    case ClearPayload => p.(payload := [])
    case ReleasePayload => p.(payload := [])
    case ClearPacket => DEFAULT_PACKET
    case MergePacketFrom(built) => MergePacket(p, ModelPacketOf(built))
    case CopyPacketFrom(built) => ModelPacketOf(built)
  }

  function ModelPacketOf(ops: seq<PacketOp>): Packet
    decreases ops, 1
  {
    if ops == [] then DEFAULT_PACKET else ModelPacket(ModelPacketOf(ops[..|ops| - 1]), ops[|ops| - 1])
  }

  lemma ClearIsComplete(r: RawPacket)
    requires CleanPacket(r)
    ensures ClearedPacket(r) == EMPTY_PACKET
  {
  }

  lemma MergeIsMerge(r: RawPacket, from: RawPacket)
    requires CleanPacket(r) && CleanPacket(from)
    ensures CleanPacket(MergedPacket(r, from)) && MergedPacket(r, from).value == MergePacket(r.value, from.value)
    ensures MergedPacket(EMPTY_PACKET, from) == from
  {
  }

  lemma SettersFollow(r: RawPacket, op: PacketOp)
    requires CleanPacket(r) && (op.SetBehaviorId? || op.SetOwnerPlayerId? || op.SetBehaviorTypeId? || op.SetPayload?)
    ensures CleanPacket(ApplyPacket(r, op)) && ApplyPacket(r, op).value == ModelPacket(r.value, op)
  {
  }

  lemma ClearersFollow(r: RawPacket, op: PacketOp)
    requires CleanPacket(r)
    requires op.ClearBehaviorId? || op.ClearOwnerPlayerId? || op.ClearBehaviorTypeId? || op.ClearPayload?
             || op.ReleasePayload? || op.ClearPacket?
    ensures CleanPacket(ApplyPacket(r, op)) && ApplyPacket(r, op).value == ModelPacket(r.value, op)
  {
  }

  lemma {:induction false} PacketStepFollows(r: RawPacket, op: PacketOp)
    requires CleanPacket(r)
    ensures CleanPacket(ApplyPacket(r, op)) && ApplyPacket(r, op).value == ModelPacket(r.value, op)
    decreases op, 0
  {
    match op
    case MergePacketFrom(built) =>
      PacketFollowsModel(built);
      MergeIsMerge(r, BuildPacket(built));
    case CopyPacketFrom(built) =>
      PacketFollowsModel(built);
      ClearIsComplete(r);
      MergeIsMerge(r, BuildPacket(built));
    case SetBehaviorId(_) => SettersFollow(r, op);
    case SetOwnerPlayerId(_) => SettersFollow(r, op);
    case SetBehaviorTypeId(_) => SettersFollow(r, op);
    case SetPayload(_) => SettersFollow(r, op);
    case _ => ClearersFollow(r, op);
  }

  lemma {:induction false} PacketFollowsModel(ops: seq<PacketOp>)
    ensures CleanPacket(BuildPacket(ops)) && BuildPacket(ops).value == ModelPacketOf(ops)
    decreases ops, 1
  {
    if ops != [] {
      PacketFollowsModel(ops[..|ops| - 1]);
      PacketStepFollows(BuildPacket(ops[..|ops| - 1]), ops[|ops| - 1]);
    }
  }

  lemma CleanPacketWrites(r: RawPacket)
    requires CleanPacket(r)
    ensures WrittenPacket(r) == EncodePacket(r.value)
  {
  }

  // BehaviorRequest

  /** `packet` is the submessage the pointer holds, present or kept for reuse; None is the null pointer. */
  datatype RawRequest = RawRequest(hasPacket: bool, hasGroupId: bool, packet: Option<RawPacket>, groupId: int32)

  const EMPTY_REQUEST := RawRequest(false, false, None, 0)

  /** A present packet is there, and one that is not present has nothing left in it. */
  predicate Clean(r: RawRequest) {
    && (r.groupId != 0 ==> r.hasGroupId)
    && (r.hasPacket ==> r.packet.Some?)
    && (r.packet.Some? ==> CleanPacket(r.packet.value))
    && (r.packet.Some? && !r.hasPacket ==> r.packet.value == EMPTY_PACKET)
  }

  /** What the accessors show: group_id, and the packet if has_packet. */
  function Observe(r: RawRequest): BehaviorRequest
    requires r.hasPacket ==> r.packet.Some?
  {
    BehaviorRequest(r.groupId, if r.hasPacket then Some(r.packet.value.value) else None)
  }

  function ClearedRequest(r: RawRequest): RawRequest {
    RawRequest(false, false, if r.hasPacket && r.packet.Some? then Some(ClearedPacket(r.packet.value)) else r.packet, 0)
  }

  function MergedRequest(r: RawRequest, from: RawRequest): RawRequest {
    RawRequest(r.hasPacket || from.hasPacket, r.hasGroupId || from.hasGroupId,
               if from.hasPacket && from.packet.Some?
               then Some(if r.packet.None? then from.packet.value else MergedPacket(r.packet.value, from.packet.value))
               else r.packet,
               if from.hasGroupId && from.groupId != 0 then from.groupId else r.groupId)
  }

  /** _InternalSerialize: the submessage is preceded by the size that was cached for it. */
  function WrittenRequest(r: RawRequest, cachedSize: nat): seq<byte> {
    (if r.hasGroupId then NumberIfSet(8, r.groupId) else [])
    + (if r.hasPacket && r.packet.Some? then [18] + Varint(cachedSize) + WrittenPacket(r.packet.value) else [])
  }

  function MutableRequest(r: RawRequest): RawRequest {
    r.(hasPacket := true, packet := if r.packet.None? then Some(EMPTY_PACKET) else r.packet)
  }

  datatype RequestOp =
    | SetGroupId(group: int32)
    | ClearGroupId
    | MutablePacket(change: seq<PacketOp>)
    | ClearSubmessage
    | ReleaseSubmessage
    | SetAllocated(given: Option<seq<PacketOp>>)
    | ClearRequest
    | MergeRequestFrom(built: seq<RequestOp>)
    | CopyRequestFrom(built: seq<RequestOp>)

  function ChangePacket(r: RawPacket, ops: seq<PacketOp>): RawPacket {
    if ops == [] then r else ApplyPacket(ChangePacket(r, ops[..|ops| - 1]), ops[|ops| - 1])
  }

  function ApplyRequest(r: RawRequest, op: RequestOp): RawRequest
    decreases op, 0
  {
    match op
    case SetGroupId(group) => r.(hasGroupId := true, groupId := group)
    case ClearGroupId => r.(hasGroupId := false, groupId := 0)
    case MutablePacket(change) =>
      var m := MutableRequest(r);
      m.(packet := Some(ChangePacket(m.packet.value, change)))
    case ClearSubmessage =>
      r.(hasPacket := false, packet := if r.packet.Some? then Some(ClearedPacket(r.packet.value)) else None)
    case ReleaseSubmessage => r.(hasPacket := false, packet := None)
    case SetAllocated(given) =>
      r.(hasPacket := given.Some?, packet := if given.Some? then Some(BuildPacket(given.value)) else None)
    case ClearRequest => ClearedRequest(r)
    case MergeRequestFrom(built) => MergedRequest(r, BuildRequest(built))
    case CopyRequestFrom(built) => MergedRequest(ClearedRequest(r), BuildRequest(built))
  }

  function BuildRequest(ops: seq<RequestOp>): RawRequest
    decreases ops, 1
  {
    if ops == [] then EMPTY_REQUEST else ApplyRequest(BuildRequest(ops[..|ops| - 1]), ops[|ops| - 1])
  }

  function ChangeModel(p: Packet, ops: seq<PacketOp>): Packet {
    if ops == [] then p else ModelPacket(ChangeModel(p, ops[..|ops| - 1]), ops[|ops| - 1])
  }

  /** What the same call does to a group id beside an optional packet. */
  function ModelRequest(m: BehaviorRequest, op: RequestOp): BehaviorRequest
    decreases op, 0
  {
    match op
    case SetGroupId(group) => m.(groupId := group)
    case ClearGroupId => m.(groupId := 0)
    case MutablePacket(change) =>
      m.(packet := Some(ChangeModel(if m.packet.Some? then m.packet.value else DEFAULT_PACKET, change)))
    case ClearSubmessage => m.(packet := None)
    case ReleaseSubmessage => m.(packet := None)
    case SetAllocated(given) => m.(packet := if given.Some? then Some(ModelPacketOf(given.value)) else None)
    case ClearRequest => DEFAULT_REQUEST
    case MergeRequestFrom(built) => MergeRequest(m, ModelRequestOf(built))
    case CopyRequestFrom(built) => ModelRequestOf(built)
  }

  function ModelRequestOf(ops: seq<RequestOp>): BehaviorRequest
    decreases ops, 1
  {
    if ops == [] then DEFAULT_REQUEST else ModelRequest(ModelRequestOf(ops[..|ops| - 1]), ops[|ops| - 1])
  }

  lemma {:induction false} ChangeFollows(r: RawPacket, ops: seq<PacketOp>)
    requires CleanPacket(r)
    ensures CleanPacket(ChangePacket(r, ops)) && ChangePacket(r, ops).value == ChangeModel(r.value, ops)
  {
    if ops != [] {
      ChangeFollows(r, ops[..|ops| - 1]);
      PacketStepFollows(ChangePacket(r, ops[..|ops| - 1]), ops[|ops| - 1]);
    }
  }

  lemma RequestClearIsComplete(r: RawRequest)
    requires Clean(r)
    ensures Clean(ClearedRequest(r)) && Observe(ClearedRequest(r)) == DEFAULT_REQUEST
  {
  }

  lemma RequestMergeIsMerge(r: RawRequest, from: RawRequest)
    requires Clean(r) && Clean(from)
    ensures Clean(MergedRequest(r, from)) && Observe(MergedRequest(r, from)) == MergeRequest(Observe(r), Observe(from))
  {
  }

  /** Copying shows exactly the source, whatever was stored before. */
  lemma CopyShowsSource(r: RawRequest, from: RawRequest)
    requires Clean(r) && Clean(from)
    ensures Clean(MergedRequest(ClearedRequest(r), from))
            && Observe(MergedRequest(ClearedRequest(r), from)) == Observe(from)
  {
  }

  lemma {:induction false} RequestStepFollows(r: RawRequest, op: RequestOp)
    requires Clean(r)
    ensures Clean(ApplyRequest(r, op)) && Observe(ApplyRequest(r, op)) == ModelRequest(Observe(r), op)
    decreases op, 0
  {
    match op
    case MutablePacket(change) => ChangeFollows(MutableRequest(r).packet.value, change);
    case ClearSubmessage => if r.packet.Some? { ClearIsComplete(r.packet.value); }
    case SetAllocated(given) => if given.Some? { PacketFollowsModel(given.value); }
    case ClearRequest => RequestClearIsComplete(r);
    case MergeRequestFrom(built) =>
      RequestFollowsModel(built);
      RequestMergeIsMerge(r, BuildRequest(built));
    case CopyRequestFrom(built) =>
      RequestFollowsModel(built);
      CopyShowsSource(r, BuildRequest(built));
    case _ =>
  }

  /** After every sequence of calls nothing stale is stored, and the message shows what the plain value would. */
  lemma {:induction false} RequestFollowsModel(ops: seq<RequestOp>)
    ensures Clean(BuildRequest(ops)) && Observe(BuildRequest(ops)) == ModelRequestOf(ops)
    decreases ops, 1
  {
    if ops != [] {
      RequestFollowsModel(ops[..|ops| - 1]);
      RequestStepFollows(BuildRequest(ops[..|ops| - 1]), ops[|ops| - 1]);
    }
  }

  /** A message with nothing stale in it and the right cached size is written as its value is encoded. */
  lemma CleanRequestWrites(r: RawRequest, cachedSize: nat)
    requires Clean(r)
    requires r.hasPacket ==> cachedSize == |EncodePacket(r.packet.value.value)|
    ensures WrittenRequest(r, cachedSize) == EncodeRequest(Observe(r))
  {
  }
}
