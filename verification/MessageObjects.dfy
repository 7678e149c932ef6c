/** BehaviorPacket and BehaviorRequest as objects whose methods update fields, has-bits and cached sizes in place. */
module MessageObjects {
  import opened Options
  import opened Words
  import opened Wire
  import opened Messages
  import opened MessageState
  import opened MessageBytes

  /** A scalar in the wire format, absent unless its bit is set and it is not zero. */
  function Present(has: bool, tag: byte, n: int64): seq<byte> {
    if has then NumberIfSet(tag, n) else []
  }

  lemma FromTheStart<T>(start: seq<T>, a: seq<T>, b: seq<T>, c: seq<T>, d: seq<T>)
    ensures start + a + b + c + d == start + (a + b + c + d)
    ensures start + a + b + c + d == start + (a + (b + c + d))
  {
  }

  class PacketMessage {
    var hasPayload: bool
    var hasBehaviorId: bool
    var hasOwnerPlayerId: bool
    var hasBehaviorTypeId: bool
    var behaviorId: int64
    var ownerPlayerId: int64
    var behaviorTypeId: int32
    var payload: Blob
    var cachedSize: nat

    function View(): RawPacket
      reads this
    {
      RawPacket(hasPayload, hasBehaviorId, hasOwnerPlayerId, hasBehaviorTypeId,
                Packet(behaviorId, ownerPlayerId, behaviorTypeId, payload))
    }

    constructor ()
      ensures View() == EMPTY_PACKET && cachedSize == 0
    {
      hasPayload, hasBehaviorId, hasOwnerPlayerId, hasBehaviorTypeId := false, false, false, false;
      behaviorId, ownerPlayerId, behaviorTypeId, payload, cachedSize := 0, 0, 0, [], 0;
    }

    constructor CopyConstruct(from: PacketMessage)
      ensures View() == from.View() && cachedSize == 0
    {
      hasPayload, hasBehaviorId, hasOwnerPlayerId, hasBehaviorTypeId :=
        from.hasPayload, from.hasBehaviorId, from.hasOwnerPlayerId, from.hasBehaviorTypeId;
      behaviorId, ownerPlayerId, behaviorTypeId, payload, cachedSize :=
        from.behaviorId, from.ownerPlayerId, from.behaviorTypeId, from.payload, 0;
    }

    method SetBehaviorId(id: int64)
      modifies this
      ensures View() == ApplyPacket(old(View()), PacketOp.SetBehaviorId(id))
      ensures behaviorId == id && hasBehaviorId
      ensures ownerPlayerId == old(ownerPlayerId) && behaviorTypeId == old(behaviorTypeId) && payload == old(payload)
    {
      behaviorId := id;
      hasBehaviorId := true;
    }

    method ClearBehaviorId()
      modifies this
      ensures View() == ApplyPacket(old(View()), PacketOp.ClearBehaviorId)
      ensures behaviorId == 0 && !hasBehaviorId
      ensures ownerPlayerId == old(ownerPlayerId) && behaviorTypeId == old(behaviorTypeId) && payload == old(payload)
    {
      behaviorId := 0;
      hasBehaviorId := false;
    }

    method SetOwnerPlayerId(id: int64)
      modifies this
      ensures View() == ApplyPacket(old(View()), PacketOp.SetOwnerPlayerId(id))
      ensures ownerPlayerId == id && hasOwnerPlayerId
      ensures behaviorId == old(behaviorId) && behaviorTypeId == old(behaviorTypeId) && payload == old(payload)
    {
      ownerPlayerId := id;
      hasOwnerPlayerId := true;
    }

    method ClearOwnerPlayerId()
      modifies this
      ensures View() == ApplyPacket(old(View()), PacketOp.ClearOwnerPlayerId)
      ensures ownerPlayerId == 0 && !hasOwnerPlayerId
      ensures behaviorId == old(behaviorId) && behaviorTypeId == old(behaviorTypeId) && payload == old(payload)
    {
      ownerPlayerId := 0;
      hasOwnerPlayerId := false;
    }

    method SetBehaviorTypeId(kind: int32)
      modifies this
      ensures View() == ApplyPacket(old(View()), PacketOp.SetBehaviorTypeId(kind))
      ensures behaviorTypeId == kind && hasBehaviorTypeId
      ensures behaviorId == old(behaviorId) && ownerPlayerId == old(ownerPlayerId) && payload == old(payload)
    {
      behaviorTypeId := kind;
      hasBehaviorTypeId := true;
    }

    method ClearBehaviorTypeId()
      modifies this
      ensures View() == ApplyPacket(old(View()), PacketOp.ClearBehaviorTypeId)
      ensures behaviorTypeId == 0 && !hasBehaviorTypeId
      ensures behaviorId == old(behaviorId) && ownerPlayerId == old(ownerPlayerId) && payload == old(payload)
    {
      behaviorTypeId := 0;
      hasBehaviorTypeId := false;
    }

    method SetPayload(data: Blob)
      modifies this
      ensures View() == ApplyPacket(old(View()), PacketOp.SetPayload(data))
      ensures payload == data && hasPayload
      ensures behaviorId == old(behaviorId) && ownerPlayerId == old(ownerPlayerId)
      ensures behaviorTypeId == old(behaviorTypeId)
    {
      payload := data;
      hasPayload := true;
    }

    method ClearPayload()
      modifies this
      ensures View() == ApplyPacket(old(View()), PacketOp.ClearPayload)
      ensures payload == [] && !hasPayload
      ensures behaviorId == old(behaviorId) && ownerPlayerId == old(ownerPlayerId)
      ensures behaviorTypeId == old(behaviorTypeId)
    {
      payload := [];
      hasPayload := false;
    }

    method ReleasePayload() returns (released: Option<Blob>)
      modifies this
      ensures View() == ApplyPacket(old(View()), PacketOp.ReleasePayload)
      ensures released == if old(hasPayload) then Some(old(payload)) else None
      ensures !hasPayload && (old(hasPayload) ==> payload == [])
      ensures behaviorId == old(behaviorId) && ownerPlayerId == old(ownerPlayerId)
      ensures behaviorTypeId == old(behaviorTypeId)
    {
      if !hasPayload {
        return None;
      }
      hasPayload := false;
      released := Some(payload);
      payload := [];
    }

    method Clear()
      modifies this
      ensures View() == ClearedPacket(old(View()))
      ensures !hasPayload && !hasBehaviorId && !hasOwnerPlayerId && !hasBehaviorTypeId
      ensures CleanPacket(old(View())) ==> behaviorId == ownerPlayerId == behaviorTypeId == 0 && payload == []
    {
      if hasPayload {
        payload := [];
      }
      if hasBehaviorId || hasOwnerPlayerId || hasBehaviorTypeId {
        behaviorId, ownerPlayerId, behaviorTypeId := 0, 0, 0;
      }
      hasPayload, hasBehaviorId, hasOwnerPlayerId, hasBehaviorTypeId := false, false, false, false;
    }

    method MergeFrom(from: PacketMessage)
      requires from != this
      modifies this
      ensures View() == MergedPacket(old(View()), from.View())
      ensures Overlays(View().value, old(View().value), Shown(from.View()))
    {
      MergePayload(from);
      MergeIds(from);
      MergePresence(from);
    }

    method MergePresence(from: PacketMessage)
      requires from != this
      modifies this`hasPayload, this`hasBehaviorId, this`hasOwnerPlayerId, this`hasBehaviorTypeId
      ensures View() == MergedPacket(old(View()), from.View()).(value := old(View().value))
    {
      hasPayload := hasPayload || from.hasPayload;
      hasBehaviorId := hasBehaviorId || from.hasBehaviorId;
      hasOwnerPlayerId := hasOwnerPlayerId || from.hasOwnerPlayerId;
      hasBehaviorTypeId := hasBehaviorTypeId || from.hasBehaviorTypeId;
    }

    method MergePayload(from: PacketMessage)
      requires from != this
      modifies this`payload
      ensures payload == MergedPacket(old(View()), from.View()).value.payload
    {
      if from.hasPayload && from.payload != [] {
        payload := from.payload;
      }
    }

    method MergeIds(from: PacketMessage)
      requires from != this
      modifies this`behaviorId, this`ownerPlayerId, this`behaviorTypeId
      ensures View().value == MergedPacket(old(View()), from.View()).value.(payload := payload)
    {
      if from.hasBehaviorId && from.behaviorId != 0 {
        behaviorId := from.behaviorId;
      }
      if from.hasOwnerPlayerId && from.ownerPlayerId != 0 {
        ownerPlayerId := from.ownerPlayerId;
      }
      if from.hasBehaviorTypeId && from.behaviorTypeId != 0 {
        behaviorTypeId := from.behaviorTypeId;
      }
    }

    method CopyFrom(from: PacketMessage)
      modifies this
      ensures View() == if from == this then old(View()) else MergedPacket(ClearedPacket(old(View())), from.View())
    {
      if from == this {
        return;
      }
      Clear();
      MergeFrom(from);
    }

    /** Adds up the sizes in the order of the has-bits and keeps the sum. */
    method ByteSizeLong() returns (size: nat)
      modifies this`cachedSize
      ensures size == cachedSize == |WrittenPacket(View())|
    {
      size := 0;
      VarintSizeAgrees(|payload|);
      VarintSizeAgrees(ToWire(behaviorId));
      VarintSizeAgrees(ToWire(ownerPlayerId));
      VarintSizeAgrees(ToWire(behaviorTypeId));
      if hasPayload && payload != [] {
        size := size + 1 + VarintSize(|payload|) + |payload|;
      }
      if hasBehaviorId && behaviorId != 0 {
        size := size + 1 + VarintSize(ToWire(behaviorId));
      }
      if hasOwnerPlayerId && ownerPlayerId != 0 {
        size := size + 1 + VarintSize(ToWire(ownerPlayerId));
      }
      if hasBehaviorTypeId && behaviorTypeId != 0 {
        size := size + 1 + VarintSize(ToWire(behaviorTypeId));
      }
      cachedSize := size;
    }

    method InternalSerialize(start: seq<byte>) returns (target: seq<byte>)
      ensures target == start + WrittenPacket(View())
      ensures start <= target && IsPacket(target[|start|..], Shown(View()))
    {
      ShownIsWritten(View());
      ghost var f1, f2 := Present(hasBehaviorId, 8, behaviorId), Present(hasOwnerPlayerId, 16, ownerPlayerId);
      ghost var f3 := Present(hasBehaviorTypeId, 24, behaviorTypeId);
      target := WriteNumber(start, hasBehaviorId, 8, behaviorId);
      target := WriteNumber(target, hasOwnerPlayerId, 16, ownerPlayerId);
      target := WriteNumber(target, hasBehaviorTypeId, 24, behaviorTypeId);
      FromTheStart(start, f1, f2, f3, []);
      if hasPayload && payload != [] {
        FromTheStart(start, f1, f2, f3, BytesField(34, payload));
        target := target + BytesField(34, payload);
      }
    }

    /** What is written is the fields whose bits are set, in the wire format. */
    method Serialize() returns (b: seq<byte>)
      modifies this`cachedSize
      ensures |b| == cachedSize && IsPacket(b, Shown(View())) && ParsePacket(b) == Some(Shown(View()))
    {
      var size := ByteSizeLong();
      b := InternalSerialize([]);
      ghost var written := WrittenPacket(View());
      assert [] + written == written;
      ShownIsWritten(View());
    }

    /** One scalar of the serializer: written if its bit is set and it is not zero. */
    static method WriteNumber(target: seq<byte>, has: bool, tag: byte, n: int64) returns (target': seq<byte>)
      ensures target' == target + Present(has, tag, n)
    {
      target' := target;
      if has && n != 0 {
        target' := target' + NumberField(tag, n);
      } else {
        assert target + [] == target;
      }
    }
  }

  class RequestMessage {
    var hasPacket: bool
    var hasGroupId: bool
    var packet: PacketMessage?
    var groupId: int32
    var cachedSize: nat

    function View(): RawRequest
      reads this, packet
    {
      RawRequest(hasPacket, hasGroupId, if packet == null then None else Some(packet.View()), groupId)
    }

    predicate Valid()
      reads this, packet
    {
      Clean(View())
    }

    constructor ()
      ensures Valid() && View() == EMPTY_REQUEST
    {
      hasPacket, hasGroupId, packet, groupId, cachedSize := false, false, null, 0, 0;
    }

    method SetGroupId(id: int32)
      requires Valid()
      modifies this
      ensures Valid() && packet == old(packet) && View() == ApplyRequest(old(View()), RequestOp.SetGroupId(id))
      ensures groupId == id && hasGroupId && hasPacket == old(hasPacket)
    {
      groupId := id;
      hasGroupId := true;
    }

    method ClearGroupId()
      requires Valid()
      modifies this
      ensures Valid() && packet == old(packet) && View() == ApplyRequest(old(View()), RequestOp.ClearGroupId)
      ensures groupId == 0 && !hasGroupId && hasPacket == old(hasPacket)
    {
      groupId := 0;
      hasGroupId := false;
    }

    /** The submessage to change; while it is present the caller may do anything to it that keeps it clean. */
    method MutablePacket() returns (p: PacketMessage)
      requires Valid()
      modifies this
      ensures Valid() && p == packet && hasPacket
      ensures if old(packet) == null then fresh(p) && p.View() == EMPTY_PACKET
              else p == old(packet) && p.View() == old(packet.View())
      ensures View() == MutableRequest(old(View())) && groupId == old(groupId) && hasGroupId == old(hasGroupId)
    {
      hasPacket := true;
      if packet == null {
        packet := new PacketMessage();
      }
      p := packet;
    }

    method ClearPacket()
      requires Valid()
      modifies this, packet
      ensures Valid() && packet == old(packet) && View() == ApplyRequest(old(View()), ClearSubmessage)
      ensures !hasPacket && (packet != null ==> packet.View() == EMPTY_PACKET)
      ensures groupId == old(groupId) && hasGroupId == old(hasGroupId)
    {
      RequestStepFollows(View(), ClearSubmessage);
      if packet != null {
        packet.Clear();
      }
      hasPacket := false;
    }

    method ReleasePacket() returns (released: PacketMessage?)
      requires Valid()
      modifies this
      ensures Valid() && packet == null && released == old(packet)
      ensures View() == ApplyRequest(old(View()), ReleaseSubmessage)
      ensures !hasPacket && groupId == old(groupId) && hasGroupId == old(hasGroupId)
    {
      hasPacket := false;
      released := packet;
      packet := null;
    }

    method SetAllocatedPacket(value: PacketMessage?)
      requires Valid() && (value != null ==> CleanPacket(value.View()))
      modifies this
      ensures Valid() && packet == value
      ensures View() == old(View()).(hasPacket := value != null, packet := if value == null then None
                                     else Some(value.View()))
    {
      hasPacket := value != null;
      packet := value;
    }

    method Clear()
      requires Valid()
      modifies this, packet
      ensures Valid() && packet == old(packet) && View() == ClearedRequest(old(View()))
      ensures !hasPacket && !hasGroupId && groupId == 0 && (packet != null ==> packet.View() == EMPTY_PACKET)
    {
      RequestClearIsComplete(View());
      if hasPacket {
        packet.Clear();
      }
      groupId := 0;
      hasPacket, hasGroupId := false, false;
    }

    /** Two messages never own the same submessage. */
    method MergeFrom(from: RequestMessage)
      requires Valid() && from.Valid() && from != this && (from.packet != null ==> from.packet != packet)
      modifies this, packet
      ensures Valid() && (packet == old(packet) || fresh(packet))
      ensures View() == MergedRequest(old(View()), from.View()) && from.View() == old(from.View())
    {
      ghost var r, f := View(), from.View();
      RequestMergeIsMerge(r, f);
      MergeSubmessage(from);
      MergeScalars(from);
    }

    method MergeScalars(from: RequestMessage)
      modifies this`groupId, this`hasPacket, this`hasGroupId
      ensures groupId == if from.hasGroupId && from.groupId != 0 then from.groupId else old(groupId)
      ensures hasPacket == (old(hasPacket) || from.hasPacket) && hasGroupId == (old(hasGroupId) || from.hasGroupId)
      ensures from != this ==> from.groupId == old(from.groupId)
    {
      if from.hasGroupId && from.groupId != 0 {
        groupId := from.groupId;
      }
      hasPacket, hasGroupId := hasPacket || from.hasPacket, hasGroupId || from.hasGroupId;
    }

    method MergeSubmessage(from: RequestMessage)
      requires Valid() && from.Valid() && from != this && (from.packet != null ==> from.packet != packet)
      modifies this`packet, packet
      ensures packet == old(packet) || fresh(packet)
      ensures View() == old(View()).(packet := MergedRequest(old(View()), from.View()).packet)
      ensures from.View() == old(from.View())
    {
      if from.hasPacket {
        if packet == null {
          packet := new PacketMessage.CopyConstruct(from.packet);
        } else {
          packet.MergeFrom(from.packet);
        }
      }
    }

    method CopyFrom(from: RequestMessage)
      requires Valid() && from.Valid() && (from != this && from.packet != null ==> from.packet != packet)
      modifies this, packet
      ensures Valid() && Observe(View()) == old(Observe(from.View()))
    {
      if from == this {
        return;
      }
      CopyShowsSource(View(), from.View());
      Clear();
      MergeFrom(from);
    }

    /** Caches the size of the submessage on the way. */
    method ByteSizeLong() returns (size: nat)
      requires Valid()
      modifies this`cachedSize, packet
      ensures Valid() && View() == old(View())
      ensures size == cachedSize == |EncodeRequest(Observe(View()))|
      ensures hasPacket ==> packet.cachedSize == |EncodePacket(packet.View().value)|
    {
      size := 0;
      VarintSizeAgrees(ToWire(groupId));
      if hasPacket {
        CleanPacketWrites(packet.View());
        EncodingIsShort(packet.View().value);
        var inner := packet.ByteSizeLong();
        VarintSizeAgrees(inner);
        size := size + 1 + VarintSize(inner) + inner;
      }
      if hasGroupId && groupId != 0 {
        size := size + 1 + VarintSize(ToWire(groupId));
      }
      cachedSize := size;
    }

    /** Writes the submessage after its cached size; whoever calls it has computed the sizes before. */
    method InternalSerialize(start: seq<byte>) returns (target: seq<byte>)
      requires Valid()
      ensures target == start + WrittenRequest(View(), if packet == null then 0 else packet.cachedSize)
    {
      ghost var group := Present(hasGroupId, 8, groupId);
      target := PacketMessage.WriteNumber(start, hasGroupId, 8, groupId);
      if hasPacket {
        FromTheStart(start, group, [18], Varint(packet.cachedSize), WrittenPacket(packet.View()));
        target := target + [18] + Varint(packet.cachedSize);
        target := packet.InternalSerialize(target);
      } else {
        assert group + [] == group;
      }
    }

    /**
     Computing the sizes and then writing gives the encoding of what the message shows, so parsing it shows
     the same.
     */
    method Serialize() returns (b: seq<byte>)
      requires Valid()
      modifies this`cachedSize, packet
      ensures Valid() && View() == old(View())
      ensures b == EncodeRequest(Observe(View())) && |b| == cachedSize
      ensures ParseRequest(b) == Some(Observe(View())) && IsRequest(b, Observe(View()))
    {
      var size := ByteSizeLong();
      b := InternalSerialize([]);
      CleanRequestWrites(View(), if packet == null then 0 else packet.cachedSize);
      RequestLaws(Observe(View()), DEFAULT_REQUEST);
      RequestIsWritten(Observe(View()));
    }
  }
}
