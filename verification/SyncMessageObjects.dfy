/** SyncRequest and SyncResponse as objects. */
module SyncMessageObjects {
  import opened Options
  import opened Words
  import opened Wire
  import opened Messages
  import opened MessageState
  import opened MessageBytes
  import opened MessageObjects

  class SyncRequestMessage {
    var hasPlayerId: bool
    var hasGroupId: bool
    var playerId: int64
    var groupId: int32
    var cachedSize: nat

    function View(): SyncRequest
      reads this
    {
      SyncRequest(playerId, groupId)
    }

    /** What is not the default has its bit set. */
    predicate Valid()
      reads this
    {
      (playerId != 0 ==> hasPlayerId) && (groupId != 0 ==> hasGroupId)
    }

    constructor ()
      ensures Valid() && View() == DEFAULT_SYNC_REQUEST
    {
      hasPlayerId, hasGroupId, playerId, groupId, cachedSize := false, false, 0, 0, 0;
    }

    method SetPlayerId(id: int64)
      requires Valid()
      modifies this
      ensures Valid() && View() == old(View()).(playerId := id)
    {
      playerId := id;
      hasPlayerId := true;
    }

    method SetGroupId(id: int32)
      requires Valid()
      modifies this
      ensures Valid() && View() == old(View()).(groupId := id)
    {
      groupId := id;
      hasGroupId := true;
    }

    method Clear()
      requires Valid()
      modifies this
      ensures Valid() && View() == DEFAULT_SYNC_REQUEST && !hasPlayerId && !hasGroupId
    {
      if hasPlayerId || hasGroupId {
        playerId, groupId := 0, 0;
      }
      hasPlayerId, hasGroupId := false, false;
    }

    method MergeFrom(from: SyncRequestMessage)
      requires Valid() && from.Valid() && from != this
      modifies this
      ensures Valid() && View() == MergeSyncRequest(old(View()), from.View())
    {
      if from.hasPlayerId && from.playerId != 0 {
        playerId := from.playerId;
      }
      if from.hasGroupId && from.groupId != 0 {
        groupId := from.groupId;
      }
      hasPlayerId, hasGroupId := hasPlayerId || from.hasPlayerId, hasGroupId || from.hasGroupId;
    }

    method CopyFrom(from: SyncRequestMessage)
      requires Valid() && from.Valid()
      modifies this
      ensures Valid() && View() == old(from.View())
    {
      if from == this {
        return;
      }
      Clear();
      MergeFrom(from);
    }

    method ByteSizeLong() returns (size: nat)
      requires Valid()
      modifies this`cachedSize
      ensures size == cachedSize == |EncodeSyncRequest(View())|
    {
      size := 0;
      VarintSizeAgrees(ToWire(playerId));
      VarintSizeAgrees(ToWire(groupId));
      if hasPlayerId && playerId != 0 {
        size := size + 1 + VarintSize(ToWire(playerId));
      }
      if hasGroupId && groupId != 0 {
        size := size + 1 + VarintSize(ToWire(groupId));
      }
      cachedSize := size;
    }

    method InternalSerialize(start: seq<byte>) returns (target: seq<byte>)
      requires Valid()
      ensures target == start + EncodeSyncRequest(View())
      ensures start <= target && IsSyncRequest(target[|start|..], View())
    {
      SyncRequestIsWritten(View());
      target := start;
      if hasPlayerId && playerId != 0 {
        target := target + NumberField(8, playerId);
      }
      if hasGroupId && groupId != 0 {
        Regroup(start, NumberIfSet(8, playerId), NumberField(16, groupId));
        target := target + NumberField(16, groupId);
      }
    }
  }

  lemma ResponseAfter(start: seq<byte>, p: Packet)
    ensures var data := EncodePacket(p);
            start + [10] + Varint(|data|) + data == start + EncodeResponse(SyncResponse(Some(p)))
  {
    var data := EncodePacket(p);
    FromTheStart(start, [], [10], Varint(|data|), data);
    assert start + [] == start && [] + [10] == [10];
  }

  class SyncResponseMessage {
    var hasPacket: bool
    var packet: PacketMessage?
    var cachedSize: nat

    /** A present packet is there, and one that is kept for reuse is fully cleared. */
    predicate Valid()
      reads this, packet
    {
      && (hasPacket ==> packet != null)
      && (packet != null ==> CleanPacket(packet.View()) && (!hasPacket ==> packet.View() == EMPTY_PACKET))
    }

    function View(): SyncResponse
      reads this, packet
    {
      SyncResponse(if hasPacket && packet != null then Some(packet.View().value) else None)
    }

    constructor ()
      ensures Valid() && View() == DEFAULT_RESPONSE
    {
      hasPacket, packet, cachedSize := false, null, 0;
    }

    method MutablePacket() returns (p: PacketMessage)
      requires Valid()
      modifies this
      ensures Valid() && hasPacket && p == packet && (p == old(packet) || fresh(p))
      ensures View() == SyncResponse(Some(if old(View()).packet.Some? then old(View()).packet.value
                                          else DEFAULT_PACKET))
    {
      hasPacket := true;
      if packet == null {
        packet := new PacketMessage();
      }
      p := packet;
    }

    method Clear()
      requires Valid()
      modifies this, packet
      ensures Valid() && packet == old(packet) && !hasPacket && View() == DEFAULT_RESPONSE
    {
      if hasPacket {
        ClearIsComplete(packet.View());
        packet.Clear();
      }
      hasPacket := false;
    }

    method MergeFrom(from: SyncResponseMessage)
      requires Valid() && from.Valid() && from != this && (from.packet != null ==> from.packet != packet)
      modifies this, packet
      ensures Valid() && (packet == old(packet) || fresh(packet))
      ensures View() == MergeResponse(old(View()), from.View()) && from.View() == old(from.View())
    {
      if from.hasPacket {
        if packet == null {
          packet := new PacketMessage.CopyConstruct(from.packet);
        } else {
          MergeIsMerge(packet.View(), from.packet.View());
          packet.MergeFrom(from.packet);
        }
      }
      hasPacket := hasPacket || from.hasPacket;
    }

    method CopyFrom(from: SyncResponseMessage)
      requires Valid() && from.Valid() && (from != this && from.packet != null ==> from.packet != packet)
      modifies this, packet
      ensures Valid() && View() == old(from.View())
    {
      if from == this {
        return;
      }
      Clear();
      MergeFrom(from);
    }

    /** Caches the size of the submessage on the way. */
    method ByteSizeLong() returns (size: nat)
      requires Valid()
      modifies this`cachedSize, packet
      ensures Valid() && View() == old(View()) && hasPacket == old(hasPacket)
      ensures size == cachedSize == |EncodeResponse(View())|
      ensures hasPacket ==> packet.cachedSize == |EncodePacket(packet.View().value)|
    {
      size := 0;
      if hasPacket {
        CleanPacketWrites(packet.View());
        EncodingIsShort(packet.View().value);
        var inner := packet.ByteSizeLong();
        VarintSizeAgrees(inner);
        size := 1 + VarintSize(inner) + inner;
      }
      cachedSize := size;
    }

    /** Writes the submessage after its cached size; whoever calls it has computed the sizes before. */
    method InternalSerialize(start: seq<byte>) returns (target: seq<byte>)
      requires Valid() && (hasPacket ==> packet.cachedSize == |EncodePacket(packet.View().value)|)
      ensures target == start + EncodeResponse(View())
    {
      target := start;
      if hasPacket {
        CleanPacketWrites(packet.View());
        ResponseAfter(start, packet.View().value);
        target := target + [10] + Varint(packet.cachedSize);
        target := packet.InternalSerialize(target);
      }
    }

    method Serialize() returns (b: seq<byte>)
      requires Valid()
      modifies this`cachedSize, packet
      ensures Valid() && View() == old(View())
      ensures b == EncodeResponse(View()) && |b| == cachedSize && ParseResponse(b) == Some(View())
      ensures IsResponse(b, View())
    {
      var size := ByteSizeLong();
      b := InternalSerialize([]);
      ResponseLaws(View(), DEFAULT_RESPONSE);
      ResponseIsWritten(View());
    }
  }
}
