/** The server as its methods run: tables updated in place, loops over maps and the 32-step bit loop. */
module ReliableUdpServer {
  import opened Options
  import opened Words
  import opened AckWindow
  import opened Packets
  import opened PendingTable
  import opened Delivery
  import opened ServerModel
  import opened PacketBytes

  class ClientConnection {
    const address: Address
    var sentSequence: uint32
    var receivedSequence: uint32
    var receivedAckBitfield: Bits
    var lastReceiveTime: real
    var groupIds: set<int32>
    var pendingAckPackets: Table

    constructor (address: Address, now: real)
      ensures View() == Conn(address, 0, Fresh(), now, {}, map[])
    {
      this.address := address;
      sentSequence, receivedSequence, receivedAckBitfield := 0, 0, Zero();
      lastReceiveTime, groupIds, pendingAckPackets := now, {}, map[];
    }

    function View(): Conn
      reads this
    {
      Conn(address, sentSequence, Window(receivedSequence, receivedAckBitfield), lastReceiveTime, groupIds,
           pendingAckPackets)
    }
  }

  /** A datagram taken from the receive queue, with the clock and the undefined shift of the moment it is handled. */
  datatype Received = Received(from: Address, data: seq<byte>, now: real, undef: Bits)

  function HandleAll(s: Server, queue: seq<Received>): Server {
    if queue == [] then s
    else
      var p := queue[|queue| - 1];
      HandlePacket(HandleAll(s, queue[..|queue| - 1]), p.from, p.data, p.now, p.undef)
  }

  function ReplyAll(s: Server, queue: seq<Received>): seq<Datagram> {
    if queue == [] then []
    else
      var p, before := queue[|queue| - 1], queue[..|queue| - 1];
      ReplyAll(s, before) + Reply(HandleAll(s, before), p.from, p.data, p.now, p.undef)
  }

  /** The queue is handled from its front. */
  lemma {:induction false} FrontFirst(s: Server, p: Received, rest: seq<Received>)
    ensures HandleAll(s, [p] + rest) == HandleAll(HandlePacket(s, p.from, p.data, p.now, p.undef), rest)
    ensures ReplyAll(s, [p] + rest) ==
            Reply(s, p.from, p.data, p.now, p.undef) + ReplyAll(HandlePacket(s, p.from, p.data, p.now, p.undef), rest)
    decreases |rest|
  {
    var queue, s1 := [p] + rest, HandlePacket(s, p.from, p.data, p.now, p.undef);
    if rest == [] {
      assert queue[..0] == [] && HandleAll(s, []) == s && ReplyAll(s, []) == [];
    } else {
      var before, last := rest[..|rest| - 1], rest[|rest| - 1];
      assert queue[..|queue| - 1] == [p] + before && queue[|queue| - 1] == last;
      FrontFirst(s, p, before);
      Regroup(Reply(s, p.from, p.data, p.now, p.undef), ReplyAll(s1, before),
              Reply(HandleAll(s1, before), last.from, last.data, last.now, last.undef));
    }
  }

  lemma ReplyOneMore(s: Server, queue: seq<Received>, i: nat)
    requires i < |queue|
    ensures var before, p := queue[..i], queue[i];
            && HandleAll(s, queue[..i + 1]) == HandlePacket(HandleAll(s, before), p.from, p.data, p.now, p.undef)
            && ReplyAll(s, queue[..i + 1]) == ReplyAll(s, before)
               + Reply(HandleAll(s, before), p.from, p.data, p.now, p.undef)
  {
    assert queue[..i + 1][..i] == queue[..i];
  }

  /** Packet `k` of client `a` is overdue and may be sent again. */
  ghost predicate Due(s: Server, a: Address, k: uint32, now: real, limits: Limits) {
    && a in s.conns && k in s.conns[a].pending
    && Expired(s.conns[a].pending[k], now, limits) && s.conns[a].pending[k].retries < limits.maxRetries
  }

  /** `out` is the stored bytes of the packets `which`, one datagram each, in that order. */
  ghost predicate Carries(out: seq<Datagram>, which: seq<(Address, uint32)>, s: Server) {
    && |out| == |which|
    && (forall i, j :: 0 <= i < j < |which| ==> which[i] != which[j])
    && (forall i :: 0 <= i < |which| ==> IsStored(out[i], which[i].0, which[i].1, s))
  }

  ghost predicate IsStored(x: Datagram, a: Address, k: uint32, s: Server) {
    a in s.conns && k in s.conns[a].pending && x == Datagram(a, s.conns[a].pending[k].data)
  }

  /** The same for the packets `ks` of one table. */
  ghost predicate CarriesOf(out: seq<Datagram>, to: Address, t: Table, ks: seq<uint32>) {
    && |out| == |ks|
    && (forall i, j :: 0 <= i < j < |ks| ==> ks[i] != ks[j])
    && (forall i :: 0 <= i < |ks| ==> ks[i] in t && out[i] == Datagram(to, t[ks[i]].data))
  }

  /** A pass over table `t` left `t'`: it resent `ks`, every overdue packet unless one was found exhausted. */
  ghost predicate PassOver(t: Table, t': Table, exhausted: bool, ks: seq<uint32>, now: real, limits: Limits) {
    && (exhausted <==> Exhausted(t, now, limits))
    && (forall k :: k in ks ==> k in t && Expired(t[k], now, limits) && t[k].retries < limits.maxRetries)
    && (!exhausted ==> forall k :: k in t && Expired(t[k], now, limits) ==> k in ks)
    && t' == map k | k in t :: if k in ks then Retried(t[k], now) else t[k]
  }

  lemma PassOverResends(t: Table, t': Table, exhausted: bool, ks: seq<uint32>, now: real, limits: Limits)
    requires PassOver(t, t', exhausted, ks, now, limits) && !exhausted
    ensures t' == Resent(t, now, limits)
  {
  }

  function Tagged(a: Address, ks: seq<uint32>): (tagged: seq<(Address, uint32)>)
    ensures |tagged| == |ks|
  {
    seq(|ks|, i requires 0 <= i < |ks| => (a, ks[i]))
  }

  /** How far the outer loop has come with the tables: the clients in `rest` are still to be visited. */
  ghost predicate PassAt(s: Server, mid: Server, rest: set<Address>, dead: seq<Address>, now: real, limits: Limits) {
    && SameMembership(s, mid) && rest <= s.conns.Keys
    && (forall a :: a in rest ==> mid.conns[a] == s.conns[a])
    && (forall a :: a in s.conns && a !in rest && !Exhausted(s.conns[a].pending, now, limits) ==>
         mid.conns[a] == s.conns[a].(pending := Resent(s.conns[a].pending, now, limits)))
    && (forall a :: a in dead <==> a in s.conns && a !in rest && Exhausted(s.conns[a].pending, now, limits))
  }

  /** And with the packets: those sent again were due, and those due of a visited survivor were sent again. */
  ghost predicate PassSent(s: Server, rest: set<Address>, resent: seq<(Address, uint32)>, now: real, limits: Limits) {
    && (forall i :: 0 <= i < |resent| ==> resent[i].0 !in rest && Due(s, resent[i].0, resent[i].1, now, limits))
    && (forall a, k: uint32 ::
          a !in rest && Due(s, a, k, now, limits) && !Exhausted(s.conns[a].pending, now, limits) ==> (a, k) in resent)
  }

  lemma PassVisits(s: Server, mid: Server, mid': Server, rest: set<Address>, dead: seq<Address>, now: real,
                   limits: Limits,
                   a: Address, exhausted: bool, ks: seq<uint32>)
    requires PassAt(s, mid, rest, dead, now, limits) && a in rest && a in mid.conns && a in mid'.conns
    requires mid' == mid.(conns := mid.conns[a := mid.conns[a].(pending := mid'.conns[a].pending)])
    requires PassOver(mid.conns[a].pending, mid'.conns[a].pending, exhausted, ks, now, limits)
    ensures PassAt(s, mid', rest - {a}, if exhausted then dead + [a] else dead, now, limits)
  {
    if !exhausted {
      PassOverResends(mid.conns[a].pending, mid'.conns[a].pending, exhausted, ks, now, limits);
    }
  }

  lemma PassSends(s: Server, rest: set<Address>, resent: seq<(Address, uint32)>, now: real, limits: Limits,
                  a: Address, t': Table, exhausted: bool, ks: seq<uint32>)
    requires PassSent(s, rest, resent, now, limits) && a in rest && a in s.conns
    requires PassOver(s.conns[a].pending, t', exhausted, ks, now, limits)
    ensures PassSent(s, rest - {a}, resent + Tagged(a, ks), now, limits)
  {
    var resent' := resent + Tagged(a, ks);
    forall b, k: uint32 | b !in rest - {a} && Due(s, b, k, now, limits) && !Exhausted(s.conns[b].pending, now, limits)
      ensures (b, k) in resent'
    {
      if b == a {
        var j :| 0 <= j < |ks| && ks[j] == k;
        assert resent'[|resent| + j] == (a, k);
      }
    }
  }

  lemma PassCarries(s: Server, mid: Server, rest: set<Address>, dead: seq<Address>, resent: seq<(Address, uint32)>,
                    now: real, limits: Limits,
                    a: Address, ks: seq<uint32>, out: seq<Datagram>, chunk: seq<Datagram>)
    requires PassAt(s, mid, rest, dead, now, limits) && PassSent(s, rest, resent, now, limits)
    requires a in rest && a in s.conns && a in mid.conns && s.conns[a].address == a
    requires Carries(out, resent, s) && CarriesOf(chunk, mid.conns[a].address, mid.conns[a].pending, ks)
    ensures Carries(out + chunk, resent + Tagged(a, ks), s)
  {
  }

  /** One visit of the outer loop. */
  lemma PassStep(s: Server, mid: Server, mid': Server, rest: set<Address>, dead: seq<Address>,
                 resent: seq<(Address, uint32)>, now: real, limits: Limits,
                 a: Address, exhausted: bool, ks: seq<uint32>, out: seq<Datagram>, chunk: seq<Datagram>)
    requires PassAt(s, mid, rest, dead, now, limits) && PassSent(s, rest, resent, now, limits)
             && Carries(out, resent, s)
    requires a in rest && a in s.conns && a in mid.conns && a in mid'.conns && s.conns[a].address == a
    requires mid' == mid.(conns := mid.conns[a := mid.conns[a].(pending := mid'.conns[a].pending)])
    requires PassOver(mid.conns[a].pending, mid'.conns[a].pending, exhausted, ks, now, limits)
    requires CarriesOf(chunk, mid.conns[a].address, mid.conns[a].pending, ks)
    ensures PassAt(s, mid', rest - {a}, if exhausted then dead + [a] else dead, now, limits)
    ensures PassSent(s, rest - {a}, resent + Tagged(a, ks), now, limits)
    ensures Carries(out + chunk, resent + Tagged(a, ks), s)
  {
    assert mid.conns[a] == s.conns[a];
    PassVisits(s, mid, mid', rest, dead, now, limits, a, exhausted, ks);
    PassSends(s, rest, resent, now, limits, a, mid'.conns[a].pending, exhausted, ks);
    PassCarries(s, mid, rest, dead, resent, now, limits, a, ks, out, chunk);
  }

  lemma PassStarts(s: Server, now: real, limits: Limits)
    ensures PassAt(s, s, s.conns.Keys, [], now, limits) && PassSent(s, s.conns.Keys, [], now, limits)
            && Carries([], [], s)
  {
  }

  lemma PassEnds(s: Server, mid: Server, dead: seq<Address>, now: real, limits: Limits)
    requires Reachable(s, limits) && PassAt(s, mid, {}, dead, now, limits)
    ensures Mirror(mid) && Reachable(CheckResends(s, now, limits), limits)
    ensures (set a | a in dead) == ExhaustedClients(s, now, limits)
    ensures DropAll(mid, set a | a in dead) == CheckResends(s, now, limits)
  {
    ReachableMirrors(s, limits);
    MirrorSame(s, mid);
    ReachableStep(s, ResendPass(now), limits);
    assert (set a | a in dead) == ExhaustedClients(s, now, limits);
    assert DropAll(mid, set a | a in dead).conns == CheckResends(s, now, limits).conns;
  }

  lemma TimeoutsEnd(s: Server, dead: seq<Address>, now: real, limits: Limits)
    requires Reachable(s, limits) && (set a | a in dead) == SilentClients(s, now, limits)
    ensures Mirror(s) && Reachable(CheckTimeouts(s, now, limits), limits)
    ensures DropAll(s, set a | a in dead) == CheckTimeouts(s, now, limits)
  {
    ReachableMirrors(s, limits);
    ReachableStep(s, TimeoutPass(now), limits);
  }

  lemma DropOneMore(mid: Server, gone: set<Address>, a: Address)
    requires Mirror(mid)
    ensures Mirror(DropAll(mid, gone))
    ensures Disconnect(DropAll(mid, gone), a) == DropAll(mid, gone + {a})
  {
    MirrorDropAll(mid, gone);
    DisconnectIsDrop(DropAll(mid, gone), a);
    DropAllTwice(mid, gone, a);
  }

  lemma DropNone(mid: Server)
    requires Mirror(mid)
    ensures DropAll(mid, {}) == mid
  {
    assert forall g :: g in mid.groups ==> mid.groups[g] - {} == mid.groups[g];
    assert DropAll(mid, {}).groups == mid.groups;
    assert DropAll(mid, {}).conns == mid.conns;
  }

  /** `out` holds exactly one Data packet with `data` for each of the addresses `to`. */
  ghost predicate OneEach(out: seq<Datagram>, to: set<Address>, s: Server, data: seq<byte>) {
    && (forall i, j :: 0 <= i < j < |out| ==> out[i].to != out[j].to)
    && (forall a :: a in to <==> exists i :: 0 <= i < |out| && out[i].to == a)
    && (forall i :: 0 <= i < |out| ==> out[i].to in s.conns && out[i] == DataDatagram(s, out[i].to, data))
  }

  /** The datagram a send of `data` to `a` puts on the wire. */
  function DataDatagram(s: Server, a: Address, data: seq<byte>): Datagram
    requires a in s.conns
  {
    Datagram(a, NextData(s.conns[a], data))
  }

  /** How far a broadcast has come: the members in `rest` are still to be visited. */
  ghost predicate BroadcastAt(s: Server, mid: Server, group: int32, rest: set<Address>, exclude: Option<Address>,
                              out: seq<Datagram>, data: seq<byte>, clock: Address -> real) {
    var done := Targets(s, group, exclude) - rest;
    mid == SendToAll(s, done, data, clock) && OneEach(out, done, s, data)
  }

  lemma BroadcastStarts(s: Server, group: int32, exclude: Option<Address>, data: seq<byte>, clock: Address -> real)
    ensures BroadcastAt(s, s, group, if group in s.groups then s.groups[group].Keys else {}, exclude, [], data, clock)
  {
  }

  lemma BroadcastVisits(s: Server, mid: Server, group: int32, rest: set<Address>, exclude: Option<Address>,
                        out: seq<Datagram>, data: seq<byte>, clock: Address -> real, member: Address)
    requires BroadcastAt(s, mid, group, rest, exclude, out, data, clock)
    requires group in s.groups && member in s.groups[group] && s.groups[group][member] == member
    requires member in rest && member in s.conns && member in mid.conns
    ensures if Some(member) == exclude then BroadcastAt(s, mid, group, rest - {member}, exclude, out, data, clock)
            else BroadcastAt(s, Send(mid, member, data, clock(member)), group, rest - {member}, exclude,
                             out + [DataDatagram(mid, member, data)], data, clock)
  {
    var done := Targets(s, group, exclude) - rest;
    assert mid.conns[member] == s.conns[member];
    if Some(member) != exclude {
      assert Targets(s, group, exclude) - (rest - {member}) == done + {member};
      SendToAllOneMore(s, done, member, data, clock);
      OneEachOneMore(out, done, s, data, member);
    } else {
      assert Targets(s, group, exclude) - (rest - {member}) == done;
    }
  }

  lemma OneEachOneMore(out: seq<Datagram>, to: set<Address>, s: Server, data: seq<byte>, a: Address)
    requires OneEach(out, to, s, data) && a in s.conns && a !in to
    ensures OneEach(out + [DataDatagram(s, a, data)], to + {a}, s, data)
  {
    var out' := out + [DataDatagram(s, a, data)];
    forall b ensures b in to + {a} <==> exists i :: 0 <= i < |out'| && out'[i].to == b {
      if b == a { assert out'[|out|].to == a; }
      if b in to {
        var i :| 0 <= i < |out| && out[i].to == b;
        assert out'[i].to == b;
      }
    }
  }

  // The wire, client by client

  ghost predicate Emits(s: Server, c: Call, out: seq<Datagram>, limits: Limits) {
    forall a :: ToClient(out, a) == Emitted(s, c, a, limits)
  }

  lemma SendEmits(s: Server, to: Address, data: seq<byte>, now: real, limits: Limits)
    ensures Emits(s, SendCall(to, data, now), if to in s.conns then [DataDatagram(s, to, data)] else [], limits)
  {
    if to in s.conns {
      assert DataDatagram(s, to, data) in [DataDatagram(s, to, data)];
    }
  }

  lemma BroadcastEmits(s: Server, group: int32, data: seq<byte>, exclude: Option<Address>, clock: Address -> real,
                       out: seq<Datagram>, limits: Limits)
    requires OneEach(out, Targets(s, group, exclude), s, data)
    ensures Emits(s, BroadcastCall(group, data, exclude, clock), out, limits)
  {
    forall a ensures ToClient(out, a) == Emitted(s, BroadcastCall(group, data, exclude, clock), a, limits) {
      if a in Targets(s, group, exclude) {
        var i :| 0 <= i < |out| && out[i].to == a;
        assert out[i] in out && out[i] == DataDatagram(s, a, data);
      }
    }
  }

  lemma ConnectEmits(s: Server, client: Address, now: real, limits: Limits)
    ensures Emits(s, ConnectCall(client, now), if client in s.conns then []
                  else [Datagram(client, ControlPacket(ACK, Fresh()))], limits)
  {
    var x := Datagram(client, ControlPacket(ACK, Fresh()));
    assert x in [x];
  }

  /** A client that survives the pass is sent exactly its overdue packets. */
  lemma ResendsEmit(s: Server, out: seq<Datagram>, resent: seq<(Address, uint32)>, now: real, limits: Limits,
                    a: Address)
    requires PassSent(s, {}, resent, now, limits) && Carries(out, resent, s) && a in CheckResends(s, now, limits).conns
    ensures ToClient(out, a) == Emitted(s, ResendPass(now), a, limits)
  {
    forall d | d in ToClient(out, a) ensures d in Overdue(s.conns[a].pending, now, limits) {
      var i :| 0 <= i < |out| && out[i].to == a && out[i].data == d;
      assert IsStored(out[i], resent[i].0, resent[i].1, s) && Due(s, resent[i].0, resent[i].1, now, limits);
    }
    forall k | k in s.conns[a].pending && Expired(s.conns[a].pending[k], now, limits)
      ensures s.conns[a].pending[k].data in ToClient(out, a)
    {
      assert Due(s, a, k, now, limits);
      var i :| 0 <= i < |resent| && resent[i] == (a, k);
      assert IsStored(out[i], a, k, s) && out[i] in out;
    }
  }

  class ReliableUdpServer {
    const limits: Limits
    /** Whether the listen socket is open; only SendTo checks it. */
    const listening: bool
    var connections: map<Address, ClientConnection>
    var groups: GroupTable
    /** Every datagram handed to the socket, oldest first. */
    var wire: seq<Datagram>

    ghost predicate Valid()
      reads this`connections, this`groups, connections.Values
    {
      Distinct() && Reachable(View(), limits)
    }

    /** No two addresses share a connection object. */
    ghost predicate Distinct()
      reads this`connections
    {
      forall a, b :: a in connections && b in connections && a != b ==> connections[a] != connections[b]
    }

    function View(): Server
      reads this`connections, this`groups, connections.Values
    {
      Server(map a | a in connections :: connections[a].View(), groups, AsWritten)
    }

    twostate lemma OnlyChanged(a: Address)
      requires old(Distinct()) && connections == old(connections) && a in connections
      requires forall b :: b in connections && connections[b] != connections[a] ==> unchanged(connections[b])
      ensures View().conns == old(View()).conns[a := connections[a].View()]
    {
    }

    twostate lemma Added(a: Address, new c: ClientConnection)
      requires a !in old(connections) && connections == old(connections)[a := c]
      requires forall b :: b in old(connections) ==> unchanged(old(connections)[b])
      ensures View().conns == old(View()).conns[a := c.View()]
    {
    }

    constructor (limits: Limits, listening: bool)
      ensures Valid() && View() == NewServer(AsWritten) && wire == []
      ensures this.limits == limits && this.listening == listening
    {
      this.limits, this.listening := limits, listening;
      connections, groups, wire := map[], map[], [];
      new;
      assert View() == RunServer(AsWritten, [], limits);
    }

    method ProcessAck(header: Header, connection: ClientConnection)
      modifies connection`pendingAckPackets
      ensures connection.pendingAckPackets == AfterAck(old(connection.pendingAckPackets), header.lastAcked, header.bits)
    {
      ghost var was := connection.pendingAckPackets;
      if header.lastAcked in connection.pendingAckPackets {
        connection.pendingAckPackets := connection.pendingAckPackets - {header.lastAcked};
      }
      for i := 0 to 32
        invariant connection.pendingAckPackets ==
                  map k | k in was && k != header.lastAcked
                          && !(exists j :: 0 <= j < i && header.bits[j] && k == Sub32(header.lastAcked, j + 1))
                      :: was[k]
      {
        if header.bits[i] {
          var acked := Sub32(header.lastAcked, i + 1);
          if acked in connection.pendingAckPackets {
            connection.pendingAckPackets := connection.pendingAckPackets - {acked};
          }
        }
      }
    }

    method UpdateReceivedState(incoming: uint32, connection: ClientConnection, undef: Bits)
      modifies connection`receivedSequence, connection`receivedAckBitfield
      ensures connection.View() == Updated(AsWritten, old(connection.View()), incoming, undef)
    {
      if incoming <= Sub32(connection.receivedSequence, 32) {
        return;
      }
      if incoming > connection.receivedSequence {
        var diff := incoming - connection.receivedSequence;
        connection.receivedAckBitfield :=
          SetBit(if diff >= 32 then Zero() else ShiftLeft(connection.receivedAckBitfield, diff), 0);
        connection.receivedSequence := incoming;
      } else {
        var diff := connection.receivedSequence - incoming;
        connection.receivedAckBitfield :=
          if diff == 0 then Or(connection.receivedAckBitfield, undef)
            else SetBit(connection.receivedAckBitfield, diff - 1);
      }
    }

    method SendAck(connection: ClientConnection)
      requires listening
      modifies this`wire
      ensures wire == old(wire) + [Datagram(connection.address, ControlPacket(ACK, connection.View().window))]
      ensures Says(wire[|old(wire)|].data, 1, 0, connection.View().window, [])
    {
      ControlPacketSays(ACK, connection.View().window);
      var header := Header(ACK, 0, connection.receivedSequence, connection.receivedAckBitfield);
      wire := wire + [Datagram(connection.address, Encode(header))];
    }

    method SendTo(dst: Address, data: seq<byte>, now: real)
      requires Valid()
      modifies this`wire, connections.Values
      ensures Valid() && connections == old(connections)
      ensures View() == if listening then Send(old(View()), dst, data, now) else old(View())
      ensures wire == old(wire) + if listening && dst in old(View()).conns
                                  then [DataDatagram(old(View()), dst, data)]
                                  else []
      ensures listening && dst in old(View()).conns ==>
                var c := old(View()).conns[dst];
                Says(wire[|old(wire)|].data, 0, (c.sent + 1) % 0x1_0000_0000, c.window, data)
      ensures listening ==> Emits(old(View()), SendCall(dst, data, now), wire[|old(wire)|..], limits)
    {
      if dst in connections { NextDataSays(View().conns[dst], data); }
      SendEmits(View(), dst, data, now, limits);
      if !listening || dst !in connections {
        return;
      }
      ghost var was := View();
      var connection := connections[dst];
      connection.sentSequence := (connection.sentSequence + 1) % 0x1_0000_0000;
      var header := Header(DATA, connection.sentSequence, connection.receivedSequence, connection.receivedAckBitfield);
      var packetData := Encode(header) + data;
      wire := wire + [Datagram(dst, packetData)];
      connection.pendingAckPackets := connection.pendingAckPackets[header.sequence := Pending(packetData, now, 0)];
      OnlyChanged(dst);
      assert View() == Send(was, dst, data, now);
      ReachableStep(was, SendCall(dst, data, now), limits);
    }

    /** Every send reads the clock; `clock` has the reading for each member. */
    method BroadcastToGroup(group: int32, data: seq<byte>, exclude: Option<Address>, clock: Address -> real)
      requires Valid()
      modifies this`wire, connections.Values
      ensures Valid() && connections == old(connections)
      ensures View() == if listening then SendToAll(old(View()), Targets(old(View()), group, exclude), data, clock)
              else old(View())
      ensures old(wire) <= wire
      ensures var targets := if listening then Targets(old(View()), group, exclude) else {};
              OneEach(wire[|old(wire)|..], targets, old(View()), data)
      ensures listening ==> Emits(old(View()), BroadcastCall(group, data, exclude, clock), wire[|old(wire)|..], limits)
    {
      ghost var was := View();
      BroadcastStarts(was, group, exclude, data, clock);
      if group in groups {
        var members := groups[group];
        var rest := members.Keys;
        ghost var out: seq<Datagram> := [];
        while rest != {}
          invariant Valid() && connections == old(connections) && rest <= members.Keys && wire == old(wire) + out
          invariant if listening then BroadcastAt(was, View(), group, rest, exclude, out, data, clock)
                    else View() == was && out == []
        {
          var member :| member in rest;
          ReachableMember(was, group, member, limits);
          if listening {
            BroadcastVisits(was, View(), group, rest, exclude, out, data, clock, member);
          }
          rest := rest - {member};
          var memberAddr := members[member];
          if exclude.None? || memberAddr != exclude.value {
            ghost var next := if listening then [DataDatagram(View(), member, data)] else [];
            SendTo(memberAddr, data, clock(memberAddr));
            Regroup(old(wire), out, next);
            out := out + next;
          }
        }
      }
      assert Targets(was, group, exclude) - {} == Targets(was, group, exclude);
      if listening {
        BroadcastEmits(was, group, data, exclude, clock, wire[|old(wire)|..], limits);
      }
    }

    method HandleNewConnection(newAddr: Address, now: real)
      requires Valid() && listening
      modifies this`connections, this`wire
      ensures Valid() && fresh(connections.Values - old(connections.Values))
      ensures View() == Connect(old(View()), newAddr, now)
      ensures wire == old(wire) + if newAddr in old(View()).conns then []
              else [Datagram(newAddr, ControlPacket(ACK, Fresh()))]
      ensures Emits(old(View()), ConnectCall(newAddr, now), wire[|old(wire)|..], limits)
    {
      ConnectEmits(View(), newAddr, now, limits);
      if newAddr !in connections {
        var connection := AddConnection(newAddr, now);
        SendAck(connection);
      }
    }

    method AddConnection(newAddr: Address, now: real) returns (connection: ClientConnection)
      requires Valid() && newAddr !in connections
      modifies this`connections
      ensures Valid() && fresh(connection) && connections == old(connections)[newAddr := connection]
      ensures View() == Connect(old(View()), newAddr, now)
              && connection.View() == Conn(newAddr, 0, Fresh(), now, {}, map[])
      ensures connections.Values <= old(connections.Values) + {connection}
    {
      ghost var was := View();
      ReachableStep(was, ConnectCall(newAddr, now), limits);
      connection := new ClientConnection(newAddr, now);
      connections := connections[newAddr := connection];
      Added(newAddr, connection);
      assert View() == Connect(was, newAddr, now);
    }

    /** The end of LeaveGroup and the loop body of DisconnectClient: a group left empty is removed. */
    method RemoveMember(client: Address, groupId: int32)
      modifies this`groups
      ensures groups == WithoutMember(old(groups), client, {groupId})
    {
      if groupId in groups {
        groups := groups[groupId := groups[groupId] - {client}];
        if groups[groupId] == map[] {
          groups := groups - {groupId};
        }
      }
    }

    /** The loop of DisconnectClient over the client's own group list, in any order. */
    method RemoveFromGroups(client: Address, groupIds: set<int32>)
      requires forall g :: g in groups ==> groups[g] != map[]
      modifies this`groups
      ensures groups == WithoutMember(old(groups), client, groupIds)
    {
      ghost var was := groups;
      var rest := groupIds;
      assert groups == WithoutMember(was, client, {});
      while rest != {}
        invariant rest <= groupIds && groups == WithoutMember(was, client, groupIds - rest)
      {
        var groupId :| groupId in rest;
        WithoutMemberOneMore(was, client, groupIds - rest, groupId);
        assert groupIds - (rest - {groupId}) == groupIds - rest + {groupId};
        rest := rest - {groupId};
        RemoveMember(client, groupId);
      }
      assert groupIds - rest == groupIds;
    }

    method DisconnectClient(client: Address)
      requires Distinct() && Mirror(View())
      modifies this`connections, this`groups
      ensures Distinct() && (old(Valid()) ==> Valid()) && connections == old(connections) - {client}
      ensures View() == Disconnect(old(View()), client)
    {
      ghost var was := View();
      if client in connections {
        var connection := connections[client];
        connections := connections - {client};
        RemoveFromGroups(client, connection.groupIds);
        assert View().conns == Disconnect(was, client).conns;
      }
      if old(Valid()) { ReachableStep(was, DisconnectCall(client), limits); }
    }

    method AddMember(client: Address, group: int32)
      modifies this`groups
      ensures var members := if group in old(groups) then old(groups)[group] else map[];
              groups == old(groups)[group := members[client := client]]
    {
      if group !in groups {
        groups := groups[group := map[]];
      }
      groups := groups[group := groups[group][client := client]];
    }

    method JoinGroup(client: Address, group: int32)
      requires Distinct()
      modifies this`groups, connections.Values
      ensures Distinct() && (old(Valid()) ==> Valid()) && connections == old(connections)
      ensures View() == Join(old(View()), client, group)
    {
      ghost var was := View();
      if client in connections {
        var connection := connections[client];
        if group in connection.groupIds {
          return;
        }
        connection.groupIds := connection.groupIds + {group};
        AddMember(client, group);
        OnlyChanged(client);
      }
      assert View() == Join(was, client, group);
      if old(Valid()) { ReachableStep(was, JoinCall(client, group), limits); }
    }

    method LeaveGroup(client: Address, group: int32)
      requires Distinct()
      modifies this`groups, connections.Values
      ensures Distinct() && (old(Valid()) ==> Valid()) && connections == old(connections)
      ensures View() == Leave(old(View()), client, group)
    {
      ghost var was := View();
      if client in connections {
        var connection := connections[client];
        if group !in connection.groupIds {
          return;
        }
        connection.groupIds := connection.groupIds - {group};
        RemoveMember(client, group);
        OnlyChanged(client);
      }
      assert View() == Leave(was, client, group);
      if old(Valid()) { ReachableStep(was, LeaveCall(client, group), limits); }
    }

    /** The inner loop of CheckForResends: it stops at the first packet that has no retry left. */
    method ResendOverdue(connection: ClientConnection, now: real)
        returns (exhausted: bool, resent: seq<uint32>, ghost out: seq<Datagram>)
      requires listening
      modifies this`wire, connection`pendingAckPackets
      ensures PassOver(old(connection.pendingAckPackets), connection.pendingAckPackets, exhausted, resent, now, limits)
      ensures wire == old(wire) + out && CarriesOf(out, connection.address, old(connection.pendingAckPackets), resent)
    {
      ghost var was := connection.pendingAckPackets;
      exhausted, resent := false, [];
      var rest := connection.pendingAckPackets.Keys;
      out := [];
      while rest != {} && !exhausted
        invariant rest <= was.Keys && (forall k :: k in resent ==> k in was && k !in rest)
        invariant connection.pendingAckPackets ==
                  map k | k in was :: if k in resent then Retried(was[k], now) else was[k]
        invariant forall k :: k in resent ==> Expired(was[k], now, limits) && was[k].retries < limits.maxRetries
        invariant !exhausted ==> forall k :: k in was && k !in rest && Expired(was[k], now, limits) ==> k in resent
        invariant exhausted ==> Exhausted(was, now, limits)
        invariant wire == old(wire) + out && CarriesOf(out, connection.address, was, resent)
        decreases rest, !exhausted
      {
        var k :| k in rest;
        rest := rest - {k};
        var packet := connection.pendingAckPackets[k];
        if Expired(packet, now, limits) {
          if packet.retries >= limits.maxRetries {
            exhausted := true;
          } else {
            wire := wire + [Datagram(connection.address, packet.data)];
            out := out + [Datagram(connection.address, packet.data)];
            connection.pendingAckPackets := connection.pendingAckPackets[k := Retried(packet, now)];
            resent := resent + [k];
          }
        }
      }
    }

    method CheckForResends(now: real) returns (resent: seq<(Address, uint32)>, ghost out: seq<Datagram>)
      requires Valid() && listening
      modifies this`connections, this`groups, this`wire, connections.Values
      ensures Valid() && connections == old(connections) - ExhaustedClients(old(View()), now, limits)
      ensures View() == CheckResends(old(View()), now, limits)
      ensures PassSent(old(View()), {}, resent, now, limits)
      ensures wire == old(wire) + out && Carries(out, resent, old(View()))
      ensures forall a :: a in View().conns ==> ToClient(out, a) == Emitted(old(View()), ResendPass(now), a, limits)
    {
      ghost var was := View();
      ReachableAddresses(was, limits);
      var clientsToDisconnect: seq<Address>;
      clientsToDisconnect, resent, out := ResendAll(now);
      PassEnds(was, View(), clientsToDisconnect, now, limits);
      DisconnectAll(clientsToDisconnect);
      forall a | a in View().conns { ResendsEmit(was, out, resent, now, limits, a); }
    }

    /** The outer loop of CheckForResends over every connection, in any order. */
    method ResendAll(now: real)
        returns (clientsToDisconnect: seq<Address>, resent: seq<(Address, uint32)>, ghost out: seq<Datagram>)
      requires Distinct() && listening && (forall a :: a in connections ==> View().conns[a].address == a)
      modifies this`wire, connections.Values
      ensures Distinct() && connections == old(connections)
      ensures PassAt(old(View()), View(), {}, clientsToDisconnect, now, limits)
      ensures PassSent(old(View()), {}, resent, now, limits)
      ensures wire == old(wire) + out && Carries(out, resent, old(View()))
    {
      ghost var was := View();
      clientsToDisconnect, resent, out := [], [], [];
      var rest := connections.Keys;
      PassStarts(was, now, limits);
      while rest != {}
        invariant Distinct() && connections == old(connections) && rest <= connections.Keys
        invariant PassAt(was, View(), rest, clientsToDisconnect, now, limits)
                  && PassSent(was, rest, resent, now, limits)
        invariant wire == old(wire) + out && Carries(out, resent, was)
      {
        var a :| a in rest;
        clientsToDisconnect, resent, out := ResendNext(was, old(wire), out, rest, clientsToDisconnect, resent, a, now);
        rest := rest - {a};
      }
    }

    /** The body of the outer loop for client `a`; `base` is the wire before the pass. */
    method ResendNext(ghost was: Server, ghost base: seq<Datagram>, ghost out: seq<Datagram>, ghost rest: set<Address>,
                      dead: seq<Address>, resent: seq<(Address, uint32)>, a: Address, now: real)
      returns (dead': seq<Address>, resent': seq<(Address, uint32)>, ghost out': seq<Datagram>)
      requires Distinct() && listening && a in rest && a in connections && a in was.conns && was.conns[a].address == a
      requires PassAt(was, View(), rest, dead, now, limits) && PassSent(was, rest, resent, now, limits)
               && Carries(out, resent, was)
      requires wire == base + out
      modifies this`wire, connections.Values
      ensures Distinct() && connections == old(connections) && wire == base + out'
      ensures PassAt(was, View(), rest - {a}, dead', now, limits) && PassSent(was, rest - {a}, resent', now, limits)
      ensures Carries(out', resent', was)
    {
      ghost var mid := View();
      var exhausted, ks;
      ghost var chunk;
      exhausted, ks, chunk := ResendTo(a, now);
      PassStep(was, mid, View(), rest, dead, resent, now, limits, a, exhausted, ks, out, chunk);
      dead', resent', out' := if exhausted then dead + [a] else dead, resent + Tagged(a, ks), out + chunk;
      Regroup(base, out, chunk);
    }

    method ResendTo(a: Address, now: real) returns (exhausted: bool, ks: seq<uint32>, ghost chunk: seq<Datagram>)
      requires Distinct() && listening && a in connections
      modifies this`wire, connections.Values
      ensures Distinct() && connections == old(connections)
      ensures var was := old(View());
              View() == was.(conns := was.conns[a := was.conns[a].(pending := View().conns[a].pending)])
      ensures PassOver(old(View()).conns[a].pending, View().conns[a].pending, exhausted, ks, now, limits)
      ensures wire == old(wire) + chunk
      ensures CarriesOf(chunk, old(View()).conns[a].address, old(View()).conns[a].pending, ks)
    {
      exhausted, ks, chunk := ResendOverdue(connections[a], now);
      OnlyChanged(a);
    }

    method DisconnectAll(clients: seq<Address>)
      requires Distinct() && Mirror(View())
      modifies this`connections, this`groups
      ensures Distinct() && connections == old(connections) - set a | a in clients
      ensures View() == DropAll(old(View()), set a | a in clients)
    {
      ghost var was := View();
      DropNone(was);
      ghost var gone: set<Address> := {};
      for i := 0 to |clients|
        invariant gone == set a | a in clients[..i]
        invariant Distinct() && connections == old(connections) - gone && View() == DropAll(was, gone)
      {
        DropOneMore(was, gone, clients[i]);
        DisconnectClient(clients[i]);
        gone := gone + {clients[i]};
      }
      assert clients[..|clients|] == clients;
    }

    method CheckForTimeouts(now: real)
      requires Valid()
      modifies this`connections, this`groups
      ensures Valid() && connections == old(connections) - SilentClients(old(View()), now, limits)
      ensures View() == CheckTimeouts(old(View()), now, limits)
    {
      var timedOutClients := FindSilent(now);
      TimeoutsEnd(View(), timedOutClients, now, limits);
      DisconnectAll(timedOutClients);
    }

    method FindSilent(now: real) returns (timedOutClients: seq<Address>)
      ensures (set a | a in timedOutClients) == SilentClients(View(), now, limits)
    {
      timedOutClients := [];
      var rest := connections.Keys;
      while rest != {}
        invariant rest <= connections.Keys
        invariant forall a :: a in timedOutClients <==>
                    a in connections && a !in rest && a in SilentClients(View(), now, limits)
      {
        var a :| a in rest;
        rest := rest - {a};
        if now - connections[a].lastReceiveTime > limits.clientTimeout {
          timedOutClients := timedOutClients + [a];
        }
      }
    }

    /** The body of the receive loop for one datagram. */
    method HandleReceived(p: Received)
      requires Valid() && listening
      modifies this`connections, this`groups, this`wire, connections.Values
      ensures Valid() && fresh(connections.Values - old(connections.Values))
      ensures View() == HandlePacket(old(View()), p.from, p.data, p.now, p.undef)
      ensures wire == old(wire) + Reply(old(View()), p.from, p.data, p.now, p.undef)
      ensures Emits(old(View()), Packet(p.from, p.data, p.now, p.undef), wire[|old(wire)|..], limits)
    {
      ghost var was := View();
      ReachableStep(was, Packet(p.from, p.data, p.now, p.undef), limits);
      if |p.data| < HEADER_SIZE {
        return;
      }
      var header := Decode(p.data);
      if p.from !in connections {
        if header.kind == CONNECT {
          HandleNewConnection(p.from, p.now);
        }
        return;
      }
      ReachableMirrors(was, limits);
      MirrorSame(was, Listened(was, p.from, header, p.now));
      Hear(p.from, header, p.now);
      Obey(p, header);
    }

    method Hear(from: Address, header: Header, now: real)
      requires Distinct() && from in connections
      modifies connections.Values
      ensures Distinct() && connections == old(connections)
      ensures View() == Listened(old(View()), from, header, now)
    {
      var connection := connections[from];
      connection.lastReceiveTime := now;
      ProcessAck(header, connection);
      OnlyChanged(from);
    }

    /** The switch of ProcessReceivedPackets. */
    method Obey(p: Received, header: Header)
      requires Distinct() && Mirror(View()) && listening && p.from in connections && |p.data| >= HEADER_SIZE
      modifies this`connections, this`groups, this`wire, connections.Values
      ensures Distinct() && connections.Values <= old(connections.Values)
      ensures View() == Dispatch(old(View()), p.from, header, Payload(p.data), p.undef)
      ensures wire == old(wire) + if header.kind == DATA
                                  then [Datagram(old(View()).conns[p.from].address,
                                                 ControlPacket(ACK, View().conns[p.from].window))] else []
      ensures |p.data| == 17 && header.kind == 6 ==>
                forall g | IsInt32(p.data, 13, g) :: View() == Join(old(View()), p.from, g)
      ensures |p.data| == 17 && header.kind == 7 ==>
                forall g | IsInt32(p.data, 13, g) :: View() == Leave(old(View()), p.from, g)
    {
      if |p.data| == 17 {
        forall g: int32 { Int32IsRead(p.data, g); }
      }
      if header.kind == DATA {
        var connection := connections[p.from];
        UpdateReceivedState(header.sequence, connection, p.undef);
        OnlyChanged(p.from);
        SendAck(connection);
      } else if header.kind == DISCONNECT {
        DisconnectClient(p.from);
      } else if header.kind == JOIN_GROUP {
        if |p.data| - HEADER_SIZE == 4 {
          JoinGroup(p.from, ReadInt32(p.data[HEADER_SIZE..]));
        }
      } else if header.kind == LEAVE_GROUP {
        if |p.data| - HEADER_SIZE == 4 {
          LeaveGroup(p.from, ReadInt32(p.data[HEADER_SIZE..]));
        }
      }
    }

    /** Drains the receive queue. */
    method ProcessReceivedPackets(queue: seq<Received>)
      requires Valid() && listening
      modifies this`connections, this`groups, this`wire, connections.Values
      ensures Valid() && fresh(connections.Values - old(connections.Values))
      ensures View() == HandleAll(old(View()), queue)
      ensures wire == old(wire) + ReplyAll(old(View()), queue)
    {
      ghost var was, sent := View(), wire;
      for i := 0 to |queue|
        invariant Valid() && fresh(connections.Values - old(connections.Values))
        invariant View() == HandleAll(was, queue[..i])
        invariant wire == sent + ReplyAll(was, queue[..i])
      {
        var p := queue[i];
        ghost var before := queue[..i];
        HandleReceived(p);
        ReplyOneMore(was, queue, i);
        Regroup(sent, ReplyAll(was, before), Reply(HandleAll(was, before), p.from, p.data, p.now, p.undef));
      }
      assert queue[..|queue|] == queue;
    }

    /** One tick: the replies go out first, then the packets that are due. */
    method Tick(queue: seq<Received>, resendTime: real, timeoutTime: real)
      returns (resent: seq<(Address, uint32)>, ghost out: seq<Datagram>)
      requires Valid() && listening
      modifies this`connections, this`groups, this`wire, connections.Values
      ensures Valid()
      ensures View() == CheckTimeouts(CheckResends(HandleAll(old(View()), queue), resendTime, limits), timeoutTime,
                                      limits)
      ensures wire == old(wire) + ReplyAll(old(View()), queue) + out
      ensures PassSent(HandleAll(old(View()), queue), {}, resent, resendTime, limits)
      ensures Carries(out, resent, HandleAll(old(View()), queue))
    {
      ProcessReceivedPackets(queue);
      resent, out := CheckForResends(resendTime);
      CheckForTimeouts(timeoutTime);
    }
  }
}
