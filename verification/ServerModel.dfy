/** The server's tables as values: what each operation does to them, and what stays true of them. */
module ServerModel {
  import opened Options
  import opened Words
  import opened AckWindow
  import opened Packets
  import opened PendingTable
  import opened Delivery

  /** An address printed with its port, the key of every table; two endpoints are the same when they print alike. */
  type Address = string

  /** The members of each group, every address under its printed form. */
  type GroupTable = map<int32, map<Address, Address>>

  datatype Conn = Conn(
    address: Address,
    sent: uint32,
    window: Window,
    lastReceive: real,
    groups: set<int32>,
    pending: Table)

  /** The tables, and which UpdateReceivedState maintains the receive windows. */
  datatype Server = Server(conns: map<Address, Conn>, groups: GroupTable, receiver: Receiver)

  function NewServer(mode: Receiver): Server {
    Server(map[], map[], mode)
  }

  datatype Datagram = Datagram(to: Address, data: seq<byte>)

  // Groups

  ghost predicate InGroup(s: Server, g: int32, a: Address) {
    g in s.groups && a in s.groups[g]
  }

  ghost predicate Joined(s: Server, g: int32, a: Address) {
    a in s.conns && g in s.conns[a].groups
  }

  /** The group table and the connections' own lists tell the same story, and no group is empty. */
  ghost predicate Mirror(s: Server) {
    && (forall g, a :: InGroup(s, g, a) <==> Joined(s, g, a))
    && (forall g :: g in s.groups ==> s.groups[g] != map[])
    && (forall g, a :: InGroup(s, g, a) ==> s.groups[g][a] == a)
    && (forall a :: a in s.conns ==> s.conns[a].address == a)
  }

  function Connect(s: Server, a: Address, now: real): Server {
    if a in s.conns then s else s.(conns := s.conns[a := Conn(a, 0, Fresh(), now, {}, map[])])
  }

  function Join(s: Server, a: Address, g: int32): Server {
    if a !in s.conns || g in s.conns[a].groups then s
    else s.(conns := s.conns[a := s.conns[a].(groups := s.conns[a].groups + {g})],
            groups := s.groups[g := (if g in s.groups then s.groups[g] else map[])[a := a]])
  }

  /** The groups `gs` without member `a`; a group left empty goes. */
  function WithoutMember(groups: GroupTable, a: Address, gs: set<int32>): GroupTable {
    map g | g in groups && (g in gs ==> groups[g] - {a} != map[]) :: if g in gs then groups[g] - {a} else groups[g]
  }

  function Leave(s: Server, a: Address, g: int32): Server {
    if a !in s.conns || g !in s.conns[a].groups then s
    else s.(conns := s.conns[a := s.conns[a].(groups := s.conns[a].groups - {g})],
            groups := WithoutMember(s.groups, a, {g}))
  }

  function Disconnect(s: Server, a: Address): Server {
    if a !in s.conns then s
    else s.(conns := s.conns - {a}, groups := WithoutMember(s.groups, a, s.conns[a].groups))
  }

  /** The server without the connections `dead`, in one step. */
  function DropAll(s: Server, dead: set<Address>): Server {
    s.(conns := s.conns - dead, groups := map g | g in s.groups && s.groups[g] - dead != map[] :: s.groups[g] - dead)
  }

  // Traffic

  function SendConn(c: Conn, payload: seq<byte>, now: real): Conn {
    var k := (c.sent + 1) % 0x1_0000_0000;
    c.(sent := k, pending := c.pending[k := Pending(DataPacket(k, c.window, payload), now, 0)])
  }

  function Send(s: Server, a: Address, payload: seq<byte>, now: real): Server {
    if a in s.conns then s.(conns := s.conns[a := SendConn(s.conns[a], payload, now)]) else s
  }

  /** The members a broadcast to `g` is for. */
  function Targets(s: Server, g: int32, exclude: Option<Address>): set<Address> {
    if g in s.groups then set a | a in s.groups[g] && Some(s.groups[g][a]) != exclude else {}
  }

  /** A send to each of `targets`; each reads the clock, `clock(a)` for target `a`. */
  function SendToAll(s: Server, targets: set<Address>, payload: seq<byte>, clock: Address -> real): Server {
    s.(conns := map a | a in s.conns :: if a in targets then SendConn(s.conns[a], payload, clock(a)) else s.conns[a])
  }

  /** Any packet from a known client renews it and is read for acknowledgements. */
  function Heard(c: Conn, h: Header, now: real): Conn {
    c.(lastReceive := now, pending := AfterAck(c.pending, h.lastAcked, h.bits))
  }

  function Updated(mode: Receiver, c: Conn, sequence: uint32, undef: Bits): Conn {
    c.(window := ReceiverStep(mode, c.window, sequence, undef))
  }

  /** `a` has been heard from; what its packet asks for comes next. */
  function Listened(s: Server, a: Address, h: Header, now: real): Server
    requires a in s.conns
  {
    s.(conns := s.conns[a := Heard(s.conns[a], h, now)])
  }

  /** The switch on the packet type; a group request with any payload but four bytes is malformed. */
  function Dispatch(s: Server, a: Address, h: Header, payload: seq<byte>, undef: Bits): Server
    requires a in s.conns
  {
    if h.kind == DATA then s.(conns := s.conns[a := Updated(s.receiver, s.conns[a], h.sequence, undef)])
    else if h.kind == DISCONNECT then Disconnect(s, a)
    else if h.kind == JOIN_GROUP && |payload| == 4 then Join(s, a, ReadInt32(payload))
    else if h.kind == LEAVE_GROUP && |payload| == 4 then Leave(s, a, ReadInt32(payload))
    else s
  }

  /** One pass of ProcessReceivedPackets for a datagram `d` from `a`. */
  function HandlePacket(s: Server, a: Address, d: seq<byte>, now: real, undef: Bits): Server {
    if |d| < HEADER_SIZE then s
    else
      var h := Decode(d);
      if a !in s.conns then (if h.kind == CONNECT then Connect(s, a, now) else s)
      else Dispatch(Listened(s, a, h, now), a, h, Payload(d), undef)
  }

  /** What that pass sends back: an Ack for a new connection and for Data, built from the state it leaves. */
  function Reply(s: Server, a: Address, d: seq<byte>, now: real, undef: Bits): seq<Datagram> {
    if |d| < HEADER_SIZE then []
    else
      var h := Decode(d);
      var s' := HandlePacket(s, a, d, now, undef);
      if a in s'.conns && (if a in s.conns then h.kind == DATA else h.kind == CONNECT)
      then [Datagram(s'.conns[a].address, ControlPacket(ACK, s'.conns[a].window))] else []
  }

  // What a call puts on the wire for one client; a client that a pass drops may have been sent less

  function NextData(c: Conn, payload: seq<byte>): seq<byte> {
    DataPacket((c.sent + 1) % 0x1_0000_0000, c.window, payload)
  }

  ghost function Emitted(s: Server, c: Call, a: Address, limits: Limits): set<seq<byte>> {
    match c
    case Packet(from, d, now, undef) => ToClient(Reply(s, from, d, now, undef), a)
    case SendCall(to, payload, _) => if to == a && a in s.conns then {NextData(s.conns[a], payload)} else {}
    case BroadcastCall(g, payload, exclude, _) =>
      if a in Targets(s, g, exclude) && a in s.conns then {NextData(s.conns[a], payload)} else {}
    case ConnectCall(client, _) => if client == a && a !in s.conns then {ControlPacket(ACK, Fresh())} else {}
    case ResendPass(now) => if a in s.conns then Overdue(s.conns[a].pending, now, limits) else {}
    case _ => {}
  }

  ghost function Overdue(t: Table, now: real, limits: Limits): set<seq<byte>> {
    set k | k in t && Expired(t[k], now, limits) :: t[k].data
  }

  ghost function ToClient(out: seq<Datagram>, a: Address): set<seq<byte>> {
    set x | x in out && x.to == a :: x.data
  }

  // Ticks

  function ExhaustedClients(s: Server, now: real, limits: Limits): set<Address> {
    set a | a in s.conns && Exhausted(s.conns[a].pending, now, limits)
  }

  function CheckResends(s: Server, now: real, limits: Limits): Server {
    var resent :=
        s.(conns := map a | a in s.conns :: s.conns[a].(pending := Resent(s.conns[a].pending, now, limits)));
    DropAll(resent, ExhaustedClients(s, now, limits))
  }

  function SilentClients(s: Server, now: real, limits: Limits): set<Address> {
    set a | a in s.conns && now - s.conns[a].lastReceive > limits.clientTimeout
  }

  function CheckTimeouts(s: Server, now: real, limits: Limits): Server {
    DropAll(s, SilentClients(s, now, limits))
  }

  /** No stored packet has been retried more often than allowed. */
  ghost predicate Capped(s: Server, limits: Limits) {
    forall a, k :: a in s.conns && k in s.conns[a].pending ==> s.conns[a].pending[k].retries <= limits.maxRetries
  }

  // Runs of the server

  datatype Call =
    | Packet(from: Address, data: seq<byte>, now: real, undef: Bits)
    | SendCall(to: Address, payload: seq<byte>, now: real)
    | BroadcastCall(group: int32, payload: seq<byte>, exclude: Option<Address>, clock: Address -> real)
    | ConnectCall(client: Address, now: real)
    | DisconnectCall(client: Address)
    | JoinCall(client: Address, group: int32)
    | LeaveCall(client: Address, group: int32)
    | ResendPass(now: real)
    | TimeoutPass(now: real)

  function Apply(s: Server, c: Call, limits: Limits): Server {
    match c
    case Packet(a, d, now, undef) => HandlePacket(s, a, d, now, undef)
    case SendCall(a, payload, now) => Send(s, a, payload, now)
    case BroadcastCall(g, payload, exclude, clock) => SendToAll(s, Targets(s, g, exclude), payload, clock)
    case ConnectCall(a, now) => Connect(s, a, now)
    case DisconnectCall(a) => Disconnect(s, a)
    case JoinCall(a, g) => Join(s, a, g)
    case LeaveCall(a, g) => Leave(s, a, g)
    case ResendPass(now) => CheckResends(s, now, limits)
    case TimeoutPass(now) => CheckTimeouts(s, now, limits)
  }

  function RunServer(mode: Receiver, calls: seq<Call>, limits: Limits): Server {
    if calls == [] then NewServer(mode)
    else Apply(RunServer(mode, calls[..|calls| - 1], limits), calls[|calls| - 1], limits)
  }

  /** The same clients, in the same groups, under the same addresses. */
  ghost predicate SameMembership(s: Server, s': Server) {
    && s'.groups == s.groups && s'.conns.Keys == s.conns.Keys && s'.receiver == s.receiver
    && (forall a :: a in s.conns ==>
          s'.conns[a].groups == s.conns[a].groups && s'.conns[a].address == s.conns[a].address)
  }

  lemma MemberIsKnown(s: Server, g: int32, a: Address)
    requires Mirror(s) && g in s.groups && a in s.groups[g]
    ensures a in s.conns && g in s.conns[a].groups && s.groups[g][a] == a
  {
    assert InGroup(s, g, a);
    assert Joined(s, g, a);
  }

  lemma MirrorSame(s: Server, s': Server)
    requires Mirror(s) && SameMembership(s, s')
    ensures Mirror(s')
  {
    assert forall g, a :: InGroup(s', g, a) <==> InGroup(s, g, a);
    assert forall g, a :: Joined(s', g, a) <==> Joined(s, g, a);
  }

  lemma MirrorConnect(s: Server, a: Address, now: real)
    requires Mirror(s)
    ensures Mirror(Connect(s, a, now))
  {
    var s' := Connect(s, a, now);
    assert forall g, b :: InGroup(s', g, b) <==> InGroup(s, g, b);
    assert forall g, b :: Joined(s', g, b) <==> Joined(s, g, b);
  }

  lemma MirrorJoin(s: Server, a: Address, g: int32)
    requires Mirror(s)
    ensures Mirror(Join(s, a, g))
  {
    if a in s.conns && g !in s.conns[a].groups {
      var s' := Join(s, a, g);
      assert !InGroup(s, g, a) by { assert !Joined(s, g, a); }
      assert forall h, b :: InGroup(s', h, b) <==> InGroup(s, h, b) || (h == g && b == a);
      assert forall h, b :: Joined(s', h, b) <==> Joined(s, h, b) || (h == g && b == a);
      forall h | h in s'.groups ensures s'.groups[h] != map[] {
        if h == g { assert a in s'.groups[h]; }
      }
    }
  }

  lemma WithoutMemberOneMore(groups: GroupTable, a: Address, gs: set<int32>, g: int32)
    requires forall h :: h in groups ==> groups[h] != map[]
    ensures WithoutMember(WithoutMember(groups, a, gs), a, {g}) == WithoutMember(groups, a, gs + {g})
  {
    if g in groups { assert (groups[g] - {a}) - {a} == groups[g] - {a}; }
    assert forall h :: h in WithoutMember(groups, a, gs + {g}) <==>
           h in WithoutMember(WithoutMember(groups, a, gs), a, {g});
  }

  lemma WithoutMemberKeeps(groups: GroupTable, a: Address, gs: set<int32>)
    ensures var groups' := WithoutMember(groups, a, gs);
            forall h, b :: (h in groups' && b in groups'[h]) <==>
                   (h in groups && b in groups[h] && !(h in gs && b == a))
  {
    var groups' := WithoutMember(groups, a, gs);
    forall h, b ensures (h in groups' && b in groups'[h]) <==> (h in groups && b in groups[h] && !(h in gs && b == a)) {
      if h in groups && b in groups[h] && b != a { assert b in groups[h] - {a}; }
    }
  }

  lemma MirrorLeave(s: Server, a: Address, g: int32)
    requires Mirror(s)
    ensures Mirror(Leave(s, a, g))
  {
    if a in s.conns && g in s.conns[a].groups {
      var s' := Leave(s, a, g);
      WithoutMemberKeeps(s.groups, a, {g});
      assert forall h, b :: InGroup(s', h, b) <==> InGroup(s, h, b) && !(h == g && b == a);
      assert forall h, b :: Joined(s', h, b) <==> Joined(s, h, b) && !(h == g && b == a);
    }
  }

  lemma MirrorDropAll(s: Server, dead: set<Address>)
    requires Mirror(s)
    ensures Mirror(DropAll(s, dead))
  {
    var s' := DropAll(s, dead);
    forall g, a ensures InGroup(s', g, a) <==> InGroup(s, g, a) && a !in dead {
      if InGroup(s, g, a) && a !in dead { assert a in s.groups[g] - dead; }
    }
    assert forall g, a :: Joined(s', g, a) <==> Joined(s, g, a) && a !in dead;
  }

  /** Disconnecting one client is dropping the set of it, as long as the tables mirror each other. */
  lemma DisconnectIsDrop(s: Server, a: Address)
    requires Mirror(s)
    ensures Disconnect(s, a) == DropAll(s, {a})
  {
    var one, all := Disconnect(s, a), DropAll(s, {a});
    forall g | g in s.groups
      ensures s.groups[g] - {a} == if a in s.conns && g in s.conns[a].groups then s.groups[g] - {a} else s.groups[g]
    {
      if !(a in s.conns && g in s.conns[a].groups) {
        assert !InGroup(s, g, a) by { assert !Joined(s, g, a); }
      }
    }
    assert forall g :: g in one.groups <==> g in all.groups;
    assert one.conns == all.conns;
    assert one.groups == all.groups;
  }

  lemma WithoutTwice(members: map<Address, Address>, dead: set<Address>, a: Address)
    ensures (members - dead) - {a} == members - (dead + {a})
  {
  }

  lemma DropAllTwice(s: Server, dead: set<Address>, a: Address)
    ensures DropAll(DropAll(s, dead), {a}) == DropAll(s, dead + {a})
  {
    var once, twice, all := DropAll(s, dead), DropAll(DropAll(s, dead), {a}), DropAll(s, dead + {a});
    forall g | g in s.groups ensures (s.groups[g] - dead) - {a} == s.groups[g] - (dead + {a}) {
      WithoutTwice(s.groups[g], dead, a);
    }
    assert forall g :: g in twice.groups <==> g in all.groups;
    assert twice.groups == all.groups;
    assert twice.conns == all.conns;
  }

  lemma MirrorPacket(s: Server, a: Address, d: seq<byte>, now: real, undef: Bits)
    requires Mirror(s)
    ensures Mirror(HandlePacket(s, a, d, now, undef))
  {
    if |d| >= HEADER_SIZE {
      var h := Decode(d);
      if a !in s.conns {
        MirrorConnect(s, a, now);
      } else {
        var heard := Listened(s, a, h, now);
        MirrorSame(s, heard);
        if h.kind == DATA {
          MirrorSame(s, HandlePacket(s, a, d, now, undef));
        } else if h.kind == DISCONNECT {
          DisconnectIsDrop(heard, a);
          MirrorDropAll(heard, {a});
        } else if |Payload(d)| == 4 {
          MirrorJoin(heard, a, ReadInt32(Payload(d)));
          MirrorLeave(heard, a, ReadInt32(Payload(d)));
        }
      }
    }
  }

  lemma MirrorStep(s: Server, c: Call, limits: Limits)
    requires Mirror(s)
    ensures Mirror(Apply(s, c, limits))
  {
    match c
    case Packet(a, d, now, undef) => MirrorPacket(s, a, d, now, undef);
    case SendCall(a, payload, now) => MirrorSame(s, Apply(s, c, limits));
    case BroadcastCall(g, payload, exclude, clock) => MirrorSame(s, Apply(s, c, limits));
    case ConnectCall(a, now) => MirrorConnect(s, a, now);
    case DisconnectCall(a) =>
      DisconnectIsDrop(s, a);
      MirrorDropAll(s, {a});
    case JoinCall(a, g) => MirrorJoin(s, a, g);
    case LeaveCall(a, g) => MirrorLeave(s, a, g);
    case ResendPass(now) =>
      var resent := s.(conns := map a | a in s.conns :: s.conns[a].(pending := Resent(s.conns[a].pending, now,
            limits)));
      MirrorSame(s, resent);
      MirrorDropAll(resent, ExhaustedClients(s, now, limits));
    case TimeoutPass(now) => MirrorDropAll(s, SilentClients(s, now, limits));
  }

  lemma CappedPacket(s: Server, a: Address, d: seq<byte>, now: real, undef: Bits, limits: Limits)
    requires Capped(s, limits)
    ensures Capped(HandlePacket(s, a, d, now, undef), limits)
  {
  }

  lemma CappedResends(s: Server, now: real, limits: Limits)
    requires Capped(s, limits)
    ensures Capped(CheckResends(s, now, limits), limits)
  {
  }

  lemma CappedStep(s: Server, c: Call, limits: Limits)
    requires Capped(s, limits)
    ensures Capped(Apply(s, c, limits), limits)
  {
    match c
    case Packet(a, d, now, undef) => CappedPacket(s, a, d, now, undef, limits);
    case ResendPass(now) => CappedResends(s, now, limits);
    case _ =>
  }

  /** What every operation of the server keeps. */
  ghost predicate Good(s: Server, limits: Limits) {
    Mirror(s) && Capped(s, limits)
  }

  lemma GoodStep(s: Server, c: Call, limits: Limits)
    requires Good(s, limits)
    ensures Good(Apply(s, c, limits), limits)
  {
    MirrorStep(s, c, limits);
    CappedStep(s, c, limits);
  }

  lemma GoodAtStart(mode: Receiver, limits: Limits)
    ensures Good(NewServer(mode), limits)
  {
  }

  /** After every run of connects, joins, leaves, disconnects, drops and timeouts the two tables mirror each other. */
  lemma {:induction false} GoodAlways(mode: Receiver, calls: seq<Call>, limits: Limits)
    ensures Good(RunServer(mode, calls, limits), limits)
  {
    if calls == [] {
      GoodAtStart(mode, limits);
    } else {
      GoodAlways(mode, calls[..|calls| - 1], limits);
      GoodStep(RunServer(mode, calls[..|calls| - 1], limits), calls[|calls| - 1], limits);
    }
  }

  lemma {:induction false} ReceiverStays(mode: Receiver, calls: seq<Call>, limits: Limits)
    ensures RunServer(mode, calls, limits).receiver == mode
  {
    if calls != [] {
      ReceiverStays(mode, calls[..|calls| - 1], limits);
      OneCallKeepsReceiver(RunServer(mode, calls[..|calls| - 1], limits), calls[|calls| - 1], limits);
    }
  }

  lemma OneCallKeepsReceiver(s: Server, c: Call, limits: Limits)
    ensures Apply(s, c, limits).receiver == s.receiver
  {
  }

  /** A state that some sequence of calls produces. */
  ghost predicate Reachable(s: Server, limits: Limits) {
    exists calls :: s == RunServer(s.receiver, calls, limits)
  }

  lemma ReachableStep(s: Server, c: Call, limits: Limits)
    requires Reachable(s, limits)
    ensures Reachable(Apply(s, c, limits), limits)
  {
    var calls :| s == RunServer(s.receiver, calls, limits);
    OneCallKeepsReceiver(s, c, limits);
    assert (calls + [c])[..|calls|] == calls;
    assert Apply(s, c, limits) == RunServer(s.receiver, calls + [c], limits);
  }

  lemma ReachableMirrors(s: Server, limits: Limits)
    requires Reachable(s, limits)
    ensures Mirror(s)
  {
    var calls :| s == RunServer(s.receiver, calls, limits);
    GoodAlways(s.receiver, calls, limits);
  }

  lemma ReachableAddresses(s: Server, limits: Limits)
    requires Reachable(s, limits)
    ensures forall a :: a in s.conns ==> s.conns[a].address == a
  {
    ReachableMirrors(s, limits);
  }

  lemma ReachableMember(s: Server, g: int32, a: Address, limits: Limits)
    requires Reachable(s, limits) && g in s.groups && a in s.groups[g]
    ensures a in s.conns && s.groups[g][a] == a
  {
    ReachableMirrors(s, limits);
    MemberIsKnown(s, g, a);
  }

  /**
   What a tick leaves: exactly the clients that were neither exhausted nor silent, each heard in time and each
   packet fresh.
   */
  lemma TickPostState(mode: Receiver, calls: seq<Call>, limits: Limits, t1: real, t2: real)
    requires limits.resendTimeout >= 0.0
    ensures var s := RunServer(mode, calls, limits);
            var s' := CheckTimeouts(CheckResends(s, t1, limits), t2, limits);
            && s'.conns.Keys == s.conns.Keys - ExhaustedClients(s, t1, limits) - SilentClients(s, t2, limits)
            && (forall a :: a in s'.conns ==>
                 && t2 - s'.conns[a].lastReceive <= limits.clientTimeout
                 && s'.conns[a].pending.Keys == s.conns[a].pending.Keys
                 && forall k :: k in s'.conns[a].pending ==>
                      s'.conns[a].pending[k].retries <= limits.maxRetries
                      && t1 - s'.conns[a].pending[k].sentTime <= limits.resendTimeout)
  {
    var s := RunServer(mode, calls, limits);
    GoodAlways(mode, calls, limits);
    CappedResends(s, t1, limits);
    var s1 := CheckResends(s, t1, limits);
    var s' := CheckTimeouts(s1, t2, limits);
    assert forall a :: a in s1.conns ==> s1.conns[a].lastReceive == s.conns[a].lastReceive;
    assert s'.conns.Keys == s.conns.Keys - ExhaustedClients(s, t1, limits) - SilentClients(s, t2, limits);
  }

  /** `c` after sending `payload`: one number more, one fresh pending packet that carries it, all else the same. */
  ghost predicate OneMore(c: Conn, c': Conn, payload: seq<byte>, now: real) {
    var k := (c.sent + 1) % 0x1_0000_0000;
    && c' == c.(sent := k, pending := c'.pending)
    && c'.pending.Keys == c.pending.Keys + {k}
    && IsData(c'.pending[k].data, k, payload) && c'.pending[k].retries == 0 && c'.pending[k].sentTime == now
    && (forall j :: j in c.pending && j != k ==> c'.pending[j] == c.pending[j])
  }

  lemma SendConnIsOneMore(c: Conn, payload: seq<byte>, now: real)
    ensures OneMore(c, SendConn(c, payload, now), payload, now)
  {
  }

  lemma SendToAllOneMore(s: Server, done: set<Address>, a: Address, payload: seq<byte>, clock: Address -> real)
    requires a in s.conns && a !in done
    ensures Send(SendToAll(s, done, payload, clock), a, payload, clock(a)) == SendToAll(s, done + {a}, payload, clock)
  {
  }

  /** The targets of a broadcast are the connected members but the excluded one: no send goes to an unknown client. */
  lemma TargetsAreMembers(s: Server, g: int32, exclude: Option<Address>, a: Address)
    requires Mirror(s)
    ensures a in Targets(s, g, exclude) <==> Joined(s, g, a) && Some(a) != exclude
  {
  }

  /** A broadcast gives every target exactly one fresh packet with the payload, and touches no other client. */
  lemma BroadcastExact(mode: Receiver, calls: seq<Call>, limits: Limits, g: int32, payload: seq<byte>,
                       exclude: Option<Address>, clock: Address -> real, a: Address)
    requires a in RunServer(mode, calls, limits).conns
    ensures var s := RunServer(mode, calls, limits);
            var s' := Apply(s, BroadcastCall(g, payload, exclude, clock), limits);
            && s'.conns.Keys == s.conns.Keys && s'.groups == s.groups
            && (if Joined(s, g, a) && Some(a) != exclude then OneMore(s.conns[a], s'.conns[a], payload, clock(a))
                else s'.conns[a] == s.conns[a])
  {
    GoodAlways(mode, calls, limits);
    var s := RunServer(mode, calls, limits);
    TargetsAreMembers(s, g, exclude, a);
    SendConnIsOneMore(s.conns[a], payload, clock(a));
  }

  // Each connection of the server steps as an endpoint of the delivery model

  ghost predicate Matches(x: Endpoint, c: Conn) {
    x.live && x.sent == c.sent && x.window == c.window && x.pending == c.pending
  }

  lemma PacketIsReceive(s: Server, a: Address, x: Endpoint, d: seq<byte>, now: real, undef: Bits)
    requires a in s.conns && Matches(x, s.conns[a])
    ensures var s', x' := HandlePacket(s, a, d, now, undef), ReceiveAt(s.receiver, x, d, undef);
            (a in s'.conns <==> x'.live) && (x'.live ==> Matches(x', s'.conns[a]))
  {
  }

  lemma SendIsThreeSteps(s: Server, a: Address, x: Endpoint, payload: seq<byte>, now: real)
    requires a in s.conns && Matches(x, s.conns[a])
    ensures var k := NextSequence(x);
            Matches(RecordAt(TransmitAt(AllocateAt(x, payload), k), k, now), Send(s, a, payload, now).conns[a])
  {
  }

  lemma ResendPassIsTick(s: Server, a: Address, x: Endpoint, now: real, limits: Limits)
    requires a in s.conns && Matches(x, s.conns[a])
    ensures var s', x' := CheckResends(s, now, limits), TickAt(x, now, limits);
            (a in s'.conns <==> x'.live) && (x'.live ==> Matches(x', s'.conns[a]))
  {
  }

  lemma OtherClientsUntouched(s: Server, a: Address, b: Address, d: seq<byte>, payload: seq<byte>, now: real,
                              undef: Bits)
    requires b in s.conns && b != a
    ensures b in HandlePacket(s, a, d, now, undef).conns && HandlePacket(s, a, d, now, undef).conns[b] == s.conns[b]
    ensures Send(s, a, payload, now).conns[b] == s.conns[b]
  {
  }
}
