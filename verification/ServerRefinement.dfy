/**
 Every run of the server, seen from one client, is a run of the delivery model:
 the calls since the client connected give the moves of one endpoint, the
 client and the network give the others.
 */
module ServerRefinement {
  import opened Options
  import opened Words
  import opened AckWindow
  import opened Packets
  import opened PendingTable
  import opened Delivery
  import opened DeliveryTheorems
  import opened Abandonment
  import opened Doom
  import opened ServerModel
  import opened ServerTheorems
  import opened PacketBytes

  /** A call at the server, an event at the client, or the loss of a datagram on its way to the server. */
  datatype Step = Serve(call: Call) | Client(event: Event) | Drop(datagram: seq<byte>)

  function Calls(steps: seq<Step>): seq<Call> {
    if steps == [] then []
    else
      var before, step := Calls(steps[..|steps| - 1]), steps[|steps| - 1];
      if step.Serve? then before + [step.call] else before
  }

  function ServerAfter(mode: Receiver, steps: seq<Step>, limits: Limits): Server {
    RunServer(mode, Calls(steps), limits)
  }

  function SendMoves(c: Conn, payload: seq<byte>, now: real): seq<Move> {
    var k := (c.sent + 1) % 0x1_0000_0000;
    [Move(true, Allocate(payload))] + [Move(true, Transmit(k))] + [Move(true, Record(k, now))]
  }

  /** What a call means for the connection of `a`. */
  function CallMoves(s: Server, c: Call, a: Address): seq<Move>
    requires a in s.conns
  {
    match c
    case Packet(from, d, now, undef) =>
      if from != a then []
      else if |d| >= HEADER_SIZE && Decode(d).kind == DATA
        then [Move(true, Receive(d, undef))] + [Move(true, Announce(ACK, []))]
      else [Move(true, Receive(d, undef))]
    case SendCall(to, payload, now) => if to == a then SendMoves(s.conns[a], payload, now) else []
    case BroadcastCall(g, payload, exclude, clock) =>
      if a in Targets(s, g, exclude) then SendMoves(s.conns[a], payload, clock(a)) else []
    case ResendPass(now) => [Move(true, Tick(now, {}))]
    case _ => []
  }

  /** The run of the delivery model for the present connection of `a`; it starts anew when `a` connects. */
  function MovesFor(mode: Receiver, steps: seq<Step>, limits: Limits, a: Address): seq<Move> {
    if steps == [] then []
    else
      var before, step := steps[..|steps| - 1], steps[|steps| - 1];
      var s, moves := ServerAfter(mode, before, limits), MovesFor(mode, before, limits, a);
      if a !in ServerAfter(mode, steps, limits).conns then []
      else if a !in s.conns then [Move(true, Announce(ACK, []))]
      else match step
        case Serve(c) => moves + CallMoves(s, c, a)
        case Client(ev) => moves + [Move(false, ev)]
        case Drop(d) => moves + [Move(true, Lose(d))]
  }

  function SystemFor(mode: Receiver, steps: seq<Step>, limits: Limits, start: real, a: Address): System {
    Run(mode, limits, start, MovesFor(mode, steps, limits, a))
  }

  /** If step `j` hands the server a packet from `a` while it is connected, the network had it to deliver. */
  ghost predicate Came(mode: Receiver, steps: seq<Step>, j: nat, limits: Limits, start: real, a: Address)
    requires j < |steps|
  {
    steps[j].Serve? && steps[j].call.Packet? && steps[j].call.from == a
      && a in ServerAfter(mode, steps[..j], limits).conns
    ==> steps[j].call.data in SystemFor(mode, steps[..j], limits, start, a).toA
  }

  ghost predicate FromNetwork(mode: Receiver, steps: seq<Step>, limits: Limits, start: real, a: Address) {
    forall j :: 0 <= j < |steps| ==> Came(mode, steps, j, limits, start, a)
  }

  /** The endpoint is the connection, between two sends. */
  ghost predicate Is(x: Endpoint, c: Conn) {
    Matches(x, c) && x.drafts == map[]
  }

  // One call

  lemma SendIsMoves(mode: Receiver, limits: Limits, start: real, moves: seq<Move>, c: Conn, payload: seq<byte>,
                    now: real)
    requires Is(Run(mode, limits, start, moves).a, c)
    ensures var t := Run(mode, limits, start, moves + SendMoves(c, payload, now));
            Is(t.a, SendConn(c, payload, now)) && NextData(c, payload) in t.toB
  {
    var k := (c.sent + 1) % 0x1_0000_0000;
    var m1, m2, m3 := Move(true, Allocate(payload)), Move(true, Transmit(k)), Move(true, Record(k, now));
    RunOneMore(mode, limits, start, moves, m1);
    RunOneMore(mode, limits, start, moves + [m1], m2);
    RunOneMore(mode, limits, start, moves + [m1] + [m2], m3);
    assert moves + SendMoves(c, payload, now) == moves + [m1] + [m2] + [m3];
    ThreeSteps(mode, limits, Run(mode, limits, start, moves), c, payload, now, k);
  }

  lemma ThreeSteps(mode: Receiver, limits: Limits, t: System, c: Conn, payload: seq<byte>, now: real, k: uint32)
    requires Is(t.a, c) && k == NextSequence(t.a)
    ensures var t1 := Next(mode, limits, t, Move(true, Allocate(payload)));
            var t3 := Next(mode, limits, Next(mode, limits, t1, Move(true, Transmit(k))), Move(true, Record(k, now)));
            Is(t3.a, SendConn(c, payload, now)) && NextData(c, payload) in t3.toB
  {
    var x1 := AllocateAt(t.a, payload);
    assert x1.drafts == map[k := Draft(NextData(c, payload), false)];
    var x2 := TransmitAt(x1, k);
    assert RecordAt(x2, k, now).drafts == map[];
  }

  lemma PacketIsMoves(mode: Receiver, limits: Limits, start: real, moves: seq<Move>, s: Server, a: Address,
                      d: seq<byte>, now: real, undef: Bits)
    requires a in s.conns && Is(Run(mode, limits, start, moves).a, s.conns[a]) && s.conns[a].address == a
    requires s.receiver == mode
    requires d in Run(mode, limits, start, moves).toA && a in HandlePacket(s, a, d, now, undef).conns
    ensures var t := Run(mode, limits, start, moves + CallMoves(s, Call.Packet(a, d, now, undef), a));
            && Is(t.a, HandlePacket(s, a, d, now, undef).conns[a])
            && Emitted(s, Call.Packet(a, d, now, undef), a, limits) <= t.toB
  {
    var m1, m2 := Move(true, Receive(d, undef)), Move(true, Announce(ACK, []));
    var t := Run(mode, limits, start, moves);
    RunOneMore(mode, limits, start, moves, m1);
    PacketIsReceive(s, a, t.a, d, now, undef);
    var x := ReceiveAt(mode, t.a, d, undef);
    assert Run(mode, limits, start, moves + [m1]) == t.(a := x);
    if |d| >= HEADER_SIZE && Decode(d).kind == DATA {
      RunOneMore(mode, limits, start, moves + [m1], m2);
      ControlPacketDecodes(ACK, x.window);
      assert moves + ([m1] + [m2]) == moves + [m1] + [m2];
    }
  }

  lemma TickIsMove(mode: Receiver, limits: Limits, start: real, moves: seq<Move>, s: Server, a: Address, now: real)
    requires a in s.conns && Is(Run(mode, limits, start, moves).a, s.conns[a])
             && a in CheckResends(s, now, limits).conns
    ensures var t := Run(mode, limits, start, moves + [Move(true, Tick(now, {}))]);
            && Is(t.a, CheckResends(s, now, limits).conns[a])
            && Emitted(s, ResendPass(now), a, limits) <= t.toB
  {
    var t := Run(mode, limits, start, moves);
    RunOneMore(mode, limits, start, moves, Move(true, Tick(now, {})));
    ResendPassIsTick(s, a, t.a, now, limits);
    assert !Exhausted(t.a.pending, now, limits);
    assert Emitted(s, ResendPass(now), a, limits) <= TickSends(t.a, now, limits, {});
  }

  /**
   A call that neither speaks to `a` nor hears from it leaves its connection as it was, but for its groups and
   its clock.
   */
  lemma OthersCall(s: Server, c: Call, a: Address, limits: Limits)
    requires Mirror(s) && a in s.conns && a in Apply(s, c, limits).conns && CallMoves(s, c, a) == []
    ensures var c0, c1 := s.conns[a], Apply(s, c, limits).conns[a];
            c1.sent == c0.sent && c1.window == c0.window && c1.pending == c0.pending
    ensures Emitted(s, c, a, limits) == {}
  {
    match c
    case Packet(from, d, now, undef) =>
      MirrorPacket(s, from, d, now, undef);
      OtherClientsUntouched(s, from, a, d, [], now, undef);
    case _ =>
  }

  lemma CallIsMoves(mode: Receiver, limits: Limits, start: real, moves: seq<Move>, s: Server, c: Call, a: Address)
    requires Mirror(s) && s.receiver == mode && a in s.conns && Is(Run(mode, limits, start, moves).a, s.conns[a])
    requires a in Apply(s, c, limits).conns
    requires c.Packet? && c.from == a ==> c.data in Run(mode, limits, start, moves).toA
    ensures var t := Run(mode, limits, start, moves + CallMoves(s, c, a));
            Is(t.a, Apply(s, c, limits).conns[a]) && Emitted(s, c, a, limits) <= t.toB
  {
    if CallMoves(s, c, a) == [] {
      OthersCall(s, c, a, limits);
      assert moves + [] == moves;
    } else {
      match c
      case Packet(from, d, now, undef) => PacketIsMoves(mode, limits, start, moves, s, a, d, now, undef);
      case SendCall(to, payload, now) => SendIsMoves(mode, limits, start, moves, s.conns[a], payload, now);
      case BroadcastCall(g, payload, exclude, clock) =>
        SendIsMoves(mode, limits, start, moves, s.conns[a], payload, clock(a));
      case ResendPass(now) => TickIsMove(mode, limits, start, moves, s, a, now);
    }
  }

  predicate Brings(c: Call, a: Address) {
    (c.ConnectCall? && c.client == a) || (c.Packet? && c.from == a && |c.data| >= HEADER_SIZE
                                          && Decode(c.data).kind == CONNECT)
  }

  lemma OnlyConnectBrings(s: Server, c: Call, a: Address, limits: Limits)
    requires a !in s.conns && a in Apply(s, c, limits).conns
    ensures Brings(c, a) && Apply(s, c, limits) == Connect(s, a, c.now)
  {
  }

  lemma NewClient(s: Server, c: Call, a: Address, limits: Limits)
    requires a !in s.conns && Brings(c, a) && Apply(s, c, limits) == Connect(s, a, c.now)
    ensures Emitted(s, c, a, limits) == {ControlPacket(ACK, Fresh())}
  {
    if c.Packet? {
      var out := Reply(s, a, c.data, c.now, c.undef);
      assert out == [Datagram(a, ControlPacket(ACK, Fresh()))];
      assert out[0] in out;
    }
  }

  lemma Announces(mode: Receiver, limits: Limits, start: real)
    ensures var t := Run(mode, limits, start, [Move(true, Announce(ACK, []))]);
            t.a == NewEndpoint(start) && t.toB == {ControlPacket(ACK, Fresh())}
  {
    RunOneMore(mode, limits, start, [], Move(true, Announce(ACK, [])));
    ControlPacketDecodes(ACK, Fresh());
    assert [] + [Move(true, Announce(ACK, []))] == [Move(true, Announce(ACK, []))];
  }

  /** A connection begins as a new endpoint that has announced itself. */
  lemma ConnectIsFresh(mode: Receiver, limits: Limits, start: real, s: Server, c: Call, a: Address)
    requires Mirror(s) && a !in s.conns && a in Apply(s, c, limits).conns
    ensures var t := Run(mode, limits, start, [Move(true, Announce(ACK, []))]);
            Is(t.a, Apply(s, c, limits).conns[a]) && Emitted(s, c, a, limits) <= t.toB
  {
    OnlyConnectBrings(s, c, a, limits);
    NewClient(s, c, a, limits);
    Announces(mode, limits, start);
  }

  // Every run

  lemma FromNetworkBefore(mode: Receiver, steps: seq<Step>, limits: Limits, start: real, a: Address)
    requires steps != [] && FromNetwork(mode, steps, limits, start, a)
    ensures FromNetwork(mode, steps[..|steps| - 1], limits, start, a)
  {
    var before := steps[..|steps| - 1];
    forall j | 0 <= j < |before| ensures Came(mode, before, j, limits, start, a) {
      assert Came(mode, steps, j, limits, start, a);
      assert before[..j] == steps[..j] && before[j] == steps[j];
    }
  }

  lemma ServeOne(mode: Receiver, before: seq<Step>, c: Call, limits: Limits)
    ensures ServerAfter(mode, before + [Serve(c)], limits) == Apply(ServerAfter(mode, before, limits), c, limits)
  {
    assert (before + [Serve(c)])[..|before|] == before;
    assert (Calls(before) + [c])[..|Calls(before)|] == Calls(before);
  }

  lemma ServeStep(mode: Receiver, before: seq<Step>, c: Call, limits: Limits, start: real, a: Address)
    requires FromNetwork(mode, before + [Serve(c)], limits, start, a)
             && a in ServerAfter(mode, before + [Serve(c)], limits).conns
    requires a in ServerAfter(mode, before, limits).conns ==>
               Is(SystemFor(mode, before, limits, start, a).a, ServerAfter(mode, before, limits).conns[a])
    ensures var t := SystemFor(mode, before + [Serve(c)], limits, start, a);
            && Is(t.a, ServerAfter(mode, before + [Serve(c)], limits).conns[a])
            && Emitted(ServerAfter(mode, before, limits), c, a, limits) <= t.toB
  {
    var steps := before + [Serve(c)];
    assert Came(mode, steps, |before|, limits, start, a);
    assert steps[..|before|] == before && steps[|before|] == Serve(c);
    GoodAlways(mode, Calls(before), limits);
    ReceiverStays(mode, Calls(before), limits);
    ServeOne(mode, before, c, limits);
    var s := ServerAfter(mode, before, limits);
    if a in s.conns {
      CallIsMoves(mode, limits, start, MovesFor(mode, before, limits, a), s, c, a);
    } else {
      ConnectIsFresh(mode, limits, start, s, c, a);
    }
  }

  /** What the client does changes nothing at the server. */
  lemma ClientStep(mode: Receiver, before: seq<Step>, ev: Event, limits: Limits, start: real, a: Address)
    requires a in ServerAfter(mode, before + [Client(ev)], limits).conns
    ensures ServerAfter(mode, before + [Client(ev)], limits) == ServerAfter(mode, before, limits)
    ensures SystemFor(mode, before + [Client(ev)], limits, start, a).a == SystemFor(mode, before, limits, start, a).a
  {
    assert (before + [Client(ev)])[..|before|] == before;
    RunOneMore(mode, limits, start, MovesFor(mode, before, limits, a), Move(false, ev));
    SendsGrow(mode, limits, Swap(SystemFor(mode, before, limits, start, a)), ev);
  }

  lemma DropStep(mode: Receiver, before: seq<Step>, d: seq<byte>, limits: Limits, start: real, a: Address)
    requires a in ServerAfter(mode, before + [Drop(d)], limits).conns
    ensures ServerAfter(mode, before + [Drop(d)], limits) == ServerAfter(mode, before, limits)
    ensures SystemFor(mode, before + [Drop(d)], limits, start, a).a == SystemFor(mode, before, limits, start, a).a
  {
    assert (before + [Drop(d)])[..|before|] == before;
    RunOneMore(mode, limits, start, MovesFor(mode, before, limits, a), Move(true, Lose(d)));
  }

  /** The connection of `a`, if there is one, is the endpoint that the run of the model has reached. */
  ghost predicate Follows(mode: Receiver, steps: seq<Step>, limits: Limits, start: real, a: Address) {
    a in ServerAfter(mode, steps, limits).conns ==>
      Is(SystemFor(mode, steps, limits, start, a).a, ServerAfter(mode, steps, limits).conns[a])
  }

  lemma OneStepFollows(mode: Receiver, before: seq<Step>, step: Step, limits: Limits, start: real, a: Address)
    requires FromNetwork(mode, before + [step], limits, start, a) && Follows(mode, before, limits, start, a)
    ensures Follows(mode, before + [step], limits, start, a)
  {
    if a in ServerAfter(mode, before + [step], limits).conns {
      match step
      case Serve(c) => ServeStep(mode, before, c, limits, start, a);
      case Client(ev) => ClientStep(mode, before, ev, limits, start, a);
      case Drop(d) => DropStep(mode, before, d, limits, start, a);
    }
  }

  /** So it is after every run of server, client and network. */
  lemma {:induction false} ServerRefinesDelivery(mode: Receiver, steps: seq<Step>, limits: Limits, start: real,
                                                 a: Address)
    requires FromNetwork(mode, steps, limits, start, a)
    ensures Follows(mode, steps, limits, start, a)
    decreases |steps|, 0
  {
    if steps == [] {
      NothingFollows(mode, limits, start, a);
    } else {
      FollowsFrom(mode, steps[..|steps| - 1], steps[|steps| - 1], steps, limits, start, a);
    }
  }

  lemma NothingFollows(mode: Receiver, limits: Limits, start: real, a: Address)
    ensures Follows(mode, [], limits, start, a)
  {
  }

  lemma FollowsFrom(mode: Receiver, before: seq<Step>, step: Step, steps: seq<Step>, limits: Limits, start: real,
                    a: Address)
    requires steps != [] && before == steps[..|steps| - 1] && steps == before + [step]
    requires FromNetwork(mode, steps, limits, start, a)
    ensures Follows(mode, steps, limits, start, a)
    decreases |before|, 1
  {
    FromNetworkBefore(mode, steps, limits, start, a);
    ServerRefinesDelivery(mode, before, limits, start, a);
    OneStepFollows(mode, before, step, limits, start, a);
  }

  /** And what the server's methods put on the wire for the client is on the way to it in the model. */
  lemma EmittedIsUnderWay(mode: Receiver, before: seq<Step>, c: Call, limits: Limits, start: real, a: Address)
    requires FromNetwork(mode, before + [Serve(c)], limits, start, a)
             && a in ServerAfter(mode, before + [Serve(c)], limits).conns
    ensures Emitted(ServerAfter(mode, before, limits), c, a, limits) <=
            SystemFor(mode, before + [Serve(c)], limits, start, a).toB
  {
    var steps := before + [Serve(c)];
    assert steps[..|steps| - 1] == before;
    FromNetworkBefore(mode, steps, limits, start, a);
    ServerRefinesDelivery(mode, before, limits, start, a);
    ServeStep(mode, before, c, limits, start, a);
  }

  // What the delivery model proves, for the server

  /**
   In every state of the server, up to 2^32 - 1 packets a side with the documented
   receive window and 2^32 - 32 as coded: whatever a connection has sent and no
   longer waits for is in its client's inbox.
   */
  lemma ServerDelivers(mode: Receiver, steps: seq<Step>, limits: Limits, start: real, a: Address, k: uint32)
    requires FromNetwork(mode, steps, limits, start, a) && a in ServerAfter(mode, steps, limits).conns
    requires var t := SystemFor(mode, steps, limits, start, a);
             t.a.past.sends <= Bound(mode) && t.b.past.sends <= Bound(mode)
    ensures var c, t := ServerAfter(mode, steps, limits).conns[a], SystemFor(mode, steps, limits, start, a);
            1 <= k <= c.sent && k !in c.pending ==>
              k in t.a.past.log && k in t.b.past.accepted && t.a.past.log[k] in t.b.past.inbox
  {
    ServerRefinesDelivery(mode, steps, limits, start, a);
    DeliverySafety(mode, limits, start, MovesFor(mode, steps, limits, a));
    LedgerKept(mode, limits, start, MovesFor(mode, steps, limits, a));
  }

  /** In fact, as the receive window is coded, a connection never stops waiting for anything it has sent. */
  lemma ServerForgetsNothing(steps: seq<Step>, limits: Limits, start: real, a: Address, k: uint32)
    requires FromNetwork(AsWritten, steps, limits, start, a) && a in ServerAfter(AsWritten, steps, limits).conns
    requires var t := SystemFor(AsWritten, steps, limits, start, a);
             t.a.past.sends <= 0xFFFF_FFE0 && t.b.past.sends <= 0xFFFF_FFE0
    ensures var c := ServerAfter(AsWritten, steps, limits).conns[a];
            c.window == Fresh() && (k in c.pending <==> 1 <= k <= c.sent)
  {
    ServerRefinesDelivery(AsWritten, steps, limits, start, a);
    WrittenAcknowledgesNothing(limits, start, MovesFor(AsWritten, steps, limits, a));
    LedgerKept(AsWritten, limits, start, MovesFor(AsWritten, steps, limits, a));
    var x := SystemFor(AsWritten, steps, limits, start, a).a;
    assert k in x.pending.Keys + x.drafts.Keys <==> 1 <= k <= x.past.sends;
  }

  /**
   Each number a connection has handed out is pending or acknowledged, and a pending packet is Data with its
   own number.
   */
  lemma ServerConserves(mode: Receiver, steps: seq<Step>, limits: Limits, start: real, a: Address, k: uint32)
    requires FromNetwork(mode, steps, limits, start, a) && a in ServerAfter(mode, steps, limits).conns
    requires SystemFor(mode, steps, limits, start, a).a.past.sends < 0xFFFF_FFFF
    ensures var c, x := ServerAfter(mode, steps, limits).conns[a], SystemFor(mode, steps, limits, start, a).a;
            && (1 <= k <= c.sent <==> k in c.pending || k in x.past.acked)
            && !(k in c.pending && k in x.past.acked)
            && (k in c.pending ==> k in x.past.log && IsData(c.pending[k].data, k, x.past.log[k]))
  {
    ServerRefinesDelivery(mode, steps, limits, start, a);
    LedgerKept(mode, limits, start, MovesFor(mode, steps, limits, a));
  }

  /** A resend pass drops a client only over a packet that had all its chances. */
  lemma ServerDropsOnlyWhenGivenUp(mode: Receiver, steps: seq<Step>, limits: Limits, start: real, a: Address, now: real)
    requires FromNetwork(mode, steps, limits, start, a) && a in ServerAfter(mode, steps, limits).conns
    requires SystemFor(mode, steps, limits, start, a).a.past.sends <= 0xFFFF_FFFF
    requires a !in CheckResends(ServerAfter(mode, steps, limits), now, limits).conns
    ensures exists k :: GivenUp(SystemFor(mode, steps, limits, start, a).a, k, now, limits)
  {
    ServerRefinesDelivery(mode, steps, limits, start, a);
    var t := SystemFor(mode, steps, limits, start, a);
    ResendPassIsTick(ServerAfter(mode, steps, limits), a, t.a, now, limits);
    DroppedOnlyWhenGivenUp(mode, limits, start, MovesFor(mode, steps, limits, a), now, {});
  }

  /**
   Whatever reads the clock for a client more than (MaxRetries + 1) * (ResendTimeout + d)
   after packet `k` was recorded finds the client gone or `k` acknowledged.
   */
  lemma ServerGoneOrAcknowledged(mode: Receiver, steps: seq<Step>, limits: Limits, start: real, a: Address, d: real,
                                 ev: Event, k: uint32)
    requires FromNetwork(mode, steps, limits, start, a) && a in ServerAfter(mode, steps, limits).conns
    requires limits.resendTimeout >= 0.0 && d >= 0.0 && Timed(ev)
    requires Prompt(mode, limits, start, MovesFor(mode, steps, limits, a) + [Move(true, ev)], d)
    requires var x := SystemFor(mode, steps, limits, start, a).a;
             && x.past.sends <= 0xFFFF_FFFF && k in x.past.recordedAt
             && ev.now > x.past.recordedAt[k] + Times(limits.maxRetries + 1, limits.resendTimeout + d)
    ensures k !in ServerAfter(mode, steps, limits).conns[a].pending
  {
    ServerRefinesDelivery(mode, steps, limits, start, a);
    GoneOrAcknowledged(mode, limits, start, MovesFor(mode, steps, limits, a), d, ev, k);
  }

  // What the client sends may come

  /** A datagram on its way to the server stays a possible input after one more step. */
  lemma MayCome(mode: Receiver, steps: seq<Step>, d: seq<byte>, now: real, undef: Bits, limits: Limits, start: real,
                a: Address)
    requires FromNetwork(mode, steps, limits, start, a)
    requires a in ServerAfter(mode, steps, limits).conns ==> d in SystemFor(mode, steps, limits, start, a).toA
    ensures FromNetwork(mode, steps + [Serve(Call.Packet(a, d, now, undef))], limits, start, a)
  {
    var more := steps + [Serve(Call.Packet(a, d, now, undef))];
    forall j | 0 <= j < |more| ensures Came(mode, more, j, limits, start, a) {
      assert more[..|steps|] == steps;
      if j < |steps| {
        assert more[..j] == steps[..j];
        assert Came(mode, steps, j, limits, start, a);
      }
    }
  }

  lemma ClientMayAct(mode: Receiver, steps: seq<Step>, ev: Event, limits: Limits, start: real, a: Address)
    requires FromNetwork(mode, steps, limits, start, a)
    ensures FromNetwork(mode, steps + [Client(ev)], limits, start, a)
  {
    var more := steps + [Client(ev)];
    forall j | 0 <= j < |more| ensures Came(mode, more, j, limits, start, a) {
      if j < |steps| {
        assert more[..j] == steps[..j];
        assert Came(mode, steps, j, limits, start, a);
      }
    }
  }

  lemma AnnouncedIsUnderWay(mode: Receiver, steps: seq<Step>, kind: byte, payload: seq<byte>, limits: Limits,
                            start: real, a: Address)
    requires a in ServerAfter(mode, steps, limits).conns && SystemFor(mode, steps, limits, start, a).b.live
             && kind != DATA
    ensures var t := SystemFor(mode, steps, limits, start, a);
            var more := steps + [Client(Announce(kind, payload))];
            && ServerAfter(mode, more, limits) == ServerAfter(mode, steps, limits)
            && ControlPacket(kind, t.b.window) + payload in SystemFor(mode, more, limits, start, a).toA
  {
    var ev := Announce(kind, payload);
    assert (steps + [Client(ev)])[..|steps|] == steps;
    RunOneMore(mode, limits, start, MovesFor(mode, steps, limits, a), Move(false, ev));
  }

  /** In any run a connected client may ask to join a group, and if its request arrives it is in the group. */
  lemma ClientMayJoin(mode: Receiver, steps: seq<Step>, g: int32, payload: seq<byte>, now: real, undef: Bits,
                      limits: Limits, start: real, a: Address) returns (more: seq<Step>)
    requires FromNetwork(mode, steps, limits, start, a) && |payload| == 4 && IsInt32(payload, 0, g)
    requires a in ServerAfter(mode, steps, limits).conns && SystemFor(mode, steps, limits, start, a).b.live
    ensures steps <= more && |more| == |steps| + 2
    ensures FromNetwork(mode, more, limits, start, a) && InGroup(ServerAfter(mode, more, limits), g, a)
  {
    var ask := Client(Announce(JOIN_GROUP, payload));
    var w := SystemFor(mode, steps, limits, start, a).b.window;
    var d := ControlPacket(JOIN_GROUP, w) + payload;
    AnnouncedIsUnderWay(mode, steps, JOIN_GROUP, payload, limits, start, a);
    ClientMayAct(mode, steps, ask.event, limits, start, a);
    MayCome(mode, steps + [ask], d, now, undef, limits, start, a);
    more := steps + [ask] + [Serve(Call.Packet(a, d, now, undef))];
    ServeOne(mode, steps + [ask], Call.Packet(a, d, now, undef), limits);
    RequestSays(w, payload, g);
    GroupsByByte(mode, Calls(steps + [ask]), limits, a, d, now, undef, g);
  }

  lemma RequestSays(w: Window, payload: seq<byte>, g: int32)
    requires |payload| == 4 && IsInt32(payload, 0, g)
    ensures var d := ControlPacket(JOIN_GROUP, w) + payload; |d| == 17 && d[0] == 6 && IsInt32(d, 13, g)
  {
    HeaderIsWritten(Header(JOIN_GROUP, 0, w.top, w.bits), payload);
    var d := ControlPacket(JOIN_GROUP, w) + payload;
    assert forall i :: 0 <= i < 4 ==> d[13 + i] == payload[i];
  }

  /** A client that receives the stored packet `d` and answers with an Ack, which then arrives. */
  function RoundTrip(a: Address, d: seq<byte>, ack: seq<byte>, now: real, undef: Bits): seq<Step> {
    [Client(Receive(d, undef))] + [Client(Announce(ACK, []))] + [Serve(Call.Packet(a, ack, now, undef))]
  }

  lemma AckIsServed(s: Server, a: Address, w: Window, k: uint32, now: real, undef: Bits)
    requires a in s.conns && k in s.conns[a].pending
    ensures var s' := HandlePacket(s, a, ControlPacket(ACK, w), now, undef);
            a in s'.conns && (k in s'.conns[a].pending <==> !Acknowledges(w.top, w.bits, k))
  {
    ControlPacketDecodes(ACK, w);
  }

  lemma ReceivedByClient(mode: Receiver, steps: seq<Step>, d: seq<byte>, undef: Bits, limits: Limits, start: real,
                         a: Address)
    requires a in ServerAfter(mode, steps, limits).conns
    requires var t := SystemFor(mode, steps, limits, start, a); t.b.live && d in t.toB
    ensures var more, t := steps + [Client(Receive(d, undef))], SystemFor(mode, steps, limits, start, a);
            && ServerAfter(mode, more, limits) == ServerAfter(mode, steps, limits)
            && SystemFor(mode, more, limits, start, a) == t.(b := ReceiveAt(mode, t.b, d, undef))
  {
    var ev := Receive(d, undef);
    assert (steps + [Client(ev)])[..|steps|] == steps;
    RunOneMore(mode, limits, start, MovesFor(mode, steps, limits, a), Move(false, ev));
  }

  lemma StoredIsData(mode: Receiver, steps: seq<Step>, k: uint32, limits: Limits, start: real, a: Address)
    requires FromNetwork(mode, steps, limits, start, a) && a in ServerAfter(mode, steps, limits).conns
    requires SystemFor(mode, steps, limits, start, a).a.past.sends <= 0xFFFF_FFFF
    requires k in ServerAfter(mode, steps, limits).conns[a].pending
    ensures var x, c := SystemFor(mode, steps, limits, start, a).a, ServerAfter(mode, steps, limits).conns[a];
            k in x.past.log && x.pending == c.pending && IsData(c.pending[k].data, k, x.past.log[k])
  {
    ServerRefinesDelivery(mode, steps, limits, start, a);
    LedgerKept(mode, limits, start, MovesFor(mode, steps, limits, a));
  }

  /** That can happen whenever the packet is on its way to the client. */
  lemma RoundTripComes(mode: Receiver, steps: seq<Step>, d: seq<byte>, now: real, undef: Bits,
                       limits: Limits, start: real, a: Address) returns (more: seq<Step>)
    requires FromNetwork(mode, steps, limits, start, a) && a in ServerAfter(mode, steps, limits).conns
    requires var t := SystemFor(mode, steps, limits, start, a);
             t.b.live && d in t.toB && |d| >= HEADER_SIZE && Decode(d).kind == DATA
    ensures var ack := ControlPacket(ACK, ReceiveAt(mode, SystemFor(mode, steps, limits, start, a).b, d, undef).window);
            && more == steps + RoundTrip(a, d, ack, now, undef)
            && FromNetwork(mode, more, limits, start, a)
            && ServerAfter(mode, more, limits) == HandlePacket(ServerAfter(mode, steps, limits), a, ack, now, undef)
  {
    var w := ReceiveAt(mode, SystemFor(mode, steps, limits, start, a).b, d, undef).window;
    var receive, answer := Receive(d, undef), Announce(ACK, []);
    var serve := Call.Packet(a, ControlPacket(ACK, w), now, undef);
    var got := steps + [Client(receive)];
    ReceivedByClient(mode, steps, d, undef, limits, start, a);
    ClientMayAct(mode, steps, receive, limits, start, a);
    AnnouncedIsUnderWay(mode, got, ACK, [], limits, start, a);
    ClientMayAct(mode, got, answer, limits, start, a);
    ControlPacketDecodes(ACK, w);
    MayCome(mode, got + [Client(answer)], serve.data, now, undef, limits, start, a);
    ServeOne(mode, got + [Client(answer)], serve, limits);
    more := got + [Client(answer)] + [Serve(serve)];
    Regroup(steps, [Client(receive)], [Client(answer)]);
    Regroup(steps, [Client(receive)] + [Client(answer)], [Serve(serve)]);
  }

  /**
   With the documented receive window the server learns of a delivery: when a
   stored packet reaches the client and the client's Ack comes back, the packet
   is off the pending table exactly if it was in reach of the client's window.
   */
  lemma ServerLearnsExactlyWhen(steps: seq<Step>, k: uint32, now: real, undef: Bits, limits: Limits, start: real,
                                a: Address)
      returns (more: seq<Step>)
    requires FromNetwork(AsIntended, steps, limits, start, a) && a in ServerAfter(AsIntended, steps, limits).conns
    requires var t := SystemFor(AsIntended, steps, limits, start, a);
             t.b.live && t.a.past.sends <= 0xFFFF_FFFF && t.b.past.sends <= 0xFFFF_FFFF
    requires var c := ServerAfter(AsIntended, steps, limits).conns[a];
             k in c.pending && c.pending[k].data in SystemFor(AsIntended, steps, limits, start, a).toB
    ensures FromNetwork(AsIntended, more, limits, start, a) && a in ServerAfter(AsIntended, more, limits).conns
    ensures var c, t := ServerAfter(AsIntended, steps, limits).conns[a], SystemFor(AsIntended, steps, limits, start, a);
            var y := ReceiveAt(AsIntended, t.b, c.pending[k].data, undef);
            && more == steps + RoundTrip(a, c.pending[k].data, ControlPacket(ACK, y.window), now, undef)
            && (k !in ServerAfter(AsIntended, more, limits).conns[a].pending <==> InReach(t.b.window, k))
  {
    var s, t := ServerAfter(AsIntended, steps, limits), SystemFor(AsIntended, steps, limits, start, a);
    var d := s.conns[a].pending[k].data;
    StoredIsData(AsIntended, steps, k, limits, start, a);
    var w := IntendedStep(t.b.window, k);
    more := RoundTripComes(AsIntended, steps, d, now, undef, limits, start, a);
    AckIsServed(s, a, w, k, now, undef);
    PromiseKept(AsIntended, limits, start, MovesFor(AsIntended, steps, limits, a));
    ArrivalReaches(t.b.window, t.b.past.accepted, k);
  }
}
