/** What the server's operations do to memberships, and when a client counts as silent. */
module ServerTheorems {
  import opened Options
  import opened Words
  import opened AckWindow
  import opened Packets
  import opened PendingTable
  import opened Delivery
  import opened ServerModel
  import opened PacketBytes

  /** Joining enters a connected client in the group table and leaves every other entry alone. */
  lemma JoinExact(mode: Receiver, calls: seq<Call>, limits: Limits, a: Address, g: int32, h: int32, b: Address)
    ensures var s := RunServer(mode, calls, limits);
            var s' := Apply(s, JoinCall(a, g), limits);
            && (InGroup(s', h, b) <==> InGroup(s, h, b) || (h == g && b == a && a in s.conns))
            && s'.conns.Keys == s.conns.Keys
            && (b in s.conns ==> s'.conns[b] == s.conns[b].(groups := s'.conns[b].groups))
  {
    GoodAlways(mode, calls, limits);
    var s := RunServer(mode, calls, limits);
    MirrorStep(s, JoinCall(a, g), limits);
    var s' := Apply(s, JoinCall(a, g), limits);
    assert (InGroup(s, h, b) <==> Joined(s, h, b)) && (InGroup(s', h, b) <==> Joined(s', h, b));
  }

  lemma LeaveExact(mode: Receiver, calls: seq<Call>, limits: Limits, a: Address, g: int32, h: int32, b: Address)
    ensures var s := RunServer(mode, calls, limits);
            var s' := Apply(s, LeaveCall(a, g), limits);
            && (InGroup(s', h, b) <==> InGroup(s, h, b) && !(h == g && b == a))
            && s'.conns.Keys == s.conns.Keys
            && (b in s.conns ==> s'.conns[b] == s.conns[b].(groups := s'.conns[b].groups))
  {
    GoodAlways(mode, calls, limits);
    var s := RunServer(mode, calls, limits);
    MirrorStep(s, LeaveCall(a, g), limits);
    var s' := Apply(s, LeaveCall(a, g), limits);
    assert (InGroup(s, h, b) <==> Joined(s, h, b)) && (InGroup(s', h, b) <==> Joined(s', h, b));
  }

  /** Disconnecting removes the client from every group and changes nobody else. */
  lemma DisconnectExact(mode: Receiver, calls: seq<Call>, limits: Limits, a: Address, h: int32, b: Address)
    ensures var s := RunServer(mode, calls, limits);
            var s' := Apply(s, DisconnectCall(a), limits);
            && (InGroup(s', h, b) <==> InGroup(s, h, b) && b != a)
            && s'.conns == s.conns - {a}
  {
    GoodAlways(mode, calls, limits);
    var s := RunServer(mode, calls, limits);
    DisconnectIsDrop(s, a);
    MirrorDropAll(s, {a});
    var s' := DropAll(s, {a});
    assert (InGroup(s, h, b) <==> Joined(s, h, b)) && (InGroup(s', h, b) <==> Joined(s', h, b));
  }

  /** A join request from a known client takes effect exactly if the four bytes of the group follow the header. */
  lemma JoinTakesEffectExactlyWhen(mode: Receiver, calls: seq<Call>, limits: Limits, a: Address, g: int32,
                                   d: seq<byte>, now: real, undef: Bits)
    requires |d| >= 13 && d[0] == 6
    requires a in RunServer(mode, calls, limits).conns && !InGroup(RunServer(mode, calls, limits), g, a)
    ensures InGroup(HandlePacket(RunServer(mode, calls, limits), a, d, now, undef), g, a) <==>
              |d| == 17 && IsInt32(d, 13, g)
  {
    GroupsByByte(mode, calls, limits, a, d, now, undef, g);
  }

  /** A client asks to leave with an empty payload; the server takes that for malformed and changes no membership. */
  lemma LeaveTakesEffectExactlyWhen(mode: Receiver, calls: seq<Call>, limits: Limits, a: Address, g: int32,
                                    d: seq<byte>, now: real, undef: Bits)
    requires |d| >= 13 && d[0] == 7 && InGroup(RunServer(mode, calls, limits), g, a)
    ensures InGroup(HandlePacket(RunServer(mode, calls, limits), a, d, now, undef), g, a) <==>
              !(|d| == 17 && IsInt32(d, 13, g))
  {
    GoodAlways(mode, calls, limits);
    assert Joined(RunServer(mode, calls, limits), g, a);
    GroupsByByte(mode, calls, limits, a, d, now, undef, g);
  }

  /**
   The server answers a known client's Data and a stranger's Connect, once, with an Ack of the state it then
   has; nothing else.
   */
  lemma ReplyExact(mode: Receiver, calls: seq<Call>, limits: Limits, a: Address, d: seq<byte>, now: real, undef: Bits)
    ensures var s := RunServer(mode, calls, limits);
            var s', out := HandlePacket(s, a, d, now, undef), Reply(s, a, d, now, undef);
            && |out| <= 1
            && (out != [] <==> |d| >= HEADER_SIZE && Decode(d).kind == if a in s.conns then DATA else CONNECT)
            && (out != [] ==> a in s'.conns && out[0].to == a
                              && Decode(out[0].data) == Header(ACK, 0, s'.conns[a].window.top, s'.conns[a].window.bits))
  {
    GoodAlways(mode, calls, limits);
    var s := RunServer(mode, calls, limits);
    var s' := HandlePacket(s, a, d, now, undef);
    MirrorPacket(s, a, d, now, undef);
    if a in s'.conns {
      ControlPacketDecodes(ACK, s'.conns[a].window);
    }
  }

  // Silence

  /** The call brings `a` in, or is a packet from it that is long enough to be read. */
  predicate Hears(s: Server, a: Address, c: Call) {
    match c
    case Packet(from, d, _, _) => from == a && |d| >= HEADER_SIZE
    case ConnectCall(client, _) => client == a && a !in s.conns
    case _ => false
  }

  /** When `a` was last heard, as the history tells it. */
  function LastHeard(mode: Receiver, calls: seq<Call>, limits: Limits, a: Address): Option<real> {
    if calls == [] then None
    else
      var before, c := calls[..|calls| - 1], calls[|calls| - 1];
      if Hears(RunServer(mode, before, limits), a, c) then Some(c.now) else LastHeard(mode, before, limits, a)
  }

  lemma HearingStep(s: Server, c: Call, limits: Limits, a: Address)
    requires a in Apply(s, c, limits).conns
    ensures if Hears(s, a, c) then Apply(s, c, limits).conns[a].lastReceive == c.now
            else a in s.conns && Apply(s, c, limits).conns[a].lastReceive == s.conns[a].lastReceive
  {
  }

  lemma {:induction false} LastReceiveIsLastHeard(mode: Receiver, calls: seq<Call>, limits: Limits, a: Address)
    requires a in RunServer(mode, calls, limits).conns
    ensures LastHeard(mode, calls, limits, a) == Some(RunServer(mode, calls, limits).conns[a].lastReceive)
  {
    var before, c := calls[..|calls| - 1], calls[|calls| - 1];
    HearingStep(RunServer(mode, before, limits), c, limits, a);
    if !Hears(RunServer(mode, before, limits), a, c) {
      LastReceiveIsLastHeard(mode, before, limits, a);
    }
  }

  /** A timeout pass drops a client exactly if nothing was heard from it for longer than the limit. */
  lemma SilentExactlyWhen(mode: Receiver, calls: seq<Call>, limits: Limits, a: Address, now: real)
    requires a in RunServer(mode, calls, limits).conns
    ensures LastHeard(mode, calls, limits, a).Some?
    ensures a !in Apply(RunServer(mode, calls, limits), TimeoutPass(now), limits).conns
            <==> now - LastHeard(mode, calls, limits, a).value > limits.clientTimeout
  {
    LastReceiveIsLastHeard(mode, calls, limits, a);
  }

  // What a resend pass does, by the clock

  predicate Late(p: Pending, now: real, limits: Limits) {
    now > p.sentTime + limits.resendTimeout
  }

  /**
   A client goes if and only if one of its packets is late and has had its retries; otherwise its late packets are
   sent again as they were stored, counted and stamped with the time of the pass, and nothing else of it changes.
   */
  lemma ResendByTheClock(s: Server, a: Address, limits: Limits, now: real)
    requires a in s.conns
    ensures var c, s' := s.conns[a], CheckResends(s, now, limits);
            && (a in s'.conns <==>
                forall k :: k in c.pending && Late(c.pending[k], now, limits) ==>
                  c.pending[k].retries < limits.maxRetries)
            && (a in s'.conns ==>
                && s'.conns[a] == c.(pending := s'.conns[a].pending)
                && s'.conns[a].pending.Keys == c.pending.Keys
                && forall k :: k in c.pending ==>
                     var p, p' := c.pending[k], s'.conns[a].pending[k];
                     p' == if Late(p, now, limits) then Pending(p.data, now, p.retries + 1) else p)
            && Emitted(s, ResendPass(now), a, limits) ==
               set k | k in c.pending && Late(c.pending[k], now, limits) :: c.pending[k].data
  {
    var c := s.conns[a];
    assert forall k :: k in c.pending ==> (Late(c.pending[k], now, limits) <==> Expired(c.pending[k], now, limits));
  }
}
