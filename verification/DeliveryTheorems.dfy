/** What holds after every run of two endpoints. */
module DeliveryTheorems {
  import opened Words
  import opened AckWindow
  import opened Packets
  import opened PendingTable
  import opened Delivery

  /** What `x` has recorded and no longer waits for has been accepted by `y`, and its payload is in the inbox of `y`. */
  ghost predicate Delivered(x: Endpoint, y: Endpoint) {
    forall k :: k in x.past.log && k !in x.pending && k !in x.drafts ==>
      k in y.past.accepted && x.past.log[k] in y.past.inbox
  }

  /** Nothing reaches an inbox that the other side did not send. */
  ghost predicate Genuine(x: Endpoint, y: Endpoint) {
    forall p :: p in y.past.inbox ==> exists k :: k in x.past.log && x.past.log[k] == p
  }

  lemma DeliverySafety(mode: Receiver, limits: Limits, start: real, moves: seq<Move>)
    requires var s := Run(mode, limits, start, moves); s.a.past.sends <= Bound(mode) && s.b.past.sends <= Bound(mode)
    ensures var s := Run(mode, limits, start, moves);
            Delivered(s.a, s.b) && Delivered(s.b, s.a) && Genuine(s.a, s.b) && Genuine(s.b, s.a)
  {
    PromiseKept(mode, limits, start, moves);
  }

  /** In every reachable state of the intended receiver the window is exact for what was accepted. */
  lemma WindowsStayExact(limits: Limits, start: real, moves: seq<Move>)
    requires var s := Run(AsIntended, limits, start, moves);
             s.a.past.sends <= 0xFFFF_FFFF && s.b.past.sends <= 0xFFFF_FFFF
    ensures var s := Run(AsIntended, limits, start, moves);
            Exact(s.a.window, s.a.past.accepted) && Exact(s.b.window, s.b.past.accepted)
  {
    PromiseKept(AsIntended, limits, start, moves);
  }

  // Conservation

  lemma LedgerStepA(mode: Receiver, limits: Limits, s: System, ev: Event)
    requires Ledger(s.a) && NextA(mode, limits, s, ev).a.past.sends <= 0xFFFF_FFFF
    ensures Ledger(NextA(mode, limits, s, ev).a)
  {
    if s.a.live {
      if ev.Allocate? || ev.Transmit? || ev.Record? {
        LedgerSendStep(mode, limits, s, ev);
      } else {
        match ev
        case Tick(now, _) => LedgerTick(s.a, now, limits);
        case Receive(d, undef) => LedgerReceive(mode, s.a, d, undef);
        case _ =>
      }
    }
  }

  lemma LedgerSendStep(mode: Receiver, limits: Limits, s: System, ev: Event)
    requires s.a.live && (ev.Allocate? || ev.Transmit? || ev.Record?)
    requires Ledger(s.a) && NextA(mode, limits, s, ev).a.past.sends <= 0xFFFF_FFFF
    ensures Ledger(NextA(mode, limits, s, ev).a)
  {
    match ev
    case Allocate(payload) => LedgerAllocate(s.a, payload);
    case Transmit(k) => if k in s.a.drafts { LedgerTransmit(s.a, k); }
    case Record(k, now) => if k in s.a.drafts { LedgerRecord(s.a, k, now); }
  }

  lemma {:induction false} LedgerKept(mode: Receiver, limits: Limits, start: real, moves: seq<Move>)
    ensures var s := Run(mode, limits, start, moves);
            (s.a.past.sends <= 0xFFFF_FFFF ==> Ledger(s.a)) && (s.b.past.sends <= 0xFFFF_FFFF ==> Ledger(s.b))
  {
    if moves != [] {
      var s, m := Run(mode, limits, start, moves[..|moves| - 1]), moves[|moves| - 1];
      LedgerKept(mode, limits, start, moves[..|moves| - 1]);
      var t := if m.atA then s else Swap(s);
      SendsGrow(mode, limits, t, m.event);
      if NextA(mode, limits, t, m.event).a.past.sends <= 0xFFFF_FFFF {
        LedgerStepA(mode, limits, t, m.event);
      }
    }
  }

  ghost predicate Conserved(x: Endpoint) {
    && (forall k: uint32 :: k in x.pending.Keys + x.drafts.Keys + x.past.acked <==> 1 <= k <= x.past.sends)
    && x.pending.Keys !! x.drafts.Keys !! x.past.acked
    && (forall k :: k in x.pending ==> k in x.past.log && IsData(x.pending[k].data, k, x.past.log[k]))
  }

  lemma LedgerConserves(x: Endpoint)
    requires Ledger(x)
    ensures Conserved(x)
    ensures x.past.sends < 0xFFFF_FFFF ==> NextSequence(x) == x.past.sends + 1 && NextSequence(x) !in x.past.log
  {
  }

  /**
   However sends, acknowledgements and ticks interleave, the numbers handed out
   are the disjoint union of pending, in progress and acknowledged; each pending
   packet carries its own number, and the next number is new.
   */
  lemma Conservation(mode: Receiver, limits: Limits, start: real, moves: seq<Move>)
    requires Run(mode, limits, start, moves).a.past.sends < 0xFFFF_FFFF
    ensures var x := Run(mode, limits, start, moves).a;
            Conserved(x) && NextSequence(x) == x.past.sends + 1 && NextSequence(x) !in x.past.log
  {
    LedgerKept(mode, limits, start, moves);
    LedgerConserves(Run(mode, limits, start, moves).a);
  }

  // What holds of one endpoint holds of the other

  function Flip(moves: seq<Move>): seq<Move> {
    seq(|moves|, i requires 0 <= i < |moves| => Move(!moves[i].atA, moves[i].event))
  }

  /** Exchanging the endpoints in every move exchanges them in the outcome. */
  lemma {:induction false} RunFlips(mode: Receiver, limits: Limits, start: real, moves: seq<Move>)
    ensures Run(mode, limits, start, Flip(moves)) == Swap(Run(mode, limits, start, moves))
  {
    if moves != [] {
      var before := moves[..|moves| - 1];
      RunFlips(mode, limits, start, before);
      assert Flip(moves)[..|moves| - 1] == Flip(before);
    }
  }

  lemma ConservationOfBoth(mode: Receiver, limits: Limits, start: real, moves: seq<Move>)
    requires var s := Run(mode, limits, start, moves); s.a.past.sends < 0xFFFF_FFFF && s.b.past.sends < 0xFFFF_FFFF
    ensures var s := Run(mode, limits, start, moves); Conserved(s.a) && Conserved(s.b)
  {
    Conservation(mode, limits, start, moves);
    RunFlips(mode, limits, start, moves);
    Conservation(mode, limits, start, Flip(moves));
  }

  // The code as written

  /** As written, up to 2^32 - 32 packets a side: nothing is ever accepted, so no packet ever stops being resent. */
  lemma WrittenAcknowledgesNothing(limits: Limits, start: real, moves: seq<Move>)
    requires var s := Run(AsWritten, limits, start, moves);
             s.a.past.sends <= 0xFFFF_FFE0 && s.b.past.sends <= 0xFFFF_FFE0
    ensures var x := Run(AsWritten, limits, start, moves).a;
            && x.window == Fresh() && x.past.acked == {}
            && (forall k: uint32 :: k in x.pending.Keys + x.drafts.Keys <==> 1 <= k <= x.past.sends)
  {
    PromiseKept(AsWritten, limits, start, moves);
    var s := Run(AsWritten, limits, start, moves);
    assert forall k :: k in s.a.past.acked ==> k in s.a.past.log && k in s.b.past.accepted;
    assert s.a.past.acked == {};
  }

  lemma RunOneMore(mode: Receiver, limits: Limits, start: real, moves: seq<Move>, m: Move)
    ensures Run(mode, limits, start, moves + [m]) == Next(mode, limits, Run(mode, limits, start, moves), m)
  {
  }

  const FIRST_JUMP: uint32 := 0xFFFF_FFE1

  /** `n` sends of an empty packet, each finished before the next. */
  function Sends(n: uint32, now: real): seq<Move> {
    if n == 0 then []
    else Sends(n - 1, now) + [Move(true, Allocate([]))] + [Move(true, Transmit(n))] + [Move(true, Record(n, now))]
  }

  /** The sender has sent `n` empty packets and done nothing else; `w` is its fresh window. */
  ghost predicate OnlySent(s: System, n: nat, w: Window) {
    && s.a.live && s.a.sent == n && s.a.past.sends == n && s.a.window == w && s.a.drafts == map[]
    && (forall k: uint32 :: 1 <= k <= n ==>
          k in s.a.past.log && k in s.a.pending && s.a.pending[k].data == DataPacket(k, w, [])
            && DataPacket(k, w, []) in s.toB)
  }

  lemma SendOne(mode: Receiver, limits: Limits, s: System, n: nat, k: uint32, w: Window, now: real)
    requires OnlySent(s, n, w) && k == n + 1
    ensures var s1 := Next(mode, limits, s, Move(true, Allocate([])));
            var s3 := Next(mode, limits, Next(mode, limits, s1, Move(true, Transmit(k))), Move(true, Record(k, now)));
            OnlySent(s3, k, w) && s3.b == s.b && s3.toA == s.toA
  {
    var x1 := AllocateAt(s.a, []);
    assert NextSequence(s.a) == k && x1.drafts == map[k := Draft(DataPacket(k, w, []), false)];
    var x2 := TransmitAt(x1, k);
    var s3 := s.(a := RecordAt(x2, k, now), toB := s.toB + {DataPacket(k, w, [])});
    assert s3.a.drafts == map[];
    assert s3 == Next(mode, limits, Next(mode, limits, s.(a := x1), Move(true, Transmit(k))),
                      Move(true, Record(k, now)));
  }

  lemma {:induction false} AfterSends(mode: Receiver, limits: Limits, start: real, n: uint32, w: Window)
    requires w == Fresh()
    ensures var s := Run(mode, limits, start, Sends(n, start));
            OnlySent(s, n, w) && s.b == NewEndpoint(start) && s.toA == {}
  {
    if n > 0 {
      AfterSends(mode, limits, start, n - 1, w);
      var first := Sends(n - 1, start);
      var m1, m2, m3 := Move(true, Allocate([])), Move(true, Transmit(n)), Move(true, Record(n, start));
      RunOneMore(mode, limits, start, first, m1);
      RunOneMore(mode, limits, start, first + [m1], m2);
      RunOneMore(mode, limits, start, first + [m1] + [m2], m3);
      SendOne(mode, limits, Run(mode, limits, start, first), n - 1, n, w, start);
    }
  }

  lemma JumpReceived(y: Endpoint, n: uint32, w: Window, undef: Bits)
    requires n == FIRST_JUMP && y.window == Fresh() && y.past.accepted == {0}
    ensures var y' := ReceiveAt(AsWritten, y, DataPacket(n, w, []), undef);
            && y'.live == y.live && y'.past.accepted == {0, n} && y'.past.sends == y.past.sends
            && y'.window.top == n && y'.window.bits[0]
  {
    DataPacketDecodes(n, w, []);
  }

  lemma AckedIsGone(x: Endpoint, w: Window, k: uint32, undef: Bits)
    requires Acknowledges(w.top, w.bits, k)
    ensures var x' := ReceiveAt(AsWritten, x, ControlPacket(ACK, w), undef);
            x'.past.sends == x.past.sends && x'.past.log == x.past.log && x'.drafts == x.drafts && k !in x'.pending
  {
    ControlPacketDecodes(ACK, w);
  }

  lemma JumpAnswered(limits: Limits, t: System, n: uint32, w: Window, undef: Bits) returns (u: System)
    requires n == FIRST_JUMP && t.b.live && t.b.window == Fresh() && t.b.past.accepted == {0}
    requires DataPacket(n, w, []) in t.toB
    ensures u == Next(AsWritten, limits, Next(AsWritten, limits, t, Move(false, Receive(DataPacket(n, w, []), undef))),
                      Move(false, Announce(ACK, [])))
    ensures u.a == t.a && ControlPacket(ACK, u.b.window) in u.toA && u.b.window.top == n && u.b.window.bits[0]
    ensures u.b.past.accepted == {0, n} && u.b.past.sends == t.b.past.sends
  {
    JumpReceived(t.b, n, w, undef);
    ControlPacketDecodes(ACK, ReceiveAt(AsWritten, t.b, DataPacket(n, w, []), undef).window);
    var t1 := t.(b := ReceiveAt(AsWritten, t.b, DataPacket(n, w, []), undef));
    u := t1.(toA := t1.toA + {ControlPacket(ACK, t1.b.window)});
  }

  lemma LossSeen(limits: Limits, u: System, n: uint32, undef: Bits)
    requires n == FIRST_JUMP && u.a.live && u.b.window.top == n && u.b.window.bits[0]
    requires ControlPacket(ACK, u.b.window) in u.toA && u.b.past.accepted == {0, n}
    requires n - 1 in u.a.past.log && n - 1 in u.a.pending && u.a.drafts == map[]
    ensures var s := Next(AsWritten, limits, u, Move(true, Receive(ControlPacket(ACK, u.b.window), undef)));
            s.b == u.b && s.a.past.sends == u.a.past.sends && s.a.drafts == map[] && !Delivered(s.a, s.b)
  {
    assert Sub32(n, 1) == n - 1;
    AckedIsGone(u.a, u.b.window, n - 1, undef);
  }

  /**
   One packet beyond the bound, every send finished: the last packet arrives,
   the one before it is lost, and its sender stops resending it.
   */
  lemma WrittenLosesAPacket(limits: Limits, start: real, undef: Bits) returns (moves: seq<Move>)
    ensures var s := Run(AsWritten, limits, start, moves);
            && s.a.past.sends == FIRST_JUMP && s.b.past.sends == 0 && s.a.drafts == map[]
            && FIRST_JUMP - 1 !in s.b.past.accepted && !Delivered(s.a, s.b)
  {
    var n, w := FIRST_JUMP, Fresh();
    moves := LossAt(limits, start, n, w, undef);
  }

  lemma LossAt(limits: Limits, start: real, n: uint32, w: Window, undef: Bits) returns (moves: seq<Move>)
    requires n == FIRST_JUMP && w == Fresh()
    ensures var s := Run(AsWritten, limits, start, moves);
            && s.a.past.sends == n && s.b.past.sends == 0 && s.a.drafts == map[]
            && n - 1 !in s.b.past.accepted && !Delivered(s.a, s.b)
  {
    AfterSends(AsWritten, limits, start, n, w);
    var first := Sends(n, start);
    var u := JumpAnswered(limits, Run(AsWritten, limits, start, first), n, w, undef);
    LossSeen(limits, u, n, undef);
    var m1, m2, m3 := Move(false, Receive(DataPacket(n, w, []), undef)), Move(false, Announce(ACK, [])),
      Move(true, Receive(ControlPacket(ACK, u.b.window), undef));
    RunOneMore(AsWritten, limits, start, first, m1);
    RunOneMore(AsWritten, limits, start, first + [m1], m2);
    RunOneMore(AsWritten, limits, start, first + [m1] + [m2], m3);
    moves := first + [m1] + [m2] + [m3];
  }

  /** The code as written keeps delivery safe for exactly the connections of at most 2^32 - 32 packets a side. */
  lemma WrittenSafeExactlyWhen(limits: Limits, start: real, n: nat)
    ensures (forall moves :: (var s := Run(AsWritten, limits, start, moves);
               s.a.past.sends <= n && s.b.past.sends <= n ==> Delivered(s.a, s.b) && Delivered(s.b, s.a)))
            <==> n <= 0xFFFF_FFE0
  {
    if n <= 0xFFFF_FFE0 {
      forall moves | var s := Run(AsWritten, limits, start, moves); s.a.past.sends <= n && s.b.past.sends <= n
        ensures var s := Run(AsWritten, limits, start, moves); Delivered(s.a, s.b) && Delivered(s.b, s.a)
      {
        DeliverySafety(AsWritten, limits, start, moves);
      }
    } else {
      var moves := WrittenLosesAPacket(limits, start, Zero());
    }
  }

  // Progress of the intended receiver

  /** The oldest packet still waiting is at most 31 behind the newest. */
  predicate WithinWindow(x: Endpoint) {
    forall k :: k in x.pending ==> k + 31 >= x.sent
  }

  /**
   Within the window no waiting packet is too old for the peer, and one Ack
   built from the peer's state clears exactly what the peer has accepted.
   */
  lemma OneAckClears(limits: Limits, start: real, moves: seq<Move>, undef: Bits)
    requires var s := Run(AsIntended, limits, start, moves);
             s.a.past.sends <= 0xFFFF_FFFF && s.b.past.sends <= 0xFFFF_FFFF && WithinWindow(s.a)
    ensures var s := Run(AsIntended, limits, start, moves);
            && (forall k :: k in s.a.pending ==> Accepts(s.b.window, k))
            && ReceiveAt(AsIntended, s.a, ControlPacket(ACK, s.b.window), undef).pending ==
               map k | k in s.a.pending && k !in s.b.past.accepted :: s.a.pending[k]
  {
    PromiseKept(AsIntended, limits, start, moves);
    var s := Run(AsIntended, limits, start, moves);
    TopWasSent(s.a, s.b, s.toB);
    AckClearsAccepted(s.a, s.b.window, s.b.past.accepted, undef);
  }

  lemma AckClearsAccepted(x: Endpoint, w: Window, accepted: set<uint32>, undef: Bits)
    requires Exact(w, accepted) && WithinWindow(x) && w.top <= x.sent
    ensures forall k :: k in x.pending ==> Accepts(w, k)
    ensures ReceiveAt(AsIntended, x, ControlPacket(ACK, w), undef).pending ==
            map k | k in x.pending && k !in accepted :: x.pending[k]
  {
    ControlPacketDecodes(ACK, w);
    forall k | k in x.pending
      ensures Acknowledges(w.top, w.bits, k) <==> k in accepted
    {
      AcknowledgesExactly(w, accepted, k);
    }
  }

  /** `y` receives the stored packets of `x` named by `ks`, in that order. */
  function ReceiveStored(x: Endpoint, y: Endpoint, ks: seq<uint32>, undef: Bits): Endpoint
    requires forall k :: k in ks ==> k in x.pending
    decreases |ks|
  {
    if ks == [] then y
    else ReceiveStored(x, ReceiveAt(AsIntended, y, x.pending[ks[0]].data, undef), ks[1..], undef)
  }

  lemma StoredIsAccepted(x: Endpoint, y: Endpoint, k: uint32, undef: Bits)
    requires Ledger(x) && WithinWindow(x) && k in x.pending
    requires Exact(y.window, y.past.accepted) && y.window.top <= x.sent
    ensures var y' := ReceiveAt(AsIntended, y, x.pending[k].data, undef);
            && Exact(y'.window, y'.past.accepted) && y'.window.top <= x.sent
            && y'.past.accepted == y.past.accepted + {k}
  {
    assert IsData(x.pending[k].data, k, x.past.log[k]);
    assert k in x.past.log && Accepts(y.window, k);
    IntendedKeepsExact(y.window, y.past.accepted, k);
  }

  lemma {:induction false} StoredAreAccepted(x: Endpoint, y: Endpoint, ks: seq<uint32>, undef: Bits)
    requires Ledger(x) && WithinWindow(x) && (forall k :: k in ks ==> k in x.pending)
    requires Exact(y.window, y.past.accepted) && y.window.top <= x.sent
    ensures var y' := ReceiveStored(x, y, ks, undef);
            && Exact(y'.window, y'.past.accepted) && y'.window.top <= x.sent
            && y.past.accepted <= y'.past.accepted && (forall k :: k in ks ==> k in y'.past.accepted)
    decreases |ks|
  {
    if ks != [] {
      StoredIsAccepted(x, y, ks[0], undef);
      var y1 := ReceiveAt(AsIntended, y, x.pending[ks[0]].data, undef);
      StoredAreAccepted(x, y1, ks[1..], undef);
      assert forall k :: k in ks ==> k == ks[0] || k in ks[1..];
    }
  }

  lemma TopWasSent(x: Endpoint, y: Endpoint, toY: set<seq<byte>>)
    requires Ledger(x) && Half(x, y, toY) && Exact(y.window, y.past.accepted)
    ensures y.window.top <= x.sent
  {
  }

  /** Within the window, one delivery of each waiting packet in any order and one Ack leave nothing waiting. */
  lemma OneRoundDrains(limits: Limits, start: real, moves: seq<Move>, ks: seq<uint32>, undef: Bits)
    requires var s := Run(AsIntended, limits, start, moves);
             && s.a.past.sends <= 0xFFFF_FFFF && s.b.past.sends <= 0xFFFF_FFFF && WithinWindow(s.a)
             && (forall k :: k in ks <==> k in s.a.pending)
    ensures var s := Run(AsIntended, limits, start, moves);
            var y := ReceiveStored(s.a, s.b, ks, undef);
            ReceiveAt(AsIntended, s.a, ControlPacket(ACK, y.window), undef).pending == map[]
  {
    PromiseKept(AsIntended, limits, start, moves);
    var s := Run(AsIntended, limits, start, moves);
    TopWasSent(s.a, s.b, s.toB);
    StoredAreAccepted(s.a, s.b, ks, undef);
    var y := ReceiveStored(s.a, s.b, ks, undef);
    AckClearsAccepted(s.a, y.window, y.past.accepted, undef);
  }
}
