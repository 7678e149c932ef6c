/**
 Nothing keeps a sender within the 32 packets an acknowledgement reaches back.
 Even with the documented receiver a packet that falls behind can never be
 acknowledged, and its connection is bound to be dropped.
 */
module Doom {
  import opened Words
  import opened AckWindow
  import opened Packets
  import opened PendingTable
  import opened Delivery
  import opened DeliveryTheorems
  import opened Abandonment

  // When one arrival and one Ack clear a packet

  /** The receiver would accept `k`, or `k` is the oldest packet its window still shows. */
  predicate InReach(w: Window, k: uint32) {
    Accepts(w, k) || (k + 32 == w.top && w.bits[31])
  }

  /**
   However far a sender has run ahead: packet `k` is cleared by arriving and being acknowledged exactly if it
   is in reach.
   */
  lemma ArrivalAndAckClearExactlyWhen(limits: Limits, start: real, moves: seq<Move>, k: uint32, undef: Bits)
    requires var s := Run(AsIntended, limits, start, moves);
             s.a.past.sends <= 0xFFFF_FFFF && s.b.past.sends <= 0xFFFF_FFFF && k in s.a.pending
    ensures var s := Run(AsIntended, limits, start, moves);
            var y := ReceiveAt(AsIntended, s.b, s.a.pending[k].data, undef);
            k !in ReceiveAt(AsIntended, s.a, ControlPacket(ACK, y.window), undef).pending <==> InReach(s.b.window, k)
  {
    PromiseKept(AsIntended, limits, start, moves);
    var s := Run(AsIntended, limits, start, moves);
    assert IsData(s.a.pending[k].data, k, s.a.past.log[k]);
    ArrivalReaches(s.b.window, s.b.past.accepted, k);
    ControlPacketDecodes(ACK, IntendedStep(s.b.window, k));
  }

  lemma ArrivalReaches(w: Window, accepted: set<uint32>, k: uint32)
    requires Exact(w, accepted)
    ensures var w' := IntendedStep(w, k); Acknowledges(w'.top, w'.bits, k) <==> InReach(w, k)
  {
    IntendedKeepsExact(w, accepted, k);
    AcknowledgesExactly(IntendedStep(w, k), if Accepts(w, k) then accepted + {k} else accepted, k);
  }

  // Doom

  ghost predicate Silent(d: seq<byte>, k: uint32) {
    |d| >= HEADER_SIZE ==> !Acknowledges(Decode(d).lastAcked, Decode(d).bits, k)
  }

  /** `x` waits for `k`, the window of `y` has passed it, and nothing `y` has under way or stored acknowledges it. */
  ghost predicate Doomed(x: Endpoint, y: Endpoint, toX: set<seq<byte>>, k: uint32) {
    && k in x.pending
    && k + 32 < y.window.top
    && forall d :: d in Carried(y, toX) ==> Silent(d, k)
  }

  lemma SenderStaysDoomed(limits: Limits, s: System, ev: Event, k: uint32)
    requires Doomed(s.a, s.b, s.toA, k)
    ensures var t := NextA(AsIntended, limits, s, ev); Doomed(t.a, t.b, t.toA, k)
  {
    match ev
    case Receive(d, undef) => if d in s.toA { assert Silent(d, k); }
    case _ =>
  }

  /** A window that has passed `k` acknowledges it in no packet. */
  lemma PassedIsSilent(w: Window, accepted: set<uint32>, k: uint32)
    requires Exact(w, accepted) && k + 32 < w.top
    ensures forall j, payload :: Silent(DataPacket(j, w, payload), k)
    ensures forall kind, payload :: Silent(ControlPacket(kind, w) + payload, k)
  {
    AcknowledgesExactly(w, accepted, k);
    forall j, payload ensures Silent(DataPacket(j, w, payload), k) {
      DataPacketDecodes(j, w, payload);
    }
    forall kind, payload ensures Silent(ControlPacket(kind, w) + payload, k) {
      DecodeEncode(Header(kind, 0, w.top, w.bits), payload);
    }
  }

  lemma StaysDoomed(x: Endpoint, y: Endpoint, y': Endpoint, toX: set<seq<byte>>, toX': set<seq<byte>>, d: seq<byte>,
                    k: uint32)
    requires Doomed(x, y, toX, k) && Silent(d, k)
    requires y.window.top <= y'.window.top && Carried(y', toX') <= Carried(y, toX) + {d}
    ensures Doomed(x, y', toX', k)
  {
  }

  /** The same from the other side: `s.a` is the receiver here. */
  lemma ReceiverStaysDoomed(limits: Limits, s: System, ev: Event, k: uint32)
    requires Doomed(s.b, s.a, s.toB, k) && Exact(s.a.window, s.a.past.accepted)
    ensures var t := NextA(AsIntended, limits, s, ev); Doomed(t.b, t.a, t.toB, k)
  {
    PassedIsSilent(s.a.window, s.a.past.accepted, k);
    if s.a.live {
      match ev
      case Allocate(payload) =>
        AllocateCarries(s.a, s.toB, payload);
        StaysDoomed(s.b, s.a, AllocateAt(s.a, payload), s.toB, s.toB,
                    DataPacket(NextSequence(s.a), s.a.window, payload), k);
      case Transmit(j) =>
        if j in s.a.drafts && !s.a.drafts[j].transmitted {
          TransmitCarries(s.a, s.toB, j);
          StaysDoomed(s.b, s.a, TransmitAt(s.a, j), s.toB, s.toB + {s.a.drafts[j].data},
                      ControlPacket(ACK, s.a.window) + [], k);
        }
      case Record(j, now) =>
        if j in s.a.drafts && s.a.drafts[j].transmitted {
          RecordCarries(s.a, s.toB, j, now);
          StaysDoomed(s.b, s.a, RecordAt(s.a, j, now), s.toB, s.toB, ControlPacket(ACK, s.a.window) + [], k);
        }
      case Announce(kind, payload) =>
        if kind != DATA {
          var d := ControlPacket(kind, s.a.window) + payload;
          StaysDoomed(s.b, s.a, s.a, s.toB, s.toB + {d}, d, k);
        }
      case Tick(now, early) =>
        TickCarries(s.a, s.toB, now, limits, early);
        TickKeeps(s.a, now, limits);
        StaysDoomed(s.b, s.a, TickAt(s.a, now, limits), s.toB, s.toB + TickSends(s.a, now, limits, early),
                    ControlPacket(ACK, s.a.window) + [], k);
      case Receive(d, undef) =>
        if d in s.toA {
          ReceiveCarries(s.a, s.toB, d, undef);
          StaysDoomed(s.b, s.a, ReceiveAt(AsIntended, s.a, d, undef), s.toB, s.toB,
                      ControlPacket(ACK, s.a.window) + [], k);
        }
      case Lose(d) =>
    }
  }

  lemma ReceiveCarries(y: Endpoint, toX: set<seq<byte>>, d: seq<byte>, undef: Bits)
    ensures var y' := ReceiveAt(AsIntended, y, d, undef);
            Carried(y', toX) <= Carried(y, toX) && y.window.top <= y'.window.top
  {
    var y' := ReceiveAt(AsIntended, y, d, undef);
    assert forall j :: j in y'.pending ==> j in y.pending && y'.pending[j] == y.pending[j];
  }

  ghost predicate DoomedIn(s: System, k: uint32) {
    Doomed(s.a, s.b, s.toA, k)
  }

  /** No continuation of the run ends doom: the packet stays pending whatever either side or the network does. */
  lemma {:induction false} DoomIsForever(limits: Limits, start: real, moves: seq<Move>, more: seq<Move>, k: uint32)
    requires var s := Run(AsIntended, limits, start, moves + more);
             s.a.past.sends <= 0xFFFF_FFFF && s.b.past.sends <= 0xFFFF_FFFF
    requires DoomedIn(Run(AsIntended, limits, start, moves), k)
    ensures DoomedIn(Run(AsIntended, limits, start, moves + more), k)
  {
    if more == [] {
      assert moves + more == moves;
    } else {
      var before, m := more[..|more| - 1], more[|more| - 1];
      assert moves + more == moves + before + [m];
      RunOneMore(AsIntended, limits, start, moves + before, m);
      var s := Run(AsIntended, limits, start, moves + before);
      SendsGrow(AsIntended, limits, if m.atA then s else Swap(s), m.event);
      DoomIsForever(limits, start, moves, before, k);
      PromiseKept(AsIntended, limits, start, moves + before);
      if m.atA {
        SenderStaysDoomed(limits, s, m.event, k);
      } else {
        ReceiverStaysDoomed(limits, Swap(s), m.event, k);
      }
    }
  }

  /**
   So doom ends in a drop: a reading of the sender's clock more than
   (MaxRetries + 1) * (ResendTimeout + d) after the packet was recorded finds the
   connection gone, in every continuation with ticks at most `d` apart.
   */
  lemma DoomEndsInDrop(limits: Limits, start: real, moves: seq<Move>, more: seq<Move>, d: real, ev: Event, k: uint32)
    requires var s := Run(AsIntended, limits, start, moves + more);
             s.a.past.sends <= 0xFFFF_FFFF && s.b.past.sends <= 0xFFFF_FFFF
    requires DoomedIn(Run(AsIntended, limits, start, moves), k)
    requires limits.resendTimeout >= 0.0 && d >= 0.0 && Timed(ev)
    requires Prompt(AsIntended, limits, start, moves + more + [Move(true, ev)], d)
    requires var x := Run(AsIntended, limits, start, moves + more).a;
             k in x.past.recordedAt && ev.now > x.past.recordedAt[k]
               + Times(limits.maxRetries + 1, limits.resendTimeout + d)
    ensures !Run(AsIntended, limits, start, moves + more).a.live
  {
    DoomIsForever(limits, start, moves, more, k);
    GoneOrAcknowledged(AsIntended, limits, start, moves + more, d, ev, k);
  }

  // Doom happens

  lemma ReceivesTwo(y: Endpoint, start: real, first: uint32, last: uint32, w: Window, undef: Bits)
    requires y == NewEndpoint(start) && w == Fresh() && first == 1 && last == 34
    ensures var y1 := ReceiveAt(AsIntended, y, DataPacket(first, w, []), undef);
            var y2 := ReceiveAt(AsIntended, y1, DataPacket(last, w, []), undef);
            && y1.live && y2.live && y2.window.top == last && first in y2.past.accepted
            && y2.pending == map[] && y2.drafts == map[] && y2.past.sends == 0
  {
    DataPacketDecodes(first, w, []);
    DataPacketDecodes(last, w, []);
  }

  /**
   34 sends, of which the first and the last arrive and nothing comes back: the first is doomed although it
   was delivered.
   */
  lemma DeliveredYetDoomed(limits: Limits, start: real, undef: Bits) returns (moves: seq<Move>)
    ensures var s := Run(AsIntended, limits, start, moves);
            && s.a.live && s.b.live && s.a.past.sends == 34 && s.b.past.sends == 0
            && 1 in s.b.past.accepted && DoomedIn(s, 1)
  {
    var n, w := 34, Fresh();
    moves := DoomAt(limits, start, 1, n, w, undef);
  }

  lemma Arrives(limits: Limits, s: System, d: seq<byte>, undef: Bits)
    requires s.b.live && d in s.toB
    ensures Next(AsIntended, limits, s, Move(false, Receive(d, undef))) == s.(b := ReceiveAt(AsIntended, s.b, d, undef))
  {
  }

  lemma TwoArrive(limits: Limits, s: System, start: real, first: uint32, n: uint32, w: Window, undef: Bits)
    requires first == 1 && n == 34 && w == Fresh() && s.b == NewEndpoint(start) && s.toA == {}
    requires DataPacket(first, w, []) in s.toB && DataPacket(n, w, []) in s.toB && first in s.a.pending
    ensures var s1 := Next(AsIntended, limits, s, Move(false, Receive(DataPacket(first, w, []), undef)));
            var t := Next(AsIntended, limits, s1, Move(false, Receive(DataPacket(n, w, []), undef)));
            t.a == s.a && t.b.live && t.b.past.sends == 0 && first in t.b.past.accepted && DoomedIn(t, first)
  {
    var d1, d2 := DataPacket(first, w, []), DataPacket(n, w, []);
    ReceivesTwo(s.b, start, first, n, w, undef);
    Arrives(limits, s, d1, undef);
    var s1 := s.(b := ReceiveAt(AsIntended, s.b, d1, undef));
    Arrives(limits, s1, d2, undef);
    NothingCarried(ReceiveAt(AsIntended, s1.b, d2, undef));
  }

  lemma NothingCarried(y: Endpoint)
    requires y.pending == map[] && y.drafts == map[]
    ensures Carried(y, {}) == {}
  {
  }

  lemma DoomAt(limits: Limits, start: real, first: uint32, n: uint32, w: Window, undef: Bits) returns (moves: seq<Move>)
    requires first == 1 && n == 34 && w == Fresh()
    ensures var s := Run(AsIntended, limits, start, moves);
            && s.a.live && s.b.live && s.a.past.sends == n && s.b.past.sends == 0
            && first in s.b.past.accepted && DoomedIn(s, first)
  {
    AfterSends(AsIntended, limits, start, n, w);
    var sends := Sends(n, start);
    TwoArrive(limits, Run(AsIntended, limits, start, sends), start, first, n, w, undef);
    var m1, m2 := Move(false, Receive(DataPacket(first, w, []), undef)),
      Move(false, Receive(DataPacket(n, w, []), undef));
    RunOneMore(AsIntended, limits, start, sends, m1);
    RunOneMore(AsIntended, limits, start, sends + [m1], m2);
    moves := sends + [m1] + [m2];
  }
}
