/** When the resend pass gives a connection up: not too early, and not too late. */
module Abandonment {
  import opened Words
  import opened AckWindow
  import opened Packets
  import opened PendingTable
  import opened Delivery
  import opened DeliveryTheorems

  /** `n` intervals of length `t`. */
  function Times(n: nat, t: real): real {
    n as real * t
  }

  lemma TimesOneMore(n: nat, t: real)
    ensures Times(n + 1, t) == Times(n, t) + t
  {
  }

  lemma TimesGrows(m: nat, n: nat, t: real)
    requires m <= n && t >= 0.0
    ensures Times(m, t) <= Times(n, t)
  {
  }

  /** The packet went out once when recorded and once per retry, and each retry waited out the timeout. */
  predicate Paced(p: Pending, recorded: real, transmissions: nat, limits: Limits) {
    && p.retries <= limits.maxRetries
    && transmissions == 1 + p.retries
    && p.sentTime >= recorded + Times(p.retries, limits.resendTimeout)
  }

  ghost predicate Counted(x: Endpoint, limits: Limits) {
    && (forall k :: k in x.drafts && x.drafts[k].transmitted ==>
        k in x.past.transmissions && x.past.transmissions[k] == 1)
    && (forall k :: k in x.past.recordedAt ==> k in x.pending || k in x.past.acked)
    && (forall k :: k in x.pending ==> k in x.past.recordedAt && k in x.past.transmissions)
    && (forall k :: k in x.pending ==> Paced(x.pending[k], x.past.recordedAt[k], x.past.transmissions[k], limits))
  }

  lemma PacedRetry(p: Pending, recorded: real, transmissions: nat, limits: Limits, now: real)
    requires Paced(p, recorded, transmissions, limits) && Expired(p, now, limits) && p.retries < limits.maxRetries
    ensures Paced(Retried(p, now), recorded, transmissions + 1, limits)
  {
  }

  lemma CountedTick(x: Endpoint, now: real, limits: Limits)
    requires Ledger(x) && Counted(x, limits)
    ensures Counted(TickAt(x, now, limits), limits)
  {
    if !Exhausted(x.pending, now, limits) {
      var x' := TickAt(x, now, limits);
      forall k | k in x'.pending
        ensures k in x'.past.transmissions && Paced(x'.pending[k], x.past.recordedAt[k], x'.past.transmissions[k],
                                                    limits)
      {
        assert Paced(x.pending[k], x.past.recordedAt[k], x.past.transmissions[k], limits);
        if Expired(x.pending[k], now, limits) {
          PacedRetry(x.pending[k], x.past.recordedAt[k], x.past.transmissions[k], limits, now);
        }
      }
      assert forall k :: k in x.drafts ==> k !in x.pending;
    }
  }

  lemma CountedAllocate(x: Endpoint, payload: seq<byte>, limits: Limits)
    requires Ledger(x) && Counted(x, limits) && x.past.sends < 0xFFFF_FFFF
    ensures Counted(AllocateAt(x, payload), limits)
  {
  }

  lemma CountedTransmit(x: Endpoint, k: uint32, limits: Limits)
    requires Ledger(x) && Counted(x, limits) && k in x.drafts
    ensures Counted(TransmitAt(x, k), limits)
  {
  }

  lemma CountedRecord(x: Endpoint, k: uint32, now: real, limits: Limits)
    requires Ledger(x) && Counted(x, limits) && k in x.drafts && x.drafts[k].transmitted
    ensures Counted(RecordAt(x, k, now), limits)
  {
  }

  lemma CountedReceive(mode: Receiver, x: Endpoint, d: seq<byte>, undef: Bits, limits: Limits)
    requires Counted(x, limits)
    ensures Counted(ReceiveAt(mode, x, d, undef), limits)
  {
  }

  lemma CountedStep(mode: Receiver, limits: Limits, s: System, ev: Event)
    requires Ledger(s.a) && Counted(s.a, limits) && NextA(mode, limits, s, ev).a.past.sends <= 0xFFFF_FFFF
    ensures Counted(NextA(mode, limits, s, ev).a, limits)
  {
    if s.a.live {
      match ev
      case Allocate(payload) => CountedAllocate(s.a, payload, limits);
      case Transmit(k) => if k in s.a.drafts { CountedTransmit(s.a, k, limits); }
      case Record(k, now) => if k in s.a.drafts && s.a.drafts[k].transmitted { CountedRecord(s.a, k, now, limits); }
      case Announce(_, _) =>
      case Tick(now, early) => CountedTick(s.a, now, limits);
      case Receive(d, undef) => CountedReceive(mode, s.a, d, undef, limits);
      case Lose(d) =>
    }
  }

  lemma {:induction false} CountedAlways(mode: Receiver, limits: Limits, start: real, moves: seq<Move>)
    requires Run(mode, limits, start, moves).a.past.sends <= 0xFFFF_FFFF
    ensures Counted(Run(mode, limits, start, moves).a, limits)
  {
    if moves != [] {
      var s, m := Run(mode, limits, start, moves[..|moves| - 1]), moves[|moves| - 1];
      SendsGrow(mode, limits, if m.atA then s else Swap(s), m.event);
      CountedAlways(mode, limits, start, moves[..|moves| - 1]);
      if m.atA {
        LedgerKept(mode, limits, start, moves[..|moves| - 1]);
        CountedStep(mode, limits, s, m.event);
      }
    }
  }

  /** The packet was recorded more than MaxRetries + 1 timeouts before `now` and has been sent 1 + MaxRetries times. */
  ghost predicate GivenUp(x: Endpoint, k: uint32, now: real, limits: Limits) {
    && k in x.pending && k in x.past.recordedAt && k in x.past.transmissions
    && now - x.past.recordedAt[k] > Times(limits.maxRetries + 1, limits.resendTimeout)
    && x.past.transmissions[k] == 1 + limits.maxRetries
  }

  /** Whatever the clock does, a tick drops a connection only over a packet that had all its chances. */
  lemma DroppedOnlyWhenGivenUp(mode: Receiver, limits: Limits, start: real, moves: seq<Move>, now: real,
                               early: set<uint32>)
    requires var s := Run(mode, limits, start, moves);
             s.a.past.sends <= 0xFFFF_FFFF && s.a.live && !NextA(mode, limits, s, Tick(now, early)).a.live
    ensures exists k :: GivenUp(Run(mode, limits, start, moves).a, k, now, limits)
  {
    CountedAlways(mode, limits, start, moves);
    ExhaustedIsGivenUp(Run(mode, limits, start, moves).a, now, limits);
  }

  lemma ExhaustedIsGivenUp(x: Endpoint, now: real, limits: Limits)
    requires Counted(x, limits) && Exhausted(x.pending, now, limits)
    ensures exists k :: GivenUp(x, k, now, limits)
  {
    var k :| k in x.pending && Expired(x.pending[k], now, limits) && x.pending[k].retries >= limits.maxRetries;
    assert Paced(x.pending[k], x.past.recordedAt[k], x.past.transmissions[k], limits);
    TimesOneMore(limits.maxRetries, limits.resendTimeout);
    assert GivenUp(x, k, now, limits);
  }

  // The other side: ticks at most `d` apart

  /** The events that read the clock. */
  predicate Timed(ev: Event) {
    ev.Tick? || ev.Record?
  }

  /** While `a` lives its clock never runs back, and no reading is more than `d` after the tick before it. */
  ghost predicate Prompt(mode: Receiver, limits: Limits, start: real, moves: seq<Move>, d: real) {
    moves == [] ||
    var before, m := moves[..|moves| - 1], moves[|moves| - 1];
    var x := Run(mode, limits, start, before).a;
    && Prompt(mode, limits, start, before, d)
    && (m.atA && x.live && Timed(m.event) ==> x.past.lastTick <= m.event.now <= x.past.lastTick + d)
  }

  ghost predicate Recent(x: Endpoint, limits: Limits, d: real) {
    forall k :: k in x.pending ==>
      && k in x.past.recordedAt
      && x.past.lastTick - x.pending[k].sentTime <= limits.resendTimeout
      && x.pending[k].sentTime <= x.past.recordedAt[k] + Times(x.pending[k].retries, limits.resendTimeout + d)
  }

  lemma RecentTick(x: Endpoint, now: real, limits: Limits, d: real)
    requires Recent(x, limits, d) && limits.resendTimeout >= 0.0 && x.past.lastTick <= now <= x.past.lastTick + d
    ensures Recent(TickAt(x, now, limits), limits, d)
  {
    if !Exhausted(x.pending, now, limits) {
      forall k | k in x.pending && Expired(x.pending[k], now, limits)
        ensures now <= x.past.recordedAt[k] + Times(x.pending[k].retries + 1, limits.resendTimeout + d)
      {
        TimesOneMore(x.pending[k].retries, limits.resendTimeout + d);
      }
    }
  }

  lemma {:induction false} RecentAlways(mode: Receiver, limits: Limits, start: real, moves: seq<Move>, d: real)
    requires limits.resendTimeout >= 0.0 && Prompt(mode, limits, start, moves, d)
    ensures Recent(Run(mode, limits, start, moves).a, limits, d)
  {
    if moves != [] {
      var s, m := Run(mode, limits, start, moves[..|moves| - 1]), moves[|moves| - 1];
      RecentAlways(mode, limits, start, moves[..|moves| - 1], d);
      if m.atA && s.a.live {
        match m.event
        case Tick(now, early) => RecentTick(s.a, now, limits, d);
        case Record(k, now) => assert Times(0, limits.resendTimeout + d) == 0.0;
        case _ =>
      }
    }
  }

  /** The latest tick a connection can survive with a packet recorded at `recorded` still waiting. */
  function LastChance(recorded: real, limits: Limits, d: real): real {
    recorded + Times(limits.maxRetries, limits.resendTimeout + d) + limits.resendTimeout
  }

  lemma LastChanceIsSoon(recorded: real, limits: Limits, d: real)
    ensures LastChance(recorded, limits, d) + d == recorded + Times(limits.maxRetries + 1, limits.resendTimeout + d)
  {
    TimesOneMore(limits.maxRetries, limits.resendTimeout + d);
  }

  /** At the last tick no packet still pending was past its last chance. */
  lemma UnacknowledgedForcesDrop(mode: Receiver, limits: Limits, start: real, moves: seq<Move>, d: real, k: uint32)
    requires limits.resendTimeout >= 0.0 && d >= 0.0 && Prompt(mode, limits, start, moves, d)
    requires var x := Run(mode, limits, start, moves).a;
             x.past.sends <= 0xFFFF_FFFF && k in x.pending && k in x.past.recordedAt
    ensures var x := Run(mode, limits, start, moves).a; x.past.lastTick <= LastChance(x.past.recordedAt[k], limits, d)
  {
    RecentAlways(mode, limits, start, moves, d);
    CountedAlways(mode, limits, start, moves);
    SurvivorIsYoung(Run(mode, limits, start, moves).a, limits, d, k);
  }

  /**
   Whatever reads the clock of `a` more than (MaxRetries + 1) * (ResendTimeout + d)
   after packet `k` was recorded finds the connection gone or `k` acknowledged.
   */
  lemma GoneOrAcknowledged(mode: Receiver, limits: Limits, start: real, moves: seq<Move>, d: real, ev: Event, k: uint32)
    requires limits.resendTimeout >= 0.0 && d >= 0.0 && Timed(ev)
    requires Prompt(mode, limits, start, moves + [Move(true, ev)], d)
    requires var x := Run(mode, limits, start, moves).a;
             && x.past.sends <= 0xFFFF_FFFF && k in x.past.recordedAt
             && ev.now > x.past.recordedAt[k] + Times(limits.maxRetries + 1, limits.resendTimeout + d)
    ensures var x := Run(mode, limits, start, moves).a; !x.live || (k !in x.pending && k in x.past.acked)
  {
    assert (moves + [Move(true, ev)])[..|moves|] == moves;
    var x := Run(mode, limits, start, moves).a;
    CountedAlways(mode, limits, start, moves);
    if k in x.pending {
      UnacknowledgedForcesDrop(mode, limits, start, moves, d, k);
      LastChanceIsSoon(x.past.recordedAt[k], limits, d);
    } else {
      assert k in x.past.acked;
    }
  }

  lemma SurvivorIsYoung(x: Endpoint, limits: Limits, d: real, k: uint32)
    requires limits.resendTimeout >= 0.0 && d >= 0.0 && Recent(x, limits, d) && Counted(x, limits) && k in x.pending
    ensures k in x.past.recordedAt && x.past.lastTick <= LastChance(x.past.recordedAt[k], limits, d)
  {
    assert Paced(x.pending[k], x.past.recordedAt[k], x.past.transmissions[k], limits);
    TimesGrows(x.pending[k].retries, limits.maxRetries, limits.resendTimeout + d);
  }

  /**
   The code as written drops every connection it sends on: nothing is ever
   acknowledged, so a tick after the last chance of any recorded packet leaves
   the connection gone.
   */
  lemma WrittenDropsEveryConnection(limits: Limits, start: real, moves: seq<Move>, d: real, now: real,
                                    early: set<uint32>, k: uint32)
    requires limits.resendTimeout >= 0.0 && d >= 0.0
    requires Prompt(AsWritten, limits, start, moves + [Move(true, Tick(now, early))], d)
    requires var s := Run(AsWritten, limits, start, moves);
             && s.a.past.sends <= 0xFFFF_FFE0 && s.b.past.sends <= 0xFFFF_FFE0
             && k in s.a.past.recordedAt && now > LastChance(s.a.past.recordedAt[k], limits, d)
    ensures !Run(AsWritten, limits, start, moves + [Move(true, Tick(now, early))]).a.live
  {
    var m := Move(true, Tick(now, early));
    var s, after := Run(AsWritten, limits, start, moves), moves + [m];
    RunOneMore(AsWritten, limits, start, moves, m);
    WrittenAcknowledgesNothing(limits, start, moves);
    CountedAlways(AsWritten, limits, start, moves);
    assert k in s.a.pending;
    if s.a.live && !Exhausted(s.a.pending, now, limits) {
      UnacknowledgedForcesDrop(AsWritten, limits, start, after, d, k);
    }
  }
}
