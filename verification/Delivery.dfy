/**
 Two endpoints of one connection over a network that loses, duplicates and
 reorders datagrams. A send is split at its lock scopes, so that other senders,
 acknowledgements and ticks may come between.
 */
module Delivery {
  import opened Words
  import opened AckWindow
  import opened Packets
  import opened PendingTable

  /** Which UpdateReceivedState the endpoints run. */
  datatype Receiver = AsWritten | AsIntended

  /** A packet between the first and the last lock scope of its send. */
  datatype Draft = Draft(data: seq<byte>, transmitted: bool)

  /** What has happened; no step reads it. */
  datatype History = History(
    sends: nat,
    log: map<uint32, seq<byte>>,
    acked: set<uint32>,
    accepted: set<uint32>,
    inbox: seq<seq<byte>>,
    recordedAt: map<uint32, real>,
    transmissions: map<uint32, nat>,
    lastTick: real)

  datatype Endpoint = Endpoint(
    live: bool,
    sent: uint32,
    window: Window,
    pending: Table,
    drafts: map<uint32, Draft>,
    past: History)

  /** `toA` and `toB` hold what the network may still deliver, any number of times. */
  datatype System = System(a: Endpoint, b: Endpoint, toA: set<seq<byte>>, toB: set<seq<byte>>)

  datatype Event =
    | Allocate(payload: seq<byte>)
    | Transmit(k: uint32)
    | Record(k: uint32, now: real)
    | Announce(kind: byte, payload: seq<byte>)
    | Tick(now: real, early: set<uint32>)
    | Receive(datagram: seq<byte>, undef: Bits)
    | Lose(datagram: seq<byte>)

  function NewEndpoint(start: real): Endpoint {
    Endpoint(true, 0, Fresh(), map[], map[], History(0, map[], {}, {0}, [], map[], map[], start))
  }

  function ReceiverStep(mode: Receiver, w: Window, s: uint32, undef: Bits): Window {
    if mode.AsIntended? then IntendedStep(w, s) else WrittenStep(w, s, undef)
  }

  predicate Drops(mode: Receiver, w: Window, s: uint32) {
    if mode.AsIntended? then !Accepts(w, s) else s <= Sub32(w.top, 32)
  }

  /** The header and payload of the next Data packet, with the acknowledgement piggybacked. */
  function DataPacket(k: uint32, w: Window, payload: seq<byte>): seq<byte> {
    Encode(Header(DATA, k, w.top, w.bits)) + payload
  }

  /** A packet without a sequence number; it still carries the acknowledgement. */
  function ControlPacket(kind: byte, w: Window): seq<byte> {
    Encode(Header(kind, 0, w.top, w.bits))
  }

  function NextSequence(x: Endpoint): uint32 {
    (x.sent + 1) % 0x1_0000_0000
  }

  function AllocateAt(x: Endpoint, payload: seq<byte>): Endpoint {
    var k := NextSequence(x);
    x.(sent := k,
       drafts := x.drafts[k := Draft(DataPacket(k, x.window, payload), false)],
       past := x.past.(sends := x.past.sends + 1, log := x.past.log[k := payload]))
  }

  function TransmitAt(x: Endpoint, k: uint32): Endpoint
    requires k in x.drafts
  {
    x.(drafts := x.drafts[k := x.drafts[k].(transmitted := true)],
       past := x.past.(transmissions := x.past.transmissions[k := 1]))
  }

  function RecordAt(x: Endpoint, k: uint32, now: real): Endpoint
    requires k in x.drafts
  {
    x.(pending := x.pending[k := Pending(x.drafts[k].data, now, 0)],
       drafts := x.drafts - {k},
       past := x.past.(recordedAt := x.past.recordedAt[k := now]))
  }

  /** ProcessAck, then for Data the receive state and the inbox; a Disconnect ends the connection. */
  function ReceiveAt(mode: Receiver, x: Endpoint, d: seq<byte>, undef: Bits): Endpoint {
    if |d| < HEADER_SIZE then x
    else
      var h := Decode(d);
      var pending := AfterAck(x.pending, h.lastAcked, h.bits);
      var past := x.past.(acked := x.past.acked + (x.pending.Keys - pending.Keys));
      if h.kind == DATA then
        x.(pending := pending,
           window := ReceiverStep(mode, x.window, h.sequence, undef),
           past := past.(accepted := past.accepted + if Drops(mode, x.window, h.sequence) then {} else {h.sequence},
                         inbox := past.inbox + [Payload(d)]))
      else
        x.(pending := pending, past := past, live := h.kind != DISCONNECT)
  }

  function CountedResends(x: Endpoint, now: real, limits: Limits): map<uint32, nat> {
    x.past.transmissions +
    map k | k in x.pending && Expired(x.pending[k], now, limits) ::
      (if k in x.past.transmissions then x.past.transmissions[k] else 0) + 1
  }

  /** CheckForResends on this connection: it is dropped, or every overdue packet goes out again. */
  function TickAt(x: Endpoint, now: real, limits: Limits): Endpoint {
    if Exhausted(x.pending, now, limits) then x.(live := false)
    else x.(pending := Resent(x.pending, now, limits),
            past := x.past.(transmissions := CountedResends(x, now, limits), lastTick := now))
  }

  /** What a tick puts on the wire; a pass that ends in a drop may have resent some packets first. */
  function TickSends(x: Endpoint, now: real, limits: Limits, early: set<uint32>): set<seq<byte>> {
    set k | k in x.pending && Expired(x.pending[k], now, limits)
            && (Exhausted(x.pending, now, limits) ==> k in early && x.pending[k].retries < limits.maxRetries)
      :: x.pending[k].data
  }

  /** An Ack, or a request such as joining a group, whose payload is the group. */
  function Announced(s: System, kind: byte, payload: seq<byte>): System {
    s.(toB := s.toB + {ControlPacket(kind, s.a.window) + payload})
  }

  function Ticked(limits: Limits, s: System, now: real, early: set<uint32>): System {
    s.(a := TickAt(s.a, now, limits), toB := s.toB + TickSends(s.a, now, limits, early))
  }

  function Swap(s: System): System {
    System(s.b, s.a, s.toB, s.toA)
  }

  /** One event at endpoint `a`; events that are not possible change nothing. */
  function NextA(mode: Receiver, limits: Limits, s: System, ev: Event): System {
    if !s.a.live then s
    else match ev
      case Allocate(payload) => s.(a := AllocateAt(s.a, payload))
      case Transmit(k) =>
        if k in s.a.drafts && !s.a.drafts[k].transmitted
        then s.(a := TransmitAt(s.a, k), toB := s.toB + {s.a.drafts[k].data}) else s
      case Record(k, now) =>
        if k in s.a.drafts && s.a.drafts[k].transmitted then s.(a := RecordAt(s.a, k, now)) else s
      case Announce(kind, payload) => if kind != DATA then Announced(s, kind, payload) else s
      case Tick(now, early) => Ticked(limits, s, now, early)
      case Receive(d, undef) =>
        if d in s.toA then s.(a := ReceiveAt(mode, s.a, d, undef)) else s
      case Lose(d) => s.(toA := s.toA - {d})
  }

  datatype Move = Move(atA: bool, event: Event)

  function Next(mode: Receiver, limits: Limits, s: System, m: Move): System {
    if m.atA then NextA(mode, limits, s, m.event) else Swap(NextA(mode, limits, Swap(s), m.event))
  }

  function Run(mode: Receiver, limits: Limits, start: real, moves: seq<Move>): System {
    if moves == [] then System(NewEndpoint(start), NewEndpoint(start), {}, {})
    else Next(mode, limits, Run(mode, limits, start, moves[..|moves| - 1]), moves[|moves| - 1])
  }

  // The ledger of one sender

  /** The sends up to which the receiver keeps its promise. */
  function Bound(mode: Receiver): nat {
    if mode.AsIntended? then 0xFFFF_FFFF else 0xFFFF_FFE0
  }

  ghost predicate IsData(d: seq<byte>, k: uint32, payload: seq<byte>) {
    |d| >= HEADER_SIZE && Decode(d).kind == DATA && Decode(d).sequence == k && Payload(d) == payload
  }

  /** Every number handed out is in exactly one place, and its bytes carry that number. */
  ghost predicate Ledger(x: Endpoint) {
    && x.sent == x.past.sends
    && (forall k :: k in x.past.log <==> 1 <= k <= x.sent)
    && (forall k :: k in x.past.log <==> k in x.pending || k in x.drafts || k in x.past.acked)
    && (forall k :: k in x.pending ==> k !in x.drafts && k !in x.past.acked)
    && (forall k :: k in x.drafts ==> k !in x.past.acked)
    && (forall k :: k in x.pending ==> IsData(x.pending[k].data, k, x.past.log[k]))
    && (forall k :: k in x.drafts ==> IsData(x.drafts[k].data, k, x.past.log[k]))
  }

  lemma DataPacketDecodes(k: uint32, w: Window, payload: seq<byte>)
    ensures IsData(DataPacket(k, w, payload), k, payload)
    ensures Decode(DataPacket(k, w, payload)).lastAcked == w.top && Decode(DataPacket(k, w, payload)).bits == w.bits
  {
    DecodeEncode(Header(DATA, k, w.top, w.bits), payload);
  }

  lemma ControlPacketDecodes(kind: byte, w: Window)
    ensures Decode(ControlPacket(kind, w)) == Header(kind, 0, w.top, w.bits)
    ensures ControlPacket(kind, w) + [] == ControlPacket(kind, w)
  {
    assert ControlPacket(kind, w) + [] == ControlPacket(kind, w);
    DecodeEncode(Header(kind, 0, w.top, w.bits), []);
  }

  lemma LedgerAllocate(x: Endpoint, payload: seq<byte>)
    requires Ledger(x) && x.past.sends < 0xFFFF_FFFF
    ensures Ledger(AllocateAt(x, payload))
  {
    var k := NextSequence(x);
    DataPacketDecodes(k, x.window, payload);
    assert k == x.sent + 1 && k !in x.past.log;
  }

  lemma LedgerTransmit(x: Endpoint, k: uint32)
    requires Ledger(x) && k in x.drafts
    ensures Ledger(TransmitAt(x, k))
  {
  }

  lemma LedgerRecord(x: Endpoint, k: uint32, now: real)
    requires Ledger(x) && k in x.drafts
    ensures Ledger(RecordAt(x, k, now))
  {
  }

  lemma LedgerTick(x: Endpoint, now: real, limits: Limits)
    requires Ledger(x)
    ensures Ledger(TickAt(x, now, limits))
  {
  }

  lemma LedgerReceive(mode: Receiver, x: Endpoint, d: seq<byte>, undef: Bits)
    requires Ledger(x)
    ensures Ledger(ReceiveAt(mode, x, d, undef))
  {
  }

  // What one direction of the connection promises

  /** The acknowledgement in the datagram covers accepted sequences only. */
  ghost predicate Truthful(d: seq<byte>, accepted: set<uint32>) {
    && |d| >= HEADER_SIZE
    && forall k :: Acknowledges(Decode(d).lastAcked, Decode(d).bits, k) ==> k in accepted
  }

  /** A truthful datagram of `x` that, if it is Data, carries what was sent under its number. */
  ghost predicate Fair(d: seq<byte>, x: Endpoint) {
    && Truthful(d, x.past.accepted)
    && (Decode(d).kind == DATA ==>
         Decode(d).sequence in x.past.log && Payload(d) == x.past.log[Decode(d).sequence])
  }

  /** Every datagram of `x` that is under way or may still be sent. */
  ghost function Carried(x: Endpoint, toY: set<seq<byte>>): set<seq<byte>> {
    toY + (set k | k in x.pending :: x.pending[k].data) + (set k | k in x.drafts :: x.drafts[k].data)
  }

  /** `x` sends to `y`: what is carried, what has been accepted and what has been acknowledged. */
  ghost predicate Half(x: Endpoint, y: Endpoint, toY: set<seq<byte>>) {
    && Exact(x.window, x.past.accepted)
    && (forall d :: d in Carried(x, toY) ==> Fair(d, x))
    && (forall k :: k in y.past.accepted && k != 0 ==> k in x.past.log && x.past.log[k] in y.past.inbox)
    && (forall p :: p in y.past.inbox ==> p in x.past.log.Values)
    && x.past.acked <= y.past.accepted
  }

  ghost predicate Starved(x: Endpoint) {
    x.window == Fresh() && x.past.accepted == {0}
  }

  ghost predicate Promise(mode: Receiver, s: System) {
    && Ledger(s.a) && Ledger(s.b)
    && Half(s.a, s.b, s.toB) && Half(s.b, s.a, s.toA)
    && (mode.AsWritten? ==> Starved(s.a) && Starved(s.b))
  }

  lemma TruthfulHeader(h: Header, payload: seq<byte>, w: Window, accepted: set<uint32>)
    requires Exact(w, accepted) && h.lastAcked == w.top && h.bits == w.bits
    ensures Truthful(Encode(h) + payload, accepted)
  {
    DecodeEncode(h, payload);
    forall k | Acknowledges(w.top, w.bits, k) ensures k in accepted {
      AcknowledgesExactly(w, accepted, k);
    }
  }

  /** A step of the sender that only moves datagrams about. */
  lemma HalfOut(x: Endpoint, x': Endpoint, y: Endpoint, toY: set<seq<byte>>, toY': set<seq<byte>>)
    requires Half(x, y, toY)
    requires x'.window == x.window && x'.past.accepted == x.past.accepted && x'.past.acked == x.past.acked
    requires x'.past.log == x.past.log && Carried(x', toY') <= Carried(x, toY)
    ensures Half(x', y, toY')
  {
  }

  lemma HalfIn(x: Endpoint, y: Endpoint, y': Endpoint, toY: set<seq<byte>>)
    requires Half(x, y, toY)
    requires y'.past.accepted == y.past.accepted && y'.past.inbox == y.past.inbox
    ensures Half(x, y', toY)
  {
  }

  lemma AllocateCarries(x: Endpoint, toY: set<seq<byte>>, payload: seq<byte>)
    ensures Carried(AllocateAt(x, payload), toY) <= Carried(x, toY) + {DataPacket(NextSequence(x), x.window, payload)}
  {
  }

  lemma TransmitCarries(x: Endpoint, toY: set<seq<byte>>, k: uint32)
    requires k in x.drafts
    ensures Carried(TransmitAt(x, k), toY + {x.drafts[k].data}) <= Carried(x, toY)
  {
  }

  lemma RecordCarries(x: Endpoint, toY: set<seq<byte>>, k: uint32, now: real)
    requires k in x.drafts
    ensures Carried(RecordAt(x, k, now), toY) <= Carried(x, toY)
  {
  }

  lemma TickCarries(x: Endpoint, toY: set<seq<byte>>, now: real, limits: Limits, early: set<uint32>)
    ensures Carried(TickAt(x, now, limits), toY + TickSends(x, now, limits, early)) <= Carried(x, toY)
  {
  }

  /** A fair datagram stays fair while its sender accepts more and sends more. */
  lemma FairGrows(d: seq<byte>, x: Endpoint, x': Endpoint)
    requires Fair(d, x) && x.past.accepted <= x'.past.accepted
    requires forall j :: j in x.past.log ==> j in x'.past.log && x'.past.log[j] == x.past.log[j]
    ensures Fair(d, x')
  {
  }

  lemma NewDataIsFair(x: Endpoint, payload: seq<byte>)
    requires Exact(x.window, x.past.accepted)
    ensures Fair(DataPacket(NextSequence(x), x.window, payload), AllocateAt(x, payload))
  {
    var k := NextSequence(x);
    TruthfulHeader(Header(DATA, k, x.window.top, x.window.bits), payload, x.window, x.past.accepted);
    DataPacketDecodes(k, x.window, payload);
  }

  lemma ControlIsFair(x: Endpoint, kind: byte, payload: seq<byte>)
    requires Exact(x.window, x.past.accepted) && kind != DATA
    ensures Fair(ControlPacket(kind, x.window) + payload, x)
  {
    var h := Header(kind, 0, x.window.top, x.window.bits);
    DecodeEncode(h, payload);
    TruthfulHeader(h, payload, x.window, x.past.accepted);
  }

  lemma LogGrows(x: Endpoint, payload: seq<byte>)
    requires Ledger(x) && x.past.sends < 0xFFFF_FFFF
    ensures forall j :: j in x.past.log ==>
              j in AllocateAt(x, payload).past.log && AllocateAt(x, payload).past.log[j] == x.past.log[j]
    ensures x.past.log.Values <= AllocateAt(x, payload).past.log.Values
  {
  }

  lemma AllocateOut(x: Endpoint, y: Endpoint, toY: set<seq<byte>>, payload: seq<byte>)
    requires Half(x, y, toY) && Ledger(x) && x.past.sends < 0xFFFF_FFFF
    ensures Half(AllocateAt(x, payload), y, toY)
  {
    var x' := AllocateAt(x, payload);
    LogGrows(x, payload);
    AllocateCarries(x, toY, payload);
    NewDataIsFair(x, payload);
    forall e | e in Carried(x, toY) ensures Fair(e, x') {
      FairGrows(e, x, x');
    }
  }

  /** A step of `a` that leaves what it has received alone. */
  lemma SenderStep(mode: Receiver, s: System, a': Endpoint, toB': set<seq<byte>>)
    requires Promise(mode, s) && Ledger(a') && Half(a', s.b, toB')
    requires a'.window == s.a.window && a'.past.accepted == s.a.past.accepted && a'.past.inbox == s.a.past.inbox
    ensures Promise(mode, s.(a := a', toB := toB'))
  {
    HalfIn(s.b, s.a, a', s.toA);
  }

  lemma AllocateEvent(mode: Receiver, limits: Limits, s: System, payload: seq<byte>)
    requires Promise(mode, s) && s.a.live && s.a.past.sends < 0xFFFF_FFFF
    ensures Promise(mode, NextA(mode, limits, s, Allocate(payload)))
  {
    LedgerAllocate(s.a, payload);
    AllocateOut(s.a, s.b, s.toB, payload);
    SenderStep(mode, s, AllocateAt(s.a, payload), s.toB);
  }

  lemma TransmitEvent(mode: Receiver, limits: Limits, s: System, k: uint32)
    requires Promise(mode, s) && s.a.live
    ensures Promise(mode, NextA(mode, limits, s, Transmit(k)))
  {
    if k in s.a.drafts && !s.a.drafts[k].transmitted {
      LedgerTransmit(s.a, k);
      TransmitCarries(s.a, s.toB, k);
      HalfOut(s.a, TransmitAt(s.a, k), s.b, s.toB, s.toB + {s.a.drafts[k].data});
      SenderStep(mode, s, TransmitAt(s.a, k), s.toB + {s.a.drafts[k].data});
    }
  }

  lemma RecordEvent(mode: Receiver, limits: Limits, s: System, k: uint32, now: real)
    requires Promise(mode, s) && s.a.live
    ensures Promise(mode, NextA(mode, limits, s, Record(k, now)))
  {
    if k in s.a.drafts && s.a.drafts[k].transmitted {
      LedgerRecord(s.a, k, now);
      RecordCarries(s.a, s.toB, k, now);
      HalfOut(s.a, RecordAt(s.a, k, now), s.b, s.toB, s.toB);
      SenderStep(mode, s, RecordAt(s.a, k, now), s.toB);
    }
  }

  lemma AnnounceOut(x: Endpoint, y: Endpoint, toY: set<seq<byte>>, d: seq<byte>)
    requires Half(x, y, toY) && Fair(d, x)
    ensures Half(x, y, toY + {d})
  {
    assert Carried(x, toY + {d}) == Carried(x, toY) + {d};
  }

  lemma AnnounceEvent(mode: Receiver, s: System, kind: byte, payload: seq<byte>)
    requires Promise(mode, s) && kind != DATA
    ensures Promise(mode, Announced(s, kind, payload))
  {
    var d := ControlPacket(kind, s.a.window) + payload;
    ControlIsFair(s.a, kind, payload);
    AnnounceOut(s.a, s.b, s.toB, d);
    SenderStep(mode, s, s.a, s.toB + {d});
  }

  lemma TickOut(x: Endpoint, y: Endpoint, toY: set<seq<byte>>, now: real, limits: Limits, early: set<uint32>)
    requires Half(x, y, toY)
    ensures Half(TickAt(x, now, limits), y, toY + TickSends(x, now, limits, early))
  {
    TickCarries(x, toY, now, limits, early);
    HalfOut(x, TickAt(x, now, limits), y, toY, toY + TickSends(x, now, limits, early));
  }

  lemma TickKeeps(x: Endpoint, now: real, limits: Limits)
    ensures var x' := TickAt(x, now, limits);
            x'.window == x.window && x'.past.accepted == x.past.accepted && x'.past.inbox == x.past.inbox
  {
  }

  lemma TickEvent(mode: Receiver, limits: Limits, s: System, now: real, early: set<uint32>)
    requires Promise(mode, s)
    ensures Promise(mode, Ticked(limits, s, now, early))
  {
    LedgerTick(s.a, now, limits);
    TickOut(s.a, s.b, s.toB, now, limits, early);
    TickKeeps(s.a, now, limits);
    SenderStep(mode, s, TickAt(s.a, now, limits), s.toB + TickSends(s.a, now, limits, early));
  }

  lemma ReceiverKeepsExact(mode: Receiver, w: Window, accepted: set<uint32>, s: uint32, undef: Bits)
    requires Exact(w, accepted)
    requires mode.AsWritten? ==> w == Fresh() && s <= Bound(mode)
    ensures Exact(ReceiverStep(mode, w, s, undef), if Drops(mode, w, s) then accepted else accepted + {s})
    ensures mode.AsWritten? ==> ReceiverStep(mode, w, s, undef) == w && Drops(mode, w, s)
  {
  }

  /** What an arrival changes in the receiving endpoint. */
  lemma ReceiveEffect(mode: Receiver, x: Endpoint, d: seq<byte>, undef: Bits)
    requires |d| >= HEADER_SIZE && Exact(x.window, x.past.accepted)
    requires mode.AsWritten? && Decode(d).kind == DATA ==> x.window == Fresh() && Decode(d).sequence <= Bound(mode)
    ensures var h, x' := Decode(d), ReceiveAt(mode, x, d, undef);
            && Exact(x'.window, x'.past.accepted)
            && x.past.accepted <= x'.past.accepted
            && (forall p :: p in x.past.inbox ==> p in x'.past.inbox)
            && (forall p :: p in x'.past.inbox && p !in x.past.inbox ==> h.kind == DATA && p == Payload(d))
            && (forall k :: k in x'.past.accepted && k !in x.past.accepted ==>
                 h.kind == DATA && k == h.sequence && Payload(d) in x'.past.inbox)
            && (forall k :: k in x'.past.acked && k !in x.past.acked ==> Acknowledges(h.lastAcked, h.bits, k))
            && (mode.AsWritten? ==> x'.window == x.window && x'.past.accepted == x.past.accepted)
            && (forall k :: k in x'.pending ==> k in x.pending && x'.pending[k] == x.pending[k])
            && x'.drafts == x.drafts && x'.past.log == x.past.log && x'.past.sends == x.past.sends
  {
    var h := Decode(d);
    if h.kind == DATA {
      ReceiverKeepsExact(mode, x.window, x.past.accepted, h.sequence, undef);
    }
  }

  lemma ReceiveOut(x: Endpoint, x': Endpoint, y: Endpoint, toY: set<seq<byte>>, d: seq<byte>)
    requires Half(x, y, toY) && Truthful(d, y.past.accepted)
    requires Exact(x'.window, x'.past.accepted) && x.past.accepted <= x'.past.accepted
    requires forall k :: k in x'.pending ==> k in x.pending && x'.pending[k] == x.pending[k]
    requires forall k :: k in x'.past.acked && k !in x.past.acked ==>
               Acknowledges(Decode(d).lastAcked, Decode(d).bits, k)
    requires x'.drafts == x.drafts && x'.past.log == x.past.log
    ensures Half(x', y, toY)
  {
    assert Carried(x', toY) <= Carried(x, toY);
    forall e | e in Carried(x', toY) ensures Fair(e, x') {
      FairGrows(e, x, x');
    }
  }

  lemma ReceiveIn(x: Endpoint, y: Endpoint, y': Endpoint, toY: set<seq<byte>>, d: seq<byte>)
    requires Half(x, y, toY) && d in toY && |d| >= HEADER_SIZE
    requires y.past.accepted <= y'.past.accepted
    requires forall p :: p in y.past.inbox ==> p in y'.past.inbox
    requires forall p :: p in y'.past.inbox && p !in y.past.inbox ==> Decode(d).kind == DATA && p == Payload(d)
    requires forall k :: k in y'.past.accepted && k !in y.past.accepted ==>
               Decode(d).kind == DATA && k == Decode(d).sequence && Payload(d) in y'.past.inbox
    ensures Half(x, y', toY)
  {
    assert Fair(d, x);
  }

  lemma ReceiveEvent(mode: Receiver, limits: Limits, s: System, d: seq<byte>, undef: Bits)
    requires Promise(mode, s) && s.a.live && s.b.past.sends <= Bound(mode)
    ensures Promise(mode, NextA(mode, limits, s, Receive(d, undef)))
  {
    if d in s.toA {
      var a' := ReceiveAt(mode, s.a, d, undef);
      assert Fair(d, s.b);
      LedgerReceive(mode, s.a, d, undef);
      ReceiveEffect(mode, s.a, d, undef);
      ReceiveOut(s.a, a', s.b, s.toB, d);
      ReceiveIn(s.b, s.a, a', s.toA, d);
    }
  }

  lemma LoseEvent(mode: Receiver, limits: Limits, s: System, d: seq<byte>)
    requires Promise(mode, s) && s.a.live
    ensures Promise(mode, NextA(mode, limits, s, Lose(d)))
  {
    HalfOut(s.b, s.b, s.a, s.toA, s.toA - {d});
  }

  lemma SendingStepA(mode: Receiver, limits: Limits, s: System, ev: Event)
    requires Promise(mode, s) && s.a.live && (ev.Allocate? || ev.Transmit? || ev.Record?)
    requires NextA(mode, limits, s, ev).a.past.sends <= Bound(mode)
    ensures Promise(mode, NextA(mode, limits, s, ev))
  {
    match ev
    case Allocate(payload) => AllocateEvent(mode, limits, s, payload);
    case Transmit(k) => TransmitEvent(mode, limits, s, k);
    case Record(k, now) => RecordEvent(mode, limits, s, k, now);
  }

  lemma PromiseStepA(mode: Receiver, limits: Limits, s: System, ev: Event)
    requires Promise(mode, s)
    requires NextA(mode, limits, s, ev).a.past.sends <= Bound(mode) && s.b.past.sends <= Bound(mode)
    ensures Promise(mode, NextA(mode, limits, s, ev))
  {
    if s.a.live {
      match ev
      case Announce(kind, payload) => if kind != DATA { AnnounceEvent(mode, s, kind, payload); }
      case Tick(now, early) => TickEvent(mode, limits, s, now, early);
      case Receive(d, undef) => ReceiveEvent(mode, limits, s, d, undef);
      case Lose(d) => LoseEvent(mode, limits, s, d);
      case _ => SendingStepA(mode, limits, s, ev);
    }
  }

  lemma PromiseSymmetric(mode: Receiver, s: System)
    requires Promise(mode, s)
    ensures Promise(mode, Swap(s))
  {
  }

  lemma PromiseStep(mode: Receiver, limits: Limits, s: System, m: Move)
    requires Promise(mode, s)
    requires var s' := Next(mode, limits, s, m); s'.a.past.sends <= Bound(mode) && s'.b.past.sends <= Bound(mode)
    requires s.a.past.sends <= Bound(mode) && s.b.past.sends <= Bound(mode)
    ensures Promise(mode, Next(mode, limits, s, m))
  {
    if m.atA {
      PromiseStepA(mode, limits, s, m.event);
    } else {
      PromiseSymmetric(mode, s);
      PromiseStepA(mode, limits, Swap(s), m.event);
      PromiseSymmetric(mode, NextA(mode, limits, Swap(s), m.event));
    }
  }

  lemma SendsGrow(mode: Receiver, limits: Limits, s: System, ev: Event)
    ensures NextA(mode, limits, s, ev).a.past.sends >= s.a.past.sends
    ensures NextA(mode, limits, s, ev).b == s.b
  {
  }

  lemma PromiseAtStart(mode: Receiver, limits: Limits, start: real)
    ensures Promise(mode, Run(mode, limits, start, []))
  {
  }

  lemma {:induction false} PromiseKept(mode: Receiver, limits: Limits, start: real, moves: seq<Move>)
    requires var s := Run(mode, limits, start, moves); s.a.past.sends <= Bound(mode) && s.b.past.sends <= Bound(mode)
    ensures Promise(mode, Run(mode, limits, start, moves))
  {
    if moves == [] {
      PromiseAtStart(mode, limits, start);
    } else {
      var s, m := Run(mode, limits, start, moves[..|moves| - 1]), moves[|moves| - 1];
      SendsGrow(mode, limits, if m.atA then s else Swap(s), m.event);
      PromiseKept(mode, limits, start, moves[..|moves| - 1]);
      PromiseStep(mode, limits, s, m);
    }
  }
}
