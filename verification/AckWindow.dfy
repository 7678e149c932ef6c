/**
 The receiver half of the protocol: the highest sequence received and the
 32-bit record of its predecessors. `WrittenStep` is the code as it stands,
 `IntendedStep` is the step that the header's documentation and the decoding
 in ProcessAck call for.
 */
module AckWindow {
  import opened Words

  /** ReceivedSequence and ReceivedAckBitfield of one connection. */
  datatype Window = Window(top: uint32, bits: Bits)

  /** A connection before anything has been received. */
  function Fresh(): Window {
    Window(0, Zero())
  }

  /**
   UpdateReceivedState as coded. The last branch shifts by `Diff - 1`; when the
   newest packet is duplicated that is a shift by 2^32 - 1, whose result C++
   leaves undefined, so it is the parameter `undef`.
   */
  function WrittenStep(w: Window, s: uint32, undef: Bits): Window {
    if s <= Sub32(w.top, 32) then w
    else if s > w.top then
      var diff := s - w.top;
      Window(s, SetBit(if diff >= 32 then Zero() else ShiftLeft(w.bits, diff), 0))
    else
      var diff := w.top - s;
      Window(w.top, if diff == 0 then Or(w.bits, undef) else SetBit(w.bits, diff - 1))
  }

  /** UpdateReceivedState as documented: bit `i` stands for `top - (i + 1)`. */
  function IntendedStep(w: Window, s: uint32): Window {
    if w.top >= 32 && s <= w.top - 32 then w
    else if s > w.top then
      var d := s - w.top;
      Window(s, if d > 32 then Zero() else SetBit(if d == 32 then Zero() else ShiftLeft(w.bits, d), d - 1))
    else if s == w.top then w
    else Window(w.top, SetBit(w.bits, w.top - s - 1))
  }

  /** What a header carrying `lastAcked` and `bits` acknowledges, as ProcessAck decodes it. */
  predicate Acknowledges(lastAcked: uint32, bits: Bits, k: uint32) {
    k == lastAcked || exists i :: 0 <= i < 32 && bits[i] && k == Sub32(lastAcked, i + 1)
  }

  /** The window records exactly `accepted`, as far back as 32 bits reach. */
  ghost predicate Exact(w: Window, accepted: set<uint32>) {
    && w.top in accepted
    && (forall k :: k in accepted ==> k <= w.top)
    && (forall i {:trigger w.bits[i]} :: 0 <= i < 32 ==> (w.bits[i] <==> w.top >= i + 1 && w.top - (i + 1) in accepted))
  }

  /** The receiver does not discard `s` as too old. */
  predicate Accepts(w: Window, s: uint32) {
    s + 32 > w.top
  }

  lemma IntendedKeepsExact(w: Window, accepted: set<uint32>, s: uint32)
    requires Exact(w, accepted)
    ensures Exact(IntendedStep(w, s), if Accepts(w, s) then accepted + {s} else accepted)
  {
  }

  /** The decoding in ProcessAck reads an exact window as: accepted, and at most 32 behind. */
  lemma AcknowledgesExactly(w: Window, accepted: set<uint32>, k: uint32)
    requires Exact(w, accepted)
    ensures Acknowledges(w.top, w.bits, k) <==> k in accepted && k + 32 >= w.top
  {
    if k in accepted && k + 32 >= w.top && k != w.top {
      var i := w.top - k - 1;
      assert w.bits[i];
    }
  }

  // Runs of the receiver over any sequence of arrivals

  function ReceiveAll(arrivals: seq<uint32>): Window {
    if arrivals == [] then Fresh()
    else IntendedStep(ReceiveAll(arrivals[..|arrivals| - 1]), arrivals[|arrivals| - 1])
  }

  function Highest(arrivals: seq<uint32>): uint32 {
    if arrivals == [] then 0
    else
      var h := Highest(arrivals[..|arrivals| - 1]);
      var s := arrivals[|arrivals| - 1];
      if s > h then s else h
  }

  /** The arrivals that were less than 32 behind the highest one before them; sequence 0 counts as received. */
  ghost function AcceptedOf(arrivals: seq<uint32>): set<uint32> {
    {0} + set j | 0 <= j < |arrivals| && arrivals[j] + 32 > Highest(arrivals[..j]) :: arrivals[j]
  }

  lemma AcceptedOfOneMore(before: seq<uint32>, s: uint32)
    ensures AcceptedOf(before + [s]) == AcceptedOf(before) + (if s + 32 > Highest(before) then {s} else {})
  {
    var arrivals, n := before + [s], |before|;
    assert arrivals[..n] == before && arrivals[n] == s;
    assert forall j :: 0 <= j < n ==> arrivals[..j] == before[..j] && arrivals[j] == before[j];
  }

  lemma {:induction false} WindowExactOnEveryRun(arrivals: seq<uint32>)
    ensures ReceiveAll(arrivals).top == Highest(arrivals)
    ensures Exact(ReceiveAll(arrivals), AcceptedOf(arrivals))
  {
    if arrivals == [] {
      assert AcceptedOf(arrivals) == {0};
    } else {
      var before, s := arrivals[..|arrivals| - 1], arrivals[|arrivals| - 1];
      WindowExactOnEveryRun(before);
      IntendedKeepsExact(ReceiveAll(before), AcceptedOf(before), s);
      AcceptedOfOneMore(before, s);
      assert arrivals == before + [s];
    }
  }

  // Where the code as written meets its documentation

  /** Exactly when the two steps agree; `undef` is only read when the newest packet is duplicated. */
  predicate Agree(w: Window, s: uint32, undef: Bits) {
    if w.top < 32 then s == w.top || (s < w.top && w.bits[w.top - s - 1])
    else s < w.top || s == w.top + 1 || (s == w.top && Or(w.bits, undef) == w.bits)
  }

  lemma WrittenAgreesExactlyWhen(w: Window, s: uint32, undef: Bits)
    ensures WrittenStep(w, s, undef) == IntendedStep(w, s) <==> Agree(w, s, undef)
  {
    var a, b := WrittenStep(w, s, undef), IntendedStep(w, s);
    if s > w.top && s > Sub32(w.top, 32) {
      assert a.bits[0];
      var d := s - w.top;
      if w.top >= 32 && d == 1 {
        assert a.bits == b.bits;
      } else {
        assert !b.bits[0];
      }
    } else if s < w.top && w.top < 32 {
      var i := w.top - s - 1;
      assert b.bits[i];
      assert w.bits[i] ==> b.bits == w.bits;
    }
  }

  /** The coded step, bit by bit. */
  lemma WrittenStepBitByBit(w: Window, s: uint32, undef: Bits, i: nat)
    requires i < 32
    ensures var w' := WrittenStep(w, s, undef);
            if s <= (w.top + 0xFFFF_FFE0) % 0x1_0000_0000 then w' == w
            else if s > w.top then
              w'.top == s && (w'.bits[i] <==> i == 0 || (w.top + i >= s && w.bits[w.top + i - s]))
            else
              w'.top == w.top && (w'.bits[i] <==> w.bits[i] || if s == w.top then undef[i] else s + i + 1 == w.top)
  {
  }

  /** Every sequence the window acknowledges has been accepted. */
  ghost predicate Sound(w: Window, accepted: set<uint32>) {
    forall k :: Acknowledges(w.top, w.bits, k) ==> k in accepted
  }

  /**
   From an exact window, the written step acknowledges only what has arrived
   unless it advances by two or more past the drop test, or the undefined shift
   invents a bit.
   */
  lemma WrittenSoundExactlyWhen(w: Window, accepted: set<uint32>, s: uint32, undef: Bits)
    requires Exact(w, accepted)
    ensures Sound(WrittenStep(w, s, undef), accepted + {s}) <==>
            if s > w.top then s == w.top + 1 || s <= Sub32(w.top, 32)
            else s < w.top || w.top < 32 || (forall i :: 0 <= i < 32 && undef[i] ==> Sub32(w.top, i + 1) in accepted)
  {
    if s <= Sub32(w.top, 32) {
      forall k | Acknowledges(w.top, w.bits, k) ensures k in accepted {
        AcknowledgesExactly(w, accepted, k);
      }
    } else if s > w.top {
      WrittenAdvance(w, accepted, s, undef);
    } else {
      WrittenOlder(w, accepted, s, undef);
    }
  }

  lemma WrittenAdvance(w: Window, accepted: set<uint32>, s: uint32, undef: Bits)
    requires Exact(w, accepted) && s > w.top && s > Sub32(w.top, 32)
    ensures Sound(WrittenStep(w, s, undef), accepted + {s}) <==> s == w.top + 1
  {
    var w' := WrittenStep(w, s, undef);
    assert w'.bits[0] && Sub32(s, 1) == s - 1;
    assert Acknowledges(w'.top, w'.bits, s - 1);
    if s == w.top + 1 {
      WrittenNext(w, accepted, undef);
    }
  }

  lemma WrittenNext(w: Window, accepted: set<uint32>, undef: Bits)
    requires Exact(w, accepted) && w.top + 1 < 0x1_0000_0000
    ensures Sound(Window(w.top + 1, SetBit(ShiftLeft(w.bits, 1), 0)), accepted + {w.top + 1})
  {
    var s, bits := w.top + 1, SetBit(ShiftLeft(w.bits, 1), 0);
    forall k | Acknowledges(s, bits, k) ensures k in accepted + {s} {
      if k != s {
        var i :| 0 <= i < 32 && bits[i] && k == Sub32(s, i + 1);
        if i > 0 { assert w.bits[i - 1]; }
      }
    }
  }

  lemma WrittenOlder(w: Window, accepted: set<uint32>, s: uint32, undef: Bits)
    requires Exact(w, accepted) && w.top >= 32 && w.top - 32 < s <= w.top
    ensures Sound(WrittenStep(w, s, undef), accepted + {s}) <==>
            s < w.top || (forall i :: 0 <= i < 32 && undef[i] ==> Sub32(w.top, i + 1) in accepted)
  {
    if s < w.top {
      forall k | Acknowledges(w.top, SetBit(w.bits, w.top - s - 1), k) ensures k in accepted + {s} {
        AcknowledgesExactly(w, accepted, k);
      }
    } else {
      WrittenDuplicate(w, accepted, undef);
      assert accepted + {s} == accepted;
    }
  }

  lemma WrittenDuplicate(w: Window, accepted: set<uint32>, undef: Bits)
    requires Exact(w, accepted) && w.top >= 32
    ensures Sound(Window(w.top, Or(w.bits, undef)), accepted) <==>
            forall i :: 0 <= i < 32 && undef[i] ==> Sub32(w.top, i + 1) in accepted
  {
    var bits := Or(w.bits, undef);
    forall i | 0 <= i < 32 && undef[i] ensures Acknowledges(w.top, bits, Sub32(w.top, i + 1)) {
      assert bits[i];
    }
    if forall i :: 0 <= i < 32 && undef[i] ==> Sub32(w.top, i + 1) in accepted {
      forall k | Acknowledges(w.top, bits, k) ensures k in accepted {
        AcknowledgesExactly(w, accepted, k);
      }
    }
  }

  /** One arrival with the value an undefined shift took at that moment. */
  datatype Arrival = Arrival(s: uint32, undef: Bits)

  function ReceiveAllWritten(arrivals: seq<Arrival>): Window {
    if arrivals == [] then Fresh()
    else
      var a := arrivals[|arrivals| - 1];
      WrittenStep(ReceiveAllWritten(arrivals[..|arrivals| - 1]), a.s, a.undef)
  }

  /** As written a connection never leaves its fresh state before sequence 2^32 - 31 arrives, and leaves it then. */
  lemma {:induction false} WrittenStaysFresh(arrivals: seq<Arrival>)
    ensures ReceiveAllWritten(arrivals) == Fresh() <==> forall j :: 0 <= j < |arrivals| ==> arrivals[j].s <= 0xFFFF_FFE0
  {
    if arrivals != [] {
      var n := |arrivals| - 1;
      var before := arrivals[..n];
      WrittenStaysFresh(before);
      var w := ReceiveAllWritten(before);
      if w != Fresh() {
        WrittenNeverReturns(before, arrivals[n]);
      } else if arrivals[n].s > 0xFFFF_FFE0 {
        assert WrittenStep(w, arrivals[n].s, arrivals[n].undef).top > 0;
      }
      assert forall j :: 0 <= j < n ==> arrivals[j] == before[j];
    }
  }

  lemma {:induction false} WrittenNeverReturns(arrivals: seq<Arrival>, a: Arrival)
    requires ReceiveAllWritten(arrivals) != Fresh()
    ensures WrittenStep(ReceiveAllWritten(arrivals), a.s, a.undef) != Fresh()
  {
  }

  /** So the windows of a coded connection are the fresh one and those within 31 of the largest sequence. */
  lemma {:induction false} WrittenTopsAreExtreme(arrivals: seq<Arrival>)
    ensures var w := ReceiveAllWritten(arrivals); w == Fresh() || w.top > 0xFFFF_FFE0
  {
    if arrivals != [] {
      WrittenTopsAreExtreme(arrivals[..|arrivals| - 1]);
    }
  }

  /** The first arrival that moves a coded connection at all makes it acknowledge a packet that never came. */
  lemma WrittenClaimsAnUnseenPacket(a: Arrival)
    ensures var w := ReceiveAllWritten([a]);
            if a.s > 0xFFFF_FFE0 then w.top == a.s && Acknowledges(w.top, w.bits, a.s - 1)
            else w == Fresh()
  {
    var w := WrittenStep(Fresh(), a.s, a.undef);
    assert [a][..0] == [] && ReceiveAllWritten([]) == Fresh();
    if a.s > 0xFFFF_FFE0 {
      assert w.bits[0] && Sub32(a.s, 1) == a.s - 1;
    }
  }
}
