/** The table of packets sent and not yet acknowledged, and what acknowledgements and ticks do to it. */
module PendingTable {
  import opened Words
  import opened AckWindow
  import opened Packets

  datatype Pending = Pending(data: seq<byte>, sentTime: real, retries: nat)

  type Table = map<uint32, Pending>

  datatype Limits = Limits(resendTimeout: real, maxRetries: nat, clientTimeout: real)

  /** The constants of the server; every theorem holds for any non-negative timeout. */
  const DEFAULT_LIMITS := Limits(0.2, 10, 5.0)

  /** 200 ms, ten retries, five seconds: a packet has eleven chances of 200 ms each. */
  lemma DefaultLimitsAre()
    ensures DEFAULT_LIMITS.resendTimeout * 1000.0 == 200.0 && DEFAULT_LIMITS.clientTimeout == 5.0
    ensures (DEFAULT_LIMITS.maxRetries + 1) as real * DEFAULT_LIMITS.resendTimeout * 1000.0 == 2200.0
  {
  }

  /** ProcessAck as a set difference: no loop, no order. */
  function AfterAck(t: Table, lastAcked: uint32, bits: Bits): Table {
    map k | k in t && !Acknowledges(lastAcked, bits, k) :: t[k]
  }

  function AfterAcks(t: Table, headers: seq<Header>): Table {
    if headers == [] then t
    else AfterAcks(AfterAck(t, headers[0].lastAcked, headers[0].bits), headers[1..])
  }

  predicate AcknowledgedByAny(headers: seq<Header>, k: uint32) {
    exists h :: h in headers && Acknowledges(h.lastAcked, h.bits, k)
  }

  lemma {:induction false} AfterAcksIsDifference(t: Table, headers: seq<Header>)
    ensures AfterAcks(t, headers) == map k | k in t && !AcknowledgedByAny(headers, k) :: t[k]
  {
    if headers != [] {
      var h, rest := headers[0], headers[1..];
      AfterAcksIsDifference(AfterAck(t, h.lastAcked, h.bits), rest);
      assert headers == [h] + rest;
      assert forall k :: AcknowledgedByAny(headers, k) <==>
             Acknowledges(h.lastAcked, h.bits, k) || AcknowledgedByAny(rest, k);
    }
  }

  /** Acknowledgements commute and repeat harmlessly: only which headers arrived matters. */
  lemma AckOrderDoesNotMatter(t: Table, some: seq<Header>, others: seq<Header>)
    requires forall h :: h in some <==> h in others
    ensures AfterAcks(t, some) == AfterAcks(t, others)
  {
    AfterAcksIsDifference(t, some);
    AfterAcksIsDifference(t, others);
    assert forall k :: AcknowledgedByAny(some, k) <==> AcknowledgedByAny(others, k);
  }

  predicate Expired(p: Pending, now: real, limits: Limits) {
    now - p.sentTime > limits.resendTimeout
  }

  /** Some packet is overdue and has no retry left: the connection is to be dropped. */
  predicate Exhausted(t: Table, now: real, limits: Limits) {
    exists k :: k in t && Expired(t[k], now, limits) && t[k].retries >= limits.maxRetries
  }

  function Retried(p: Pending, now: real): Pending {
    p.(sentTime := now, retries := p.retries + 1)
  }

  /** The table after a pass that retransmits every overdue packet. */
  function Resent(t: Table, now: real, limits: Limits): Table {
    map k | k in t :: if Expired(t[k], now, limits) then Retried(t[k], now) else t[k]
  }
}
