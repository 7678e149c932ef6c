/** What holds of the stream sessions on every run, and exactly when a deleted session is used. */
module StreamSessionTheorems {
  import opened Options
  import opened Words
  import opened Messages
  import opened StreamSessions

  // Queues

  /** Messages leave a session in the order they were submitted, none skipped and none repeated. */
  lemma DeliveredInOrder(events: seq<Event>, id: nat)
    ensures var s := Run(events);
            var submitted, delivered := MessagesOf(Of(s.past.submitted, id)), Of(s.past.delivered, id);
            delivered <= submitted && (id in s.live ==> submitted == delivered + s.live[id].outgoing)
  {
    SoundAlways(events);
    assert FifoAt(Run(events), id);
  }

  /** A session is writing exactly while its queue is not empty, and then one write is outstanding, of the front. */
  lemma OneWriteInFlight(events: seq<Event>, id: nat)
    requires id in Run(events).live
    ensures var s := Run(events);
            && (s.live[id].writing <==> s.live[id].outgoing != [])
            && (s.live[id].writing <==> exists m :: Pending(s, WriteOp(id, m)))
            && (forall m :: Pending(s, WriteOp(id, m)) ==> s.live[id].outgoing != [] && m == s.live[id].outgoing[0])
  {
    SoundAlways(events);
    var s := Run(events);
    if s.live[id].writing {
      assert Expected(s, id).value == WriteOp(id, s.live[id].outgoing[0]);
    }
  }

  /**
   A session has at most one operation outstanding, connect or write, and no operation refers to a deleted
   session.
   */
  lemma OneOperationEach(events: seq<Event>, t: nat, u: nat)
    requires var s := Run(events); t in s.operations && u in s.operations
    ensures var s := Run(events);
            && (s.operations[t].session == s.operations[u].session ==> t == u)
            && s.operations[t].session !in s.past.destroyed
  {
    SoundAlways(events);
  }

  lemma DestroyedOnce(events: seq<Event>, i: nat, j: nat)
    requires i < j < |Run(events).past.destroyed|
    ensures var s := Run(events); s.past.destroyed[i] != s.past.destroyed[j] && s.past.destroyed[i] !in s.live
  {
    SoundAlways(events);
  }

  // Broadcasts

  /**
   Every session gets the message of a broadcast once if the snapshot has it and its turn has come, and
   otherwise not at all.
   */
  lemma BroadcastReachesEachOnce(events: seq<Event>, b: nat, id: nat)
    requires b < |Run(events).broadcasts|
    ensures var s := Run(events);
            var subs, c := Of(s.past.submitted, id), s.broadcasts[b];
            && (Got(subs, b) <==> id in c.members && id !in c.waiting)
            && (forall i, j :: 0 <= i < |subs| && 0 <= j < |subs| && subs[i].broadcast == b == subs[j].broadcast ==>
                i == j)
            && (forall i :: 0 <= i < |subs| && subs[i].broadcast == b ==>
                  subs[i].message == SyncResponse(Some(c.packet)))
            && (id in c.members ==> id in s.past.joined && s.past.joined[id] == c.group)
  {
    SoundAlways(events);
    assert OnceAt(Run(events), id);
    assert forall i :: 0 <= i < |Of(Run(events).past.submitted, id)| ==>
           FromBroadcast(Run(events), Of(Run(events).past.submitted, id)[i]);
  }

  function WriteAll(s: Service, b: nat, order: seq<nat>): Service
    decreases order
  {
    if order == [] then s else WriteAll(Next(s, WriteTo(b, order[0])), b, order[1..])
  }

  /** A broadcast that nothing interrupts. */
  function BroadcastToGroup(s: Service, g: int32, p: Packet, order: seq<nat>): Service {
    WriteAll(BeginBroadcast(s, g, p), |s.broadcasts|, order)
  }

  ghost predicate Lists(order: seq<nat>, members: set<nat>) {
    && (forall id :: id in order <==> id in members)
    && (forall i, j :: 0 <= i < j < |order| ==> order[i] != order[j])
  }

  /** A session that connected with group -1 and is gone; its destructor left it registered. */
  ghost predicate Orphan(s: Service, id: nat) {
    id in s.past.destroyed && id in s.past.joined && s.past.joined[id] == -1
  }

  lemma UndefinedStays(s: Service, b: nat, order: seq<nat>)
    requires s.undefined
    ensures WriteAll(s, b, order) == s
    decreases order
  {
  }

  lemma {:induction false} WriteAllExact(s: Service, b: nat, order: seq<nat>)
    requires !s.undefined && b < |s.broadcasts| && Lists(order, s.broadcasts[b].waiting)
    ensures var t := WriteAll(s, b, order);
            && (t.undefined <==> exists id :: id in order && id !in s.live)
            && (!t.undefined ==>
                  && t.live.Keys == s.live.Keys && t.groups == s.groups
                  && (forall id :: id in s.live ==>
                        t.live[id] == if id in order then Queued(s.live[id], ResponseTo(s.broadcasts[b].packet))
                          else s.live[id]))
    decreases order
  {
    if order != [] {
      var id, rest := order[0], order[1..];
      var u := Next(s, WriteTo(b, id));
      assert id in s.broadcasts[b].waiting;
      if id !in s.live {
        UndefinedStays(u, b, rest);
      } else {
        assert u.broadcasts[b].waiting == s.broadcasts[b].waiting - {id};
        assert Lists(rest, u.broadcasts[b].waiting);
        WriteAllExact(u, b, rest);
        assert forall other :: other in order <==> other == id || other in rest;
      }
    }
  }

  /**
   Uninterrupted, every live session of the group queues the message once and no other session changes; the
   exception is exact.
   */
  lemma BroadcastExact(events: seq<Event>, g: int32, p: Packet, order: seq<nat>)
    requires !Run(events).undefined && Lists(order, Members(Run(events).groups, g))
    ensures var s := Run(events);
            var t := BroadcastToGroup(s, g, p, order);
            && (t.undefined <==> g == -1 && exists id :: Orphan(s, id))
            && (!t.undefined ==>
                  && t.live.Keys == s.live.Keys && t.groups == s.groups
                  && (forall id :: id in s.live ==>
                        t.live[id] == if id in s.past.joined && s.past.joined[id] == g
                                      then Session(g, s.live[id].outgoing + [SyncResponse(Some(p))], true)
                                      else s.live[id]))
  {
    SoundAlways(events);
    var s := Run(events);
    WriteAllExact(BeginBroadcast(s, g, p), |s.broadcasts|, order);
    forall id ensures id in order && id !in s.live <==> g == -1 && Orphan(s, id) {
      assert id in order <==> id in Members(s.groups, g);
    }
  }

  // Lifetimes

  /**
   The group table lists a session under the group it connected with while it lives; only under -1 does it
   outlive it.
   */
  lemma ListedExactlyWhen(events: seq<Event>, g: int32, id: nat)
    ensures var s := Run(events);
            id in Members(s.groups, g) <==>
              (id in s.live && id in s.past.joined && s.past.joined[id] == g) || (g == -1 && Orphan(s, id))
  {
    SoundAlways(events);
  }

  ghost predicate UsesDeleted(s: Service, ev: Event) {
    ev.WriteTo? && ev.broadcast < |s.broadcasts| && ev.session in s.broadcasts[ev.broadcast].waiting
      && ev.session in s.past.destroyed
  }

  ghost predicate SomeUse(events: seq<Event>) {
    exists j :: 0 <= j < |events| && UsesDeleted(Run(events[..j]), events[j])
  }

  lemma SomeUseGrows(before: seq<Event>, ev: Event)
    ensures SomeUse(before + [ev]) <==> SomeUse(before) || UsesDeleted(Run(before), ev)
  {
    var events, n := before + [ev], |before|;
    assert events[..n] == before && events[n] == ev;
    assert forall j :: 0 <= j < n ==> before[..j] == events[..j] && before[j] == events[j];
    if SomeUse(before) {
      var j :| 0 <= j < n && UsesDeleted(Run(before[..j]), before[j]);
      assert UsesDeleted(Run(events[..j]), events[j]);
    }
  }

  lemma {:induction false} UndefinedByUse(events: seq<Event>)
    ensures Run(events).undefined <==> SomeUse(events)
  {
    if events != [] {
      var before, ev := events[..|events| - 1], events[|events| - 1];
      UndefinedByUse(before);
      SoundAlways(before);
      UndefinedByOneStep(Run(before), ev);
      SomeUseGrows(before, ev);
      assert before + [ev] == events;
    }
  }

  lemma BroadcastKeepsSnapshot(s: Service, ev: Event, b: nat)
    requires b < |s.broadcasts|
    ensures var t := Next(s, ev);
            && b < |t.broadcasts| && t.broadcasts[b].group == s.broadcasts[b].group
            && t.broadcasts[b].packet == s.broadcasts[b].packet && t.broadcasts[b].members == s.broadcasts[b].members
  {
  }

  ghost predicate Began(events: seq<Event>, i: nat, b: nat) {
    && i < |events| && events[i].Begin? && !Run(events[..i]).undefined && |Run(events[..i]).broadcasts| == b
  }

  /** When a broadcast began, and that its snapshot is the group of that moment. */
  lemma {:induction false} BroadcastBegan(events: seq<Event>, b: nat) returns (i: nat)
    requires b < |Run(events).broadcasts|
    ensures Began(events, i, b) && Run(events).broadcasts[b].group == events[i].group
    ensures Run(events).broadcasts[b].packet == events[i].packet
    ensures Run(events).broadcasts[b].members == Members(Run(events[..i]).groups, events[i].group)
  {
    var n := |events| - 1;
    var before := events[..n];
    if b < |Run(before).broadcasts| {
      i := BroadcastBegan(before, b);
      BroadcastKeepsSnapshot(Run(before), events[n], b);
      assert events[..i] == before[..i];
    } else {
      i := n;
    }
  }

  /**
   Event `j` writes to a session that is deleted: it was alive when the
   broadcast began, or the broadcast is to -1 and it had been left behind there.
   */
  ghost predicate UsesStale(events: seq<Event>, j: nat) {
    && j < |events| && UsesDeleted(Run(events[..j]), events[j])
    && exists i :: StaleSince(events, i, j)
  }

  ghost predicate StaleSince(events: seq<Event>, i: nat, j: nat)
    requires j < |events| && events[j].WriteTo?
  {
    && i < j && Began(events, i, events[j].broadcast)
    && (events[j].session in Run(events[..i]).live
        || (events[i].group == -1 && Orphan(Run(events[..i]), events[j].session)))
  }

  lemma UseIsStale(events: seq<Event>, j: nat)
    requires j < |events| && UsesDeleted(Run(events[..j]), events[j])
    ensures UsesStale(events, j)
  {
    var before, id := events[..j], events[j].session;
    var i := BroadcastBegan(before, events[j].broadcast);
    assert before[..i] == events[..i];
    SoundAlways(before);
    ListedExactlyWhen(events[..i], events[i].group, id);
    assert StaleSince(events, i, j);
  }

  /**
   Nothing is undefined but a broadcast that reaches a session deleted since it
   began or left behind under -1 before: never a completion, never an empty queue.
   */
  lemma UndefinedExactlyWhen(events: seq<Event>)
    ensures Run(events).undefined <==> exists j :: UsesStale(events, j)
  {
    UndefinedByUse(events);
    if SomeUse(events) {
      var j :| 0 <= j < |events| && UsesDeleted(Run(events[..j]), events[j]);
      UseIsStale(events, j);
    }
  }

  lemma UndefinedByOneStep(s: Service, ev: Event)
    requires Sound(s)
    ensures Next(s, ev).undefined <==> s.undefined || UsesDeleted(s, ev)
  {
    match ev
    case Complete(tag, ok, g) =>
      if !s.undefined && tag in s.operations {
        TakeGivesDue(s, tag);
        ProceedKeeps(Take(s, tag), s.operations[tag], ok, g);
      }
    case _ =>
  }

  /** The session a failed completion is about to delete is in no snapshot under way and did not connect with -1. */
  ghost predicate Careful(s: Service, ev: Event) {
    ev.Complete? && !ev.ok && ev.tag in s.operations ==>
      var id := s.operations[ev.tag].session;
      && (id in s.past.joined ==> s.past.joined[id] != -1)
      && (forall b :: 0 <= b < |s.broadcasts| ==> id !in s.broadcasts[b].waiting)
  }

  /** Everyone a broadcast has still to write to, or could reach through the group table, is alive. */
  ghost predicate AllReachableLive(s: Service) {
    && (forall b, id :: 0 <= b < |s.broadcasts| && id in s.broadcasts[b].waiting ==> id in s.live)
    && (forall g, id :: id in Members(s.groups, g) ==> id in s.live)
  }

  /** Only a failed completion takes a session away, and only its own. */
  lemma LiveStays(s: Service, ev: Event, id: nat)
    requires !s.undefined && id in s.live
    requires ev.Complete? && !ev.ok && ev.tag in s.operations ==> s.operations[ev.tag].session != id
    ensures id in Next(s, ev).live
  {
  }

  lemma WaitingLive(s: Service, ev: Event)
    requires Sound(s) && !s.undefined && AllReachableLive(s) && Careful(s, ev)
    ensures var t := Next(s, ev); forall b, id :: 0 <= b < |t.broadcasts| && id in t.broadcasts[b].waiting ==>
              id in t.live
  {
    var t := Next(s, ev);
    forall b, id | 0 <= b < |t.broadcasts| && id in t.broadcasts[b].waiting ensures id in t.live {
      if b < |s.broadcasts| {
        assert id in s.broadcasts[b].waiting;
        LiveStays(s, ev, id);
      } else {
        assert id in Members(s.groups, ev.group);
      }
    }
  }

  lemma NoNewOrphan(s: Service, ev: Event, id: nat)
    requires Listing(s) && Lifetimes(s) && Matched(s, 0) && !s.undefined && Careful(s, ev) && !Orphan(s, id)
    ensures !Orphan(Next(s, ev), id)
  {
  }

  lemma MembersLive(s: Service)
    requires Sound(s)
    ensures (forall g, id :: id in Members(s.groups, g) ==> id in s.live) <==> forall id :: !Orphan(s, id)
  {
    forall id ensures Orphan(s, id) <==> id in Members(s.groups, -1) && id !in s.live {
    }
    forall g, id | id in Members(s.groups, g) && id !in s.live ensures g == -1 {
    }
  }

  lemma CarefulStep(s: Service, ev: Event)
    requires Sound(s) && !s.undefined && AllReachableLive(s) && Careful(s, ev)
    ensures AllReachableLive(Next(s, ev)) && !Next(s, ev).undefined
  {
    UndefinedByOneStep(s, ev);
    WaitingLive(s, ev);
    MembersLive(s);
    forall id ensures !Orphan(Next(s, ev), id) {
      NoNewOrphan(s, ev, id);
    }
    NextSound(s, ev);
    MembersLive(Next(s, ev));
  }

  /**
   With destruction atomic relative to broadcasts and no use of -1 as a group, no deleted session is ever
   reachable.
   */
  lemma {:induction false} CarefulRunsAreDefined(events: seq<Event>)
    requires forall j :: 0 <= j < |events| ==> Careful(Run(events[..j]), events[j])
    ensures !Run(events).undefined && AllReachableLive(Run(events))
  {
    if events != [] {
      var n := |events| - 1;
      var before := events[..n];
      assert forall j :: 0 <= j < n ==> before[..j] == events[..j] && before[j] == events[j];
      CarefulRunsAreDefined(before);
      SoundAlways(before);
      assert events[..n] == before && Careful(Run(events[..n]), events[n]);
      CarefulStep(Run(before), events[n]);
    }
  }

  /** `t` is `s` after `k` writes of session `id` have completed. */
  ghost predicate Progressed(s: Service, t: Service, id: nat, k: nat)
    requires id in s.live && k <= |s.live[id].outgoing|
  {
    && Sound(t) && !t.undefined && id in t.live && id in t.past.joined
    && t.live[id].outgoing == s.live[id].outgoing[k..]
    && Of(t.past.submitted, id) == Of(s.past.submitted, id)
  }

  lemma {:induction false} Progress(s: Service, id: nat, k: nat) returns (events: seq<Event>)
    requires Sound(s) && !s.undefined && id in s.live && id in s.past.joined && k <= |s.live[id].outgoing|
    ensures |events| == k && forall ev :: ev in events ==> ev.Complete? && ev.ok
    ensures Progressed(s, After(s, events), id, k)
  {
    if k == 0 {
      events := [];
    } else {
      var before := Progress(s, id, k - 1);
      var tag := OneWriteCompletes(After(s, before), id);
      NextSound(After(s, before), Complete(tag, true, 0));
      events := before + [Complete(tag, true, 0)];
      assert events[..|events| - 1] == before;
    }
  }

  /** As many successful completions as a session has messages queued deliver all that was submitted to it. */
  lemma Drains(s: Service, id: nat) returns (events: seq<Event>)
    requires Sound(s) && !s.undefined && id in s.live && id in s.past.joined
    ensures |events| == |s.live[id].outgoing| && forall ev :: ev in events ==> ev.Complete? && ev.ok
    ensures var t := After(s, events);
            && !t.undefined && id in t.live && !t.live[id].writing
            && Of(t.past.delivered, id) == MessagesOf(Of(s.past.submitted, id))
  {
    events := Progress(s, id, |s.live[id].outgoing|);
    AllDelivered(After(s, events), id);
  }

  lemma OneWriteCompletes(s: Service, id: nat) returns (tag: nat)
    requires Answered(s, 0) && !s.undefined && id in s.live && id != 0 && id in s.past.joined
             && s.live[id].outgoing != []
    ensures var t := Next(s, Complete(tag, true, 0));
            && !t.undefined && id in t.live && id in t.past.joined
            && t.live[id].outgoing == s.live[id].outgoing[1..]
            && Of(t.past.submitted, id) == Of(s.past.submitted, id)
  {
    assert Pending(s, Expected(s, id).value);
    tag :| tag in s.operations && s.operations[tag] == Expected(s, id).value;
  }

  lemma AllDelivered(s: Service, id: nat)
    requires Sound(s) && id in s.live
    ensures s.live[id].outgoing == [] ==>
              Of(s.past.delivered, id) == MessagesOf(Of(s.past.submitted, id)) && !s.live[id].writing
  {
    assert FifoAt(s, id);
  }

  lemma OneMore(before: seq<Event>, ev: Event)
    ensures Run(before + [ev]) == Next(Run(before), ev)
  {
  }

  /** A client that asked for -1 received a message and went away. */
  lemma OrphanOfOneClient(p: Packet) returns (events: seq<Event>)
    ensures !Run(events).undefined && |Run(events).broadcasts| == 1 && Run(events).broadcasts[0].waiting == {}
    ensures Run(events).operations.Values == {ConnectOp(2)}
    ensures Members(Run(events).groups, -1) == {1} && 1 !in Run(events).live
  {
    var e1 := [Create];
    OneMore([], Create);
    var e2 := e1 + [Complete(0, true, -1)];
    OneMore(e1, Complete(0, true, -1));
    var e3 := e2 + [Begin(-1, p)];
    OneMore(e2, Begin(-1, p));
    var e4 := e3 + [WriteTo(0, 1)];
    OneMore(e3, WriteTo(0, 1));
    events := e4 + [Complete(2, false, 0)];
    OneMore(e4, Complete(2, false, 0));
  }

  /** The next broadcast to -1 then uses the deleted session, though no two broadcasts or completions overlapped. */
  lemma GroupMinusOneIsUnsafe(p: Packet) returns (events: seq<Event>)
    ensures !Run(events).undefined && Run(events + [Begin(-1, p)] + [WriteTo(1, 1)]).undefined
  {
    events := OrphanOfOneClient(p);
    OneMore(events, Begin(-1, p));
    OneMore(events + [Begin(-1, p)], WriteTo(1, 1));
    assert 1 in Run(events + [Begin(-1, p)]).broadcasts[1].waiting;
  }
}
