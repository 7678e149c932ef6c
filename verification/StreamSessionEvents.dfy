/** What each event does to the stream sessions, whatever has happened before it. */
module StreamSessionEvents {
  import opened Options
  import opened Words
  import opened Messages
  import opened StreamSessions
  import opened StreamSessionTheorems

  ghost predicate SameQueues(s: Service, t: Service) {
    t.past.submitted == s.past.submitted && t.past.delivered == s.past.delivered && t.broadcasts == s.broadcasts
  }

  /** A new handler has a number of its own, waits for a client, and is in no group. */
  lemma CreateMakesAHandler(events: seq<Event>)
    requires !Run(events).undefined
    ensures var s, t := Run(events), Run(events + [Create]);
            && s.nextId !in s.live && s.nextId !in s.past.destroyed
            && t.live == s.live[s.nextId := Session(-1, [], false)] && t.nextId == s.nextId + 1
            && s.nextTag !in s.operations && t.operations == s.operations[s.nextTag := ConnectOp(s.nextId)]
            && t.groups == s.groups && SameQueues(s, t) && t.past == s.past && !t.undefined
  {
    OneMore(events, Create);
    SoundAlways(events);
  }

  /** A completion that failed, of a connect or a write, deletes the session of the operation and does nothing else. */
  lemma FailedCompletionDeletes(events: seq<Event>, tag: nat, g: int32)
    requires !Run(events).undefined && tag in Run(events).operations
    ensures var s, t := Run(events), Run(events + [Complete(tag, false, g)]);
            var id := s.operations[tag].session;
            && id in s.live && t.live == s.live - {id} && t.past.destroyed == s.past.destroyed + [id]
            && t.operations == s.operations - {tag} && t.nextId == s.nextId
            && t.past.joined == s.past.joined && SameQueues(s, t) && !t.undefined
            && (forall h, other ::
                  other in Members(t.groups, h) <==> other in Members(s.groups, h) && (other != id || h == -1))
  {
    OneMore(events, Complete(tag, false, g));
    SoundAlways(events);
    var s := Run(events);
    TakeGivesDue(s, tag);
    FailureLeavesGroups(s, tag, g);
  }

  lemma FailureLeavesGroups(s: Service, tag: nat, g: int32)
    requires Listing(s) && Matched(s, 0) && !s.undefined && tag in s.operations
    ensures var t, id := Next(s, Complete(tag, false, g)), s.operations[tag].session;
            forall h, other ::
              other in Members(t.groups, h) <==> other in Members(s.groups, h) && (other != id || h == -1)
  {
    var t, id := Next(s, Complete(tag, false, g)), s.operations[tag].session;
    forall h, other
      ensures other in Members(t.groups, h) <==> other in Members(s.groups, h) && (other != id || h == -1)
    {
      assert other in Members(s.groups, h) <==>
               other in s.past.joined && s.past.joined[other] == h && (other in s.live || h == -1);
    }
  }

  /** A client that has connected is in the group it asked for and no other; a handler waits for the next client. */
  lemma ConnectJoinsTheGroup(events: seq<Event>, tag: nat, g: int32)
    requires !Run(events).undefined && tag in Run(events).operations && Run(events).operations[tag].ConnectOp?
    ensures var s, t := Run(events), Run(events + [Complete(tag, true, g)]);
            var id := s.operations[tag].session;
            && id in s.live && id !in s.past.joined
            && t.live == s.live[id := Session(g, [], false)][s.nextId := Session(-1, [], false)]
            && t.nextId == s.nextId + 1 && s.nextId !in s.live
            && t.operations == (s.operations - {tag})[s.nextTag := ConnectOp(s.nextId)]
            && t.past.joined == s.past.joined[id := g] && t.past.destroyed == s.past.destroyed
            && SameQueues(s, t) && !t.undefined
            && (forall h, other ::
                  other in Members(t.groups, h) <==> other in Members(s.groups, h) || (other == id && h == g))
  {
    OneMore(events, Complete(tag, true, g));
    ConnectIsDue(events, tag);
    ConnectEffect(Run(events), tag, g, Run(events).operations[tag].session);
  }

  lemma ConnectIsDue(events: seq<Event>, tag: nat)
    requires tag in Run(events).operations && Run(events).operations[tag].ConnectOp?
    ensures var s := Run(events);
            var id := s.operations[tag].session;
            id in s.live && id !in s.past.joined && s.live[id] == Session(-1, [], false) && s.nextId !in s.live
  {
    SoundAlways(events);
    var s := Run(events);
    assert Expected(s, s.operations[tag].session) == Some(s.operations[tag]);
  }

  lemma ConnectEffect(s: Service, tag: nat, g: int32, id: nat)
    requires !s.undefined && tag in s.operations && s.operations[tag] == ConnectOp(id)
    requires id in s.live && s.live[id] == Session(-1, [], false) && s.nextId !in s.live
    ensures var t := Next(s, Complete(tag, true, g));
            && t.live == s.live[id := Session(g, [], false)][s.nextId := Session(-1, [], false)]
            && t.nextId == s.nextId + 1
            && t.operations == (s.operations - {tag})[s.nextTag := ConnectOp(s.nextId)]
            && t.past.joined == s.past.joined[id := g] && t.past.destroyed == s.past.destroyed
            && SameQueues(s, t) && !t.undefined
            && (forall h, other ::
                  other in Members(t.groups, h) <==> other in Members(s.groups, h) || (other == id && h == g))
  {
    var t := Next(s, Complete(tag, true, g));
    assert t.live == s.live[id := Session(g, [], false)][s.nextId := Session(-1, [], false)];
  }

  /** A write that has completed takes the front off the queue and starts the next message, if there is one. */
  lemma WriteTakesTheFront(events: seq<Event>, tag: nat, g: int32)
    requires !Run(events).undefined && tag in Run(events).operations && Run(events).operations[tag].WriteOp?
    ensures var s, t := Run(events), Run(events + [Complete(tag, true, g)]);
            var id, m := s.operations[tag].session, s.operations[tag].message;
            && id in s.live && s.live[id].outgoing != [] && s.live[id].outgoing[0] == m
            && (var rest := s.live[id].outgoing[1..];
                && t.live == s.live[id := Session(s.live[id].group, rest, rest != [])]
                && t.operations == if rest == [] then s.operations - {tag}
                                   else (s.operations - {tag})[s.nextTag := WriteOp(id, rest[0])])
            && Of(t.past.delivered, id) == Of(s.past.delivered, id) + [m]
            && t.past.submitted == s.past.submitted && t.past.joined == s.past.joined
            && t.past.destroyed == s.past.destroyed && t.groups == s.groups && t.broadcasts == s.broadcasts
            && t.nextId == s.nextId && !t.undefined
  {
    OneMore(events, Complete(tag, true, g));
    SoundAlways(events);
    var s := Run(events);
    TakeGivesDue(s, tag);
    var id := s.operations[tag].session;
    assert Expected(s, id) == Some(s.operations[tag]);
    if |s.live[id].outgoing| > 1 {
      assert s.live[id].outgoing[1..][0] == s.live[id].outgoing[1];
    }
  }

  /** A broadcast begins with the packet it was given and a snapshot of its group; it has written to nobody yet. */
  lemma BeginTakesASnapshot(events: seq<Event>, g: int32, p: Packet)
    requires !Run(events).undefined
    ensures var s, t := Run(events), Run(events + [Begin(g, p)]);
            var members := Members(s.groups, g);
            && t.broadcasts == s.broadcasts + [Broadcast(g, p, members, members)]
            && t == s.(broadcasts := t.broadcasts)
  {
    OneMore(events, Begin(g, p));
  }

  /** A broadcast's turn at a live session queues a response that holds the packet, and starts it on an idle one. */
  lemma WriteQueuesThePacket(events: seq<Event>, b: nat, id: nat)
    requires !Run(events).undefined && b < |Run(events).broadcasts| && id in Run(events).broadcasts[b].waiting
    requires id in Run(events).live
    ensures var s, t := Run(events), Run(events + [WriteTo(b, id)]);
            var x, m := s.live[id], SyncResponse(Some(s.broadcasts[b].packet));
            && t.live == s.live[id := Session(x.group, x.outgoing + [m], true)]
            && t.operations == (if x.outgoing == [] then s.operations[s.nextTag := WriteOp(id, m)] else s.operations)
            && Of(t.past.submitted, id) == Of(s.past.submitted, id) + [Submission(b, m)]
            && (forall other :: other != id ==> Of(t.past.submitted, other) == Of(s.past.submitted, other))
            && t.past.delivered == s.past.delivered && t.past.joined == s.past.joined
            && t.past.destroyed == s.past.destroyed && t.groups == s.groups && t.nextId == s.nextId && !t.undefined
            && |t.broadcasts| == |s.broadcasts| && t.broadcasts[b].waiting == s.broadcasts[b].waiting - {id}
  {
    OneMore(events, WriteTo(b, id));
    SoundAlways(events);
    var s := Run(events);
    assert Flags(s);
    assert (s.live[id].outgoing + [ResponseTo(s.broadcasts[b].packet)])[0] ==
           if s.live[id].outgoing == [] then ResponseTo(s.broadcasts[b].packet) else s.live[id].outgoing[0];
  }

  /** What a session is sent parses to the packet of the broadcast. */
  lemma ResponseCarriesThePacket(p: Packet)
    ensures ParseResponse(EncodeResponse(ResponseTo(p))) == Some(SyncResponse(Some(p)))
  {
    ResponseLaws(ResponseTo(p), DEFAULT_RESPONSE);
  }

  /** Every message a session was ever handed by broadcast `b` holds the packet that broadcast was begun with. */
  lemma BroadcastCarriesItsPacket(events: seq<Event>, b: nat, id: nat) returns (i: nat)
    requires b < |Run(events).broadcasts|
    ensures Began(events, i, b)
    ensures forall m :: m in Of(Run(events).past.submitted, id) && m.broadcast == b ==>
              m.message == SyncResponse(Some(events[i].packet))
  {
    i := BroadcastBegan(events, b);
    BroadcastReachesEachOnce(events, b, id);
  }
}
