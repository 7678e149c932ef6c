/** Sessions, groups and the session manager as objects that are changed in place. */
module StreamHandlers {
  import opened Options
  import opened Words
  import opened Messages
  import opened StreamSessions

  class StreamSession {
    const sessionId: nat
    var groupId: int32
    var outgoingMessages: seq<SyncResponse>
    var isWriting: bool

    function View(): Session
      reads this
    {
      Session(groupId, outgoingMessages, isWriting)
    }

    constructor (id: nat)
      ensures sessionId == id && View() == NewSession()
    {
      sessionId := id;
      groupId, outgoingMessages, isWriting := -1, [], false;
    }

    /** `started` is the message handed to the writer, if any. */
    method Write(packet: Packet) returns (started: Option<SyncResponse>)
      modifies this
      ensures View() == Queued(old(View()), ResponseTo(packet))
      ensures outgoingMessages == old(outgoingMessages) + [SyncResponse(Some(packet))]
      ensures isWriting && groupId == old(groupId) && (started.Some? <==> !old(isWriting))
      ensures started == StartedByWrite(old(View()), ResponseTo(packet))
    {
      outgoingMessages := outgoingMessages + [ResponseTo(packet)];
      started := None;
      if !isWriting {
        isWriting := true;
        started := Some(outgoingMessages[0]);
      }
    }

    method WriteCompleted() returns (started: Option<SyncResponse>)
      requires outgoingMessages != []
      modifies this
      ensures View() == Popped(old(View())) && started == StartedByCompletion(old(View()))
      ensures outgoingMessages == old(outgoingMessages)[1..] && groupId == old(groupId)
      ensures started == if outgoingMessages == [] then None else Some(outgoingMessages[0])
    {
      outgoingMessages := outgoingMessages[1..];
      started := None;
      if outgoingMessages != [] {
        started := Some(outgoingMessages[0]);
      } else {
        isWriting := false;
      }
    }

    /** The client's request has arrived: the session takes its group and is registered there. */
    method ConnectCompleted(manager: SessionManager, requested: int32)
      requires manager.Valid()
      modifies this, manager, manager.groups.Values
      ensures View() == old(View()).(group := requested)
      ensures manager.Valid() && manager.View() == Register(old(manager.View()), requested, sessionId)
      ensures manager.Finds(requested, sessionId) == this
    {
      groupId := requested;
      manager.RegisterSession(groupId, this);
    }

    /** What the destructor does to the group table. */
    method Dispose(manager: SessionManager)
      requires manager.Valid()
      modifies manager, manager.groups.Values
      ensures manager.Valid()
      ensures manager.View() == if groupId == -1 then old(manager.View())
              else Unregister(old(manager.View()), groupId, sessionId)
    {
      if groupId != -1 {
        manager.UnregisterSession(groupId, sessionId);
      }
    }
  }

  class Group {
    var sessions: map<nat, StreamSession>

    predicate Valid()
      reads this
    {
      forall id :: id in sessions ==> sessions[id].sessionId == id
    }

    constructor ()
      ensures Valid() && sessions == map[]
    {
      sessions := map[];
    }

    method AddSession(session: StreamSession?)
      requires Valid()
      modifies this
      ensures Valid() && sessions == if session == null then old(sessions)
              else old(sessions)[session.sessionId := session]
    {
      if session != null {
        sessions := sessions[session.sessionId := session];
      }
    }

    method RemoveSession(id: nat)
      requires Valid()
      modifies this
      ensures Valid() && sessions == old(sessions) - {id} && sessions.Keys == old(sessions).Keys - {id}
    {
      sessions := sessions - {id};
    }

    /** Writes to every session of the snapshot; `started` lists the writes that began. */
    method Broadcast(packet: Packet) returns (started: seq<Operation>)
      requires Valid()
      modifies sessions.Values
      ensures forall id :: id in sessions ==>
                sessions[id].View() == Queued(old(sessions[id].View()), ResponseTo(packet))
      ensures forall id :: id in sessions ==>
                sessions[id].outgoingMessages == old(sessions[id].outgoingMessages) + [SyncResponse(Some(packet))]
      ensures forall op :: op in started <==>
                op.WriteOp? && op.session in sessions
                && StartedByWrite(old(sessions[op.session].View()), ResponseTo(packet)) == Some(op.message)
      ensures forall i, j :: 0 <= i < j < |started| ==> started[i].session != started[j].session
    {
      var waiting := sessions.Keys;
      started := [];
      while waiting != {}
        invariant waiting <= sessions.Keys
        invariant forall id :: id in sessions ==>
                    sessions[id].View() == if id in waiting then old(sessions[id].View())
                      else Queued(old(sessions[id].View()), ResponseTo(packet))
        invariant forall op :: op in started <==>
                    op.WriteOp? && op.session in sessions && op.session !in waiting
                    && StartedByWrite(old(sessions[op.session].View()), ResponseTo(packet)) == Some(op.message)
        invariant forall i, j :: 0 <= i < j < |started| ==> started[i].session != started[j].session
        decreases waiting
      {
        var id :| id in waiting;
        var session := sessions[id];
        var m := session.Write(packet);
        waiting := waiting - {id};
        if m.Some? {
          assert forall i :: 0 <= i < |started| ==> started[i] in started;
          started := started + [WriteOp(id, m.value)];
        }
      }
    }
  }

  class SessionManager {
    var groups: map<int32, Group>

    predicate Valid()
      reads this, groups.Values
    {
      && (forall g :: g in groups ==> groups[g].Valid())
      && (forall g, h :: g in groups && h in groups && groups[g] == groups[h] ==> g == h)
    }

    function View(): map<int32, set<nat>>
      reads this, groups.Values
    {
      map g | g in groups :: groups[g].sessions.Keys
    }

    /** The session registered under a group and a number. */
    function Finds(g: int32, id: nat): StreamSession?
      reads this, groups.Values
    {
      if g in groups && id in groups[g].sessions then groups[g].sessions[id] else null
    }

    constructor ()
      ensures Valid() && View() == map[]
    {
      groups := map[];
    }

    method GetOrCreateGroup(g: int32) returns (group: Group)
      requires Valid()
      modifies this
      ensures Valid() && g in groups && groups[g] == group
      ensures g in old(groups) ==> groups == old(groups)
      ensures g !in old(groups) ==> fresh(group) && groups == old(groups)[g := group] && group.sessions == map[]
    {
      if g !in groups {
        group := new Group();
        groups := groups[g := group];
      } else {
        group := groups[g];
      }
    }

    twostate lemma OnlyGroupChanged(g: int32)
      requires g in groups && groups.Keys == old(groups).Keys + {g}
      requires forall h :: h in groups && h != g ==>
                 h in old(groups) && groups[h] == old(groups[h]) && groups[h].sessions == old(groups[h].sessions)
      ensures View() == old(View())[g := groups[g].sessions.Keys]
    {
    }

    method RegisterSession(g: int32, session: StreamSession?)
      requires Valid()
      modifies this, groups.Values
      ensures Valid()
      ensures View() == if session == null then old(View()) else Register(old(View()), g, session.sessionId)
      ensures session != null ==> Finds(g, session.sessionId) == session
    {
      if session != null {
        var group := GetOrCreateGroup(g);
        group.AddSession(session);
        OnlyGroupChanged(g);
        assert groups[g].sessions.Keys == Members(old(View()), g) + {session.sessionId};
      }
    }

    method UnregisterSession(g: int32, id: nat)
      requires Valid()
      modifies this, groups.Values
      ensures Valid() && View() == Unregister(old(View()), g, id)
    {
      var group := GetOrCreateGroup(g);
      group.RemoveSession(id);
      OnlyGroupChanged(g);
      assert groups[g].sessions.Keys == Members(old(View()), g) - {id};
    }

    /** Who is registered under the group gets the message, once; nobody else is touched. */
    method BroadcastToGroup(g: int32, packet: Packet) returns (started: seq<Operation>)
      requires Valid()
      modifies if g in groups then groups[g].sessions.Values else {}
      ensures Valid() && View() == old(View())
      ensures forall id :: id in Members(View(), g) ==>
                Finds(g, id) != null && Finds(g, id).View() == Queued(old(Finds(g, id).View()), ResponseTo(packet))
      ensures forall id :: id in Members(View(), g) ==>
                Finds(g, id).outgoingMessages == old(Finds(g, id).outgoingMessages) + [SyncResponse(Some(packet))]
      ensures forall op :: op in started <==>
                op.WriteOp? && op.session in Members(View(), g)
                && StartedByWrite(old(Finds(g, op.session).View()), ResponseTo(packet)) == Some(op.message)
    {
      started := [];
      if g in groups {
        started := groups[g].Broadcast(packet);
      }
    }
  }
}
