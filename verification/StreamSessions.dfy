/**
 The stream sessions of the RPC service as one state machine: worker threads
 finish operations, broadcasts take a snapshot of a group and then write to its
 members one at a time, and any of these may come between any others.
 */
module StreamSessions {
  import opened Options
  import opened Words
  import opened Wire
  import opened Messages

  /** A handler's fields; GroupId is -1 until its client has connected. */
  datatype Session = Session(group: int32, outgoing: seq<SyncResponse>, writing: bool)

  /** What the completion queue still owes an answer to; a write carries the message it was started with. */
  datatype Operation = ConnectOp(session: nat) | WriteOp(session: nat, message: SyncResponse)

  /** A broadcast under way: the snapshot of its group and who of it has not been written to yet. */
  datatype Broadcast = Broadcast(group: int32, packet: Packet, members: set<nat>, waiting: set<nat>)

  datatype Submission = Submission(broadcast: nat, message: SyncResponse)

  /** What has happened; no step reads it. */
  datatype History = History(
    joined: map<nat, int32>,
    destroyed: seq<nat>,
    submitted: map<nat, seq<Submission>>,
    delivered: map<nat, seq<SyncResponse>>)

  /** `undefined` is raised when a session is used after it was deleted, or an empty queue is popped. */
  datatype Service = Service(
    nextId: nat,
    live: map<nat, Session>,
    groups: map<int32, set<nat>>,
    operations: map<nat, Operation>,
    nextTag: nat,
    broadcasts: seq<Broadcast>,
    undefined: bool,
    past: History)

  datatype Event =
    | Create
    | Complete(tag: nat, ok: bool, group: int32)
    | Begin(group: int32, packet: Packet)
    | WriteTo(broadcast: nat, session: nat)

  function Initial(): Service {
    Service(1, map[], map[], map[], 0, [], false, History(map[], [], map[], map[]))
  }

  function NewSession(): Session {
    Session(-1, [], false)
  }

  function ResponseTo(p: Packet): SyncResponse {
    SyncResponse(Some(p))
  }

  /** Write: the message is queued, and sent at once if nothing is being sent. */
  function Queued(x: Session, m: SyncResponse): Session {
    x.(outgoing := x.outgoing + [m], writing := true)
  }

  function StartedByWrite(x: Session, m: SyncResponse): Option<SyncResponse> {
    if x.writing then None else Some((x.outgoing + [m])[0])
  }

  /** A finished write: its message leaves the queue, and the next one is sent. */
  function Popped(x: Session): Session
    requires x.outgoing != []
  {
    x.(outgoing := x.outgoing[1..], writing := x.writing && |x.outgoing| > 1)
  }

  function StartedByCompletion(x: Session): Option<SyncResponse>
    requires x.outgoing != []
  {
    if |x.outgoing| > 1 then Some(x.outgoing[1]) else None
  }

  /** A new operation gets a tag of its own, as each is a new object. */
  function Start(s: Service, op: Operation): Service {
    s.(operations := s.operations[s.nextTag := op], nextTag := s.nextTag + 1)
  }

  function StartWrite(s: Service, id: nat, m: Option<SyncResponse>): Service {
    if m.Some? then Start(s, WriteOp(id, m.value)) else s
  }

  // Groups

  function Members(groups: map<int32, set<nat>>, g: int32): set<nat> {
    if g in groups then groups[g] else {}
  }

  function Register(groups: map<int32, set<nat>>, g: int32, id: nat): map<int32, set<nat>> {
    groups[g := Members(groups, g) + {id}]
  }

  function Unregister(groups: map<int32, set<nat>>, g: int32, id: nat): map<int32, set<nat>> {
    groups[g := Members(groups, g) - {id}]
  }

  // Steps

  function AddHandler(s: Service): Service {
    Start(s.(nextId := s.nextId + 1, live := s.live[s.nextId := NewSession()]), ConnectOp(s.nextId))
  }

  /** The destructor skips the group table when GroupId is -1. */
  function Destroy(s: Service, id: nat): Service
    requires id in s.live
  {
    var g := s.live[id].group;
    s.(live := s.live - {id},
       groups := if g == -1 then s.groups else Unregister(s.groups, g, id),
       past := s.past.(destroyed := s.past.destroyed + [id]))
  }

  function JoinGroup(s: Service, id: nat, g: int32): Service
    requires id in s.live
  {
    s.(live := s.live[id := s.live[id].(group := g)],
       groups := Register(s.groups, g, id),
       past := s.past.(joined := s.past.joined[id := g]))
  }

  /** The handler that will take the next client is made first. */
  function Connected(s: Service, id: nat, g: int32): Service
    requires id in s.live
  {
    JoinGroup(AddHandler(s), id, g)
  }

  function Written(s: Service, id: nat, m: SyncResponse): Service
    requires id in s.live
  {
    var x := s.live[id];
    if x.outgoing == [] then s.(undefined := true)
    else
      StartWrite(s.(live := s.live[id := Popped(x)],
                    past := s.past.(delivered := s.past.delivered[id := Of(s.past.delivered, id) + [m]])),
                 id, StartedByCompletion(x))
  }

  function Submitted(s: Service, id: nat, b: nat, m: SyncResponse): Service
    requires id in s.live
  {
    var x := s.live[id];
    StartWrite(s.(live := s.live[id := Queued(x, m)],
                  past := s.past.(submitted := s.past.submitted[id := Of(s.past.submitted, id) + [Submission(b, m)]])),
               id, StartedByWrite(x, m))
  }

  function Of<T>(m: map<nat, seq<T>>, id: nat): seq<T> {
    if id in m then m[id] else []
  }

  function Take(s: Service, tag: nat): Service {
    s.(operations := s.operations - {tag})
  }

  /** Proceed on an operation that has been taken off the queue. */
  function Proceed(s: Service, op: Operation, ok: bool, g: int32): Service {
    if op.session !in s.live then s.(undefined := true)
    else if !ok then Destroy(s, op.session)
    else match op
      case ConnectOp(id) => Connected(s, id, g)
      case WriteOp(id, m) => Written(s, id, m)
  }

  function BeginBroadcast(s: Service, g: int32, p: Packet): Service {
    s.(broadcasts := s.broadcasts + [Broadcast(g, p, Members(s.groups, g), Members(s.groups, g))])
  }

  function WriteNext(s: Service, b: nat, id: nat): Service
    requires b < |s.broadcasts|
  {
    var c := s.broadcasts[b];
    if id !in s.live then s.(undefined := true)
    else Submitted(s.(broadcasts := s.broadcasts[b := c.(waiting := c.waiting - {id})]), id, b, ResponseTo(c.packet))
  }

  /** Events that are not possible change nothing, and nothing is said of what follows an undefined use. */
  function Next(s: Service, ev: Event): Service {
    if s.undefined then s
    else match ev
      case Create => AddHandler(s)
      case Complete(tag, ok, g) => if tag in s.operations then Proceed(Take(s, tag), s.operations[tag], ok, g) else s
      case Begin(g, p) => BeginBroadcast(s, g, p)
      case WriteTo(b, id) => if b < |s.broadcasts| && id in s.broadcasts[b].waiting then WriteNext(s, b, id) else s
  }

  function After(s: Service, events: seq<Event>): Service {
    if events == [] then s else Next(After(s, events[..|events| - 1]), events[|events| - 1])
  }

  function Run(events: seq<Event>): Service {
    After(Initial(), events)
  }

  // Invariants

  /** Every number up to the last one given out is alive or was destroyed, and destroyed once. */
  ghost predicate Lifetimes(s: Service) {
    && s.nextId >= 1
    && (forall id :: id in s.live || id in s.past.destroyed <==> 1 <= id < s.nextId)
    && (forall id :: id in s.past.destroyed ==> id !in s.live)
    && (forall i, j :: 0 <= i < j < |s.past.destroyed| ==> s.past.destroyed[i] != s.past.destroyed[j])
  }

  /** A session is listed in the group it connected with while it lives, and in -1 for ever. */
  ghost predicate Listing(s: Service) {
    && (forall id :: id in s.past.joined ==> id in s.live || id in s.past.destroyed)
    && (forall id :: id in s.live ==> s.live[id].group == if id in s.past.joined then s.past.joined[id] else -1)
    && (forall g, id :: id in Members(s.groups, g) <==>
          id in s.past.joined && s.past.joined[id] == g && (id in s.live || g == -1))
  }

  /** What the queue and the connection state of a session call for. */
  function Expected(s: Service, id: nat): Option<Operation>
    requires id in s.live
  {
    if id !in s.past.joined then Some(ConnectOp(id))
    else if s.live[id].outgoing != [] then Some(WriteOp(id, s.live[id].outgoing[0]))
    else None
  }

  ghost predicate Pending(s: Service, op: Operation) {
    exists tag :: tag in s.operations && s.operations[tag] == op
  }

  ghost predicate Matched(s: Service, busy: nat) {
    forall tag :: tag in s.operations ==>
      && tag < s.nextTag
      && s.operations[tag].session in s.live
      && s.operations[tag].session != busy
      && Expected(s, s.operations[tag].session) == Some(s.operations[tag])
  }

  ghost predicate Unshared(s: Service) {
    forall t, u :: t in s.operations && u in s.operations && s.operations[t].session == s.operations[u].session ==>
           t == u
  }

  ghost predicate Answered(s: Service, busy: nat) {
    forall id :: id in s.live && id != busy && Expected(s, id).Some? ==> Pending(s, Expected(s, id).value)
  }

  /** The outstanding operations are exactly the expected ones, one for each session but `busy`, which has none. */
  ghost predicate OutstandingBut(s: Service, busy: nat) {
    Matched(s, busy) && Unshared(s) && Answered(s, busy)
  }

  /** No session has the number 0. */
  ghost predicate Outstanding(s: Service) {
    OutstandingBut(s, 0)
  }

  ghost predicate Flags(s: Service) {
    forall id :: id in s.live ==>
      && (s.live[id].writing <==> s.live[id].outgoing != [])
      && (id !in s.past.joined ==> s.live[id].outgoing == [])
  }

  function MessagesOf(subs: seq<Submission>): seq<SyncResponse> {
    seq(|subs|, i requires 0 <= i < |subs| => subs[i].message)
  }

  /** What was submitted is what was delivered followed by the queue; a deleted session's queue is lost. */
  ghost predicate FifoAt(s: Service, id: nat) {
    var submitted, delivered := MessagesOf(Of(s.past.submitted, id)), Of(s.past.delivered, id);
    if id in s.live then submitted == delivered + s.live[id].outgoing else delivered <= submitted
  }

  ghost predicate Fifo(s: Service) {
    && (forall id :: FifoAt(s, id))
    && (forall id :: id in s.past.submitted || id in s.past.delivered ==> 1 <= id < s.nextId)
  }

  ghost predicate Snapshots(s: Service) {
    forall b :: 0 <= b < |s.broadcasts| ==>
      && s.broadcasts[b].waiting <= s.broadcasts[b].members
      && (forall id :: id in s.broadcasts[b].members ==>
            id in s.past.joined && s.past.joined[id] == s.broadcasts[b].group)
  }

  /** `subs` holds the message of broadcast `b`, and of every broadcast at most one. */
  ghost predicate Got(subs: seq<Submission>, b: nat) {
    exists i :: 0 <= i < |subs| && subs[i].broadcast == b
  }

  ghost predicate Distinct(subs: seq<Submission>) {
    forall i, j :: 0 <= i < j < |subs| ==> subs[i].broadcast != subs[j].broadcast
  }

  /** A session has the message of a broadcast exactly if the broadcast's snapshot has it and no longer waits for it. */
  ghost predicate OnceAt(s: Service, id: nat) {
    var subs := Of(s.past.submitted, id);
    && Distinct(subs)
    && (forall i :: 0 <= i < |subs| ==> FromBroadcast(s, subs[i]))
    && (forall b :: 0 <= b < |s.broadcasts| ==>
          (Got(subs, b) <==> id in s.broadcasts[b].members && id !in s.broadcasts[b].waiting))
  }

  ghost predicate Once(s: Service) {
    forall id :: OnceAt(s, id)
  }

  predicate FromBroadcast(s: Service, m: Submission) {
    m.broadcast < |s.broadcasts| && m.message == ResponseTo(s.broadcasts[m.broadcast].packet)
  }

  ghost predicate Books(s: Service) {
    Lifetimes(s) && Listing(s) && Flags(s)
  }

  ghost predicate Sound(s: Service) {
    && Books(s)
    && Outstanding(s)
    && Fifo(s)
    && Snapshots(s)
    && Once(s)
  }

  // Outstanding operations

  lemma TakeAnswered(s: Service, tag: nat)
    requires Answered(s, 0) && 0 !in s.live && tag in s.operations
    ensures Answered(Take(s, tag), s.operations[tag].session)
  {
    var t, busy := Take(s, tag), s.operations[tag].session;
    forall id | id in t.live && id != busy && Expected(t, id).Some? ensures Pending(t, Expected(t, id).value) {
      var u :| u in s.operations && s.operations[u] == Expected(s, id).value;
      assert u in t.operations;
    }
  }

  lemma TakeMatched(s: Service, tag: nat)
    requires Matched(s, 0) && Unshared(s) && tag in s.operations
    ensures Matched(Take(s, tag), s.operations[tag].session) && Unshared(Take(s, tag))
  {
  }

  /** The session `id`, which has no operation, changes and gets the one its new state calls for. */
  lemma Restart(s: Service, t: Service, id: nat)
    requires OutstandingBut(s, id) && id in t.live && 0 !in t.live
    requires t.live.Keys == s.live.Keys + {id} && t.past.joined.Keys + {id} == s.past.joined.Keys + {id}
    requires forall other :: other != id && other in s.live ==> t.live[other] == s.live[other]
    requires t.operations == if Expected(t, id).Some? then s.operations[s.nextTag := Expected(t, id).value]
             else s.operations
    requires t.nextTag == if Expected(t, id).Some? then s.nextTag + 1 else s.nextTag
    ensures Outstanding(t)
  {
    forall other | other in t.live && other != id ensures other in s.live && Expected(t, other) == Expected(s, other) {
      assert other in t.past.joined <==> other in s.past.joined by {
        assert other in t.past.joined.Keys + {id} <==> other in s.past.joined.Keys + {id};
      }
    }
    forall other | other in t.live && Expected(t, other).Some? ensures Pending(t, Expected(t, other).value) {
      if other == id {
        assert t.operations[s.nextTag] == Expected(t, id).value;
      } else {
        var u :| u in s.operations && s.operations[u] == Expected(s, other).value;
        assert t.operations[u] == Expected(t, other).value;
      }
    }
  }

  lemma SameOperations(s: Service, t: Service)
    requires Outstanding(s) && 0 !in s.live
    requires t.operations == s.operations && t.nextTag == s.nextTag && t.live.Keys == s.live.Keys
    requires forall id :: id in s.live ==> Expected(t, id) == Expected(s, id)
    ensures Outstanding(t)
  {
  }

  /** Steps that neither submit nor deliver. */
  lemma FifoStays(s: Service, t: Service)
    requires Fifo(s) && t.past.submitted == s.past.submitted && t.past.delivered == s.past.delivered
             && s.nextId <= t.nextId
    requires forall id :: id in t.live && id !in s.live ==> id >= s.nextId && t.live[id].outgoing == []
    requires forall id :: id in t.live && id in s.live ==> t.live[id].outgoing == s.live[id].outgoing
    ensures Fifo(t)
  {
    forall id ensures FifoAt(t, id) {
      assert FifoAt(s, id);
    }
  }

  // Each step keeps each part

  lemma AddHandlerBooks(s: Service)
    requires Books(s)
    ensures Books(AddHandler(s))
  {
  }

  lemma AddHandlerKeeps(s: Service)
    requires Books(s) && Outstanding(s) && Fifo(s)
    ensures Books(AddHandler(s)) && Outstanding(AddHandler(s)) && Fifo(AddHandler(s))
  {
    AddHandlerBooks(s);
    FifoStays(s, AddHandler(s));
    Restart(s, AddHandler(s), s.nextId);
  }

  lemma DestroyListing(s: Service, id: nat)
    requires Lifetimes(s) && Listing(s) && id in s.live
    ensures Listing(Destroy(s, id))
  {
    var t := Destroy(s, id);
    assert t.past.destroyed[|s.past.destroyed|] == id;
    assert forall other :: other in s.past.destroyed ==> other in t.past.destroyed;
    forall g, other
      ensures other in Members(t.groups, g) <==>
              other in s.past.joined && s.past.joined[other] == g && (other in t.live || g == -1)
    {
      assert other in Members(s.groups, g) <==>
             other in s.past.joined && s.past.joined[other] == g && (other in s.live || g == -1);
    }
  }

  lemma DestroyBooks(s: Service, id: nat)
    requires Books(s) && id in s.live
    ensures Books(Destroy(s, id))
  {
    var t := Destroy(s, id);
    assert t.past.destroyed[|s.past.destroyed|] == id;
    assert forall other :: other in t.past.destroyed <==> other in s.past.destroyed || other == id;
    DestroyListing(s, id);
  }

  lemma DestroyKeeps(s: Service, id: nat)
    requires Books(s) && OutstandingBut(s, id) && Fifo(s) && id in s.live
    ensures Books(Destroy(s, id)) && Outstanding(Destroy(s, id)) && Fifo(Destroy(s, id))
  {
    var t := Destroy(s, id);
    DestroyBooks(s, id);
    FifoDestroy(s, id);
    forall other | other in t.live && Expected(t, other).Some? ensures Pending(t, Expected(t, other).value) {
      assert Pending(s, Expected(s, other).value);
    }
  }

  lemma FifoDestroy(s: Service, id: nat)
    requires Fifo(s) && id in s.live
    ensures Fifo(Destroy(s, id))
  {
    forall other ensures FifoAt(Destroy(s, id), other) {
      assert FifoAt(s, other);
    }
  }

  lemma JoinGroupBooks(s: Service, id: nat, g: int32)
    requires Books(s) && id in s.live && id !in s.past.joined
    ensures Books(JoinGroup(s, id, g))
  {
    var t := JoinGroup(s, id, g);
    forall h, other
      ensures other in Members(t.groups, h) <==>
              other in t.past.joined && t.past.joined[other] == h && (other in t.live || h == -1)
    {
      assert other in Members(s.groups, h) <==>
             other in s.past.joined && s.past.joined[other] == h && (other in s.live || h == -1);
    }
  }

  lemma JoinGroupKeeps(s: Service, id: nat, g: int32)
    requires Books(s) && OutstandingBut(s, id) && Fifo(s) && id in s.live && id !in s.past.joined
    ensures Books(JoinGroup(s, id, g)) && Outstanding(JoinGroup(s, id, g)) && Fifo(JoinGroup(s, id, g))
  {
    JoinGroupBooks(s, id, g);
    FifoStays(s, JoinGroup(s, id, g));
    Restart(s, JoinGroup(s, id, g), id);
  }

  lemma ConnectedOrder(s: Service, id: nat, g: int32)
    requires id in s.live && s.nextId !in s.live
    ensures Connected(s, id, g) == AddHandler(JoinGroup(s, id, g))
  {
  }

  lemma ConnectedKeeps(s: Service, id: nat, g: int32)
    requires Books(s) && OutstandingBut(s, id) && Fifo(s) && id in s.live && id !in s.past.joined
    ensures Books(Connected(s, id, g)) && Outstanding(Connected(s, id, g)) && Fifo(Connected(s, id, g))
  {
    ConnectedOrder(s, id, g);
    JoinGroupKeeps(s, id, g);
    AddHandlerKeeps(JoinGroup(s, id, g));
  }

  /** The same sessions in the same groups, with other queues. */
  lemma BooksStay(s: Service, t: Service)
    requires Lifetimes(s) && Listing(s) && Flags(t)
    requires t.nextId == s.nextId && t.live.Keys == s.live.Keys && t.groups == s.groups
    requires t.past.joined == s.past.joined && t.past.destroyed == s.past.destroyed
    requires forall id :: id in s.live ==> t.live[id].group == s.live[id].group
    ensures Books(t)
  {
    assert forall id :: id in t.live <==> id in s.live;
  }

  lemma WrittenBooks(s: Service, id: nat, m: SyncResponse)
    requires Books(s) && id in s.live && id in s.past.joined && s.live[id].outgoing != []
    ensures Books(Written(s, id, m))
  {
    assert |Popped(s.live[id]).outgoing| == |s.live[id].outgoing| - 1;
    BooksStay(s, Written(s, id, m));
  }

  lemma WrittenFifo(s: Service, id: nat)
    requires Lifetimes(s) && Fifo(s) && id in s.live && s.live[id].outgoing != []
    ensures Fifo(Written(s, id, s.live[id].outgoing[0]))
  {
    var t := Written(s, id, s.live[id].outgoing[0]);
    assert FifoAt(s, id);
    assert FifoAt(t, id) by {
      assert Of(t.past.delivered, id) + t.live[id].outgoing == Of(s.past.delivered, id) + s.live[id].outgoing;
    }
    forall other | other != id ensures FifoAt(t, other) {
      assert FifoAt(s, other);
    }
  }

  lemma WrittenKeeps(s: Service, id: nat, m: SyncResponse)
    requires Books(s) && OutstandingBut(s, id) && Fifo(s)
    requires id in s.live && id in s.past.joined && s.live[id].outgoing != [] && m == s.live[id].outgoing[0]
    ensures Books(Written(s, id, m)) && Outstanding(Written(s, id, m)) && Fifo(Written(s, id, m))
  {
    WrittenBooks(s, id, m);
    WrittenFifo(s, id);
    Restart(s, Written(s, id, m), id);
  }

  lemma SubmittedBooks(s: Service, id: nat, b: nat, m: SyncResponse)
    requires Books(s) && id in s.live && id in s.past.joined
    ensures Books(Submitted(s, id, b, m))
  {
    assert Queued(s.live[id], m).outgoing != [];
    BooksStay(s, Submitted(s, id, b, m));
  }

  lemma SubmittedFifo(s: Service, id: nat, b: nat, m: SyncResponse)
    requires Lifetimes(s) && Fifo(s) && id in s.live
    ensures Fifo(Submitted(s, id, b, m))
  {
    var t := Submitted(s, id, b, m);
    assert FifoAt(t, id) by {
      assert FifoAt(s, id);
      MessagesOfOneMore(Of(s.past.submitted, id), Submission(b, m));
      Regroup(Of(s.past.delivered, id), s.live[id].outgoing, [m]);
    }
    forall other | other != id ensures FifoAt(t, other) {
      assert FifoAt(s, other);
    }
  }

  lemma SubmittedOutstanding(s: Service, id: nat, b: nat, m: SyncResponse)
    requires Books(s) && Outstanding(s) && id in s.live && id in s.past.joined
    ensures Outstanding(Submitted(s, id, b, m))
  {
    var t := Submitted(s, id, b, m);
    if s.live[id].outgoing == [] {
      assert OutstandingBut(s, id);
      Restart(s, t, id);
    } else {
      assert t.live[id].outgoing[0] == s.live[id].outgoing[0];
      SameOperations(s, t);
    }
  }

  lemma SubmittedKeeps(s: Service, id: nat, b: nat, m: SyncResponse)
    requires Books(s) && Outstanding(s) && Fifo(s) && id in s.live && id in s.past.joined
    ensures Books(Submitted(s, id, b, m)) && Outstanding(Submitted(s, id, b, m)) && Fifo(Submitted(s, id, b, m))
  {
    SubmittedBooks(s, id, b, m);
    SubmittedFifo(s, id, b, m);
    SubmittedOutstanding(s, id, b, m);
  }

  lemma MessagesOfOneMore(subs: seq<Submission>, m: Submission)
    ensures MessagesOf(subs + [m]) == MessagesOf(subs) + [m.message]
  {
  }

  lemma BroadcastsStay(s: Service, t: Service)
    requires Snapshots(s) && Once(s) && t.broadcasts == s.broadcasts && t.past.submitted == s.past.submitted
    requires forall id :: id in s.past.joined ==> id in t.past.joined && t.past.joined[id] == s.past.joined[id]
    ensures Snapshots(t) && Once(t)
  {
    forall id ensures OnceAt(t, id) {
      assert OnceAt(s, id);
    }
  }

  lemma BeginKeeps(s: Service, g: int32, p: Packet)
    requires Listing(s) && Snapshots(s) && Once(s)
    ensures Snapshots(BeginBroadcast(s, g, p)) && Once(BeginBroadcast(s, g, p))
  {
    var t := BeginBroadcast(s, g, p);
    forall id ensures OnceAt(t, id) {
      assert OnceAt(s, id);
      var subs := Of(s.past.submitted, id);
      assert forall i :: 0 <= i < |subs| ==> FromBroadcast(s, subs[i]) && FromBroadcast(t, subs[i]);
    }
  }

  lemma WriteNextKeeps(s: Service, b: nat, id: nat)
    requires Snapshots(s) && Once(s) && b < |s.broadcasts| && id in s.broadcasts[b].waiting && id in s.live
    ensures Snapshots(WriteNext(s, b, id)) && Once(WriteNext(s, b, id))
  {
    var t := WriteNext(s, b, id);
    var m := Submission(b, ResponseTo(s.broadcasts[b].packet));
    assert OnceAt(t, id) by {
      assert OnceAt(s, id);
      OneMoreGot(Of(s.past.submitted, id), m);
    }
    forall other | other != id ensures OnceAt(t, other) {
      assert OnceAt(s, other);
    }
  }

  lemma OneMoreGot(subs: seq<Submission>, m: Submission)
    requires Distinct(subs) && !Got(subs, m.broadcast)
    ensures Distinct(subs + [m])
    ensures forall b :: Got(subs + [m], b) <==> Got(subs, b) || b == m.broadcast
  {
    var more := subs + [m];
    assert more[|subs|] == m;
    forall b ensures Got(more, b) <==> Got(subs, b) || b == m.broadcast {
      if Got(subs, b) {
        var i :| 0 <= i < |subs| && subs[i].broadcast == b;
        assert more[i].broadcast == b;
      }
    }
  }

  // Every step, and so every run

  /** The operation may be carried out on what is left when it is taken off the queue. */
  ghost predicate Due(s: Service, op: Operation) {
    && Books(s) && Fifo(s) && OutstandingBut(s, op.session)
    && op.session in s.live && Expected(s, op.session) == Some(op)
  }

  lemma TakeKeepsBooks(s: Service, tag: nat)
    requires Books(s) && Fifo(s)
    ensures Books(Take(s, tag)) && Fifo(Take(s, tag))
  {
    FifoStays(s, Take(s, tag));
  }

  lemma TakeGivesDue(s: Service, tag: nat)
    requires Books(s) && Outstanding(s) && Fifo(s) && tag in s.operations
    ensures Due(Take(s, tag), s.operations[tag])
  {
    TakeMatched(s, tag);
    TakeAnswered(s, tag);
    TakeKeepsBooks(s, tag);
  }

  lemma ProceedKeeps(s: Service, op: Operation, ok: bool, g: int32)
    requires Due(s, op)
    ensures var t := Proceed(s, op, ok, g);
            Books(t) && Outstanding(t) && Fifo(t) && t.undefined == s.undefined && t.broadcasts == s.broadcasts
    ensures Proceed(s, op, ok, g).past.submitted == s.past.submitted
    ensures !ok ==>
              var t := Proceed(s, op, ok, g);
              t.live == s.live - {op.session} && t.past.destroyed == s.past.destroyed + [op.session]
              && t.operations == s.operations && t.past.joined == s.past.joined
    ensures forall id :: id in s.past.joined ==>
              id in Proceed(s, op, ok, g).past.joined && Proceed(s, op, ok, g).past.joined[id] == s.past.joined[id]
  {
    if !ok {
      DestroyKeeps(s, op.session);
    } else {
      match op
      case ConnectOp(id) => ConnectedKeeps(s, id, g);
      case WriteOp(id, m) => WrittenKeeps(s, id, m);
    }
  }

  lemma WriteNextSound(s: Service, b: nat, id: nat)
    requires Sound(s) && b < |s.broadcasts| && id in s.broadcasts[b].waiting && id in s.live
    ensures Sound(WriteNext(s, b, id))
  {
    var c := s.broadcasts[b];
    var t := s.(broadcasts := s.broadcasts[b := c.(waiting := c.waiting - {id})]);
    assert Books(t) && Outstanding(t) && Fifo(t) by { FifoStays(s, t); SameOperations(s, t); }
    SubmittedKeeps(t, id, b, ResponseTo(c.packet));
    WriteNextKeeps(s, b, id);
  }

  lemma AddHandlerSound(s: Service)
    requires Sound(s)
    ensures Sound(AddHandler(s))
  {
    AddHandlerKeeps(s);
    BroadcastsStay(s, AddHandler(s));
  }

  lemma CompleteSound(s: Service, tag: nat, ok: bool, g: int32)
    requires Sound(s) && tag in s.operations
    ensures Sound(Proceed(Take(s, tag), s.operations[tag], ok, g))
  {
    TakeGivesDue(s, tag);
    ProceedKeeps(Take(s, tag), s.operations[tag], ok, g);
    BroadcastsStay(s, Proceed(Take(s, tag), s.operations[tag], ok, g));
  }

  lemma BeginSound(s: Service, g: int32, p: Packet)
    requires Sound(s)
    ensures Sound(BeginBroadcast(s, g, p))
  {
    BeginKeeps(s, g, p);
    FifoStays(s, BeginBroadcast(s, g, p));
    SameOperations(s, BeginBroadcast(s, g, p));
  }

  lemma StillSound(s: Service)
    requires Sound(s)
    ensures Sound(s.(undefined := true))
  {
    var t := s.(undefined := true);
    FifoStays(s, t);
    SameOperations(s, t);
    BroadcastsStay(s, t);
  }

  lemma NextSound(s: Service, ev: Event)
    requires Sound(s)
    ensures Sound(Next(s, ev))
  {
    match ev
    case Create => AddHandlerSound(s);
    case Complete(tag, ok, g) => if tag in s.operations { CompleteSound(s, tag, ok, g); }
    case Begin(g, p) => BeginSound(s, g, p);
    case WriteTo(b, id) =>
      if b < |s.broadcasts| && id in s.broadcasts[b].waiting {
        if id in s.live { WriteNextSound(s, b, id); } else { StillSound(s); }
      }
  }

  lemma {:induction false} SoundAlways(events: seq<Event>)
    ensures Sound(Run(events))
  {
    if events == [] {
      assert forall id :: FifoAt(Initial(), id) && OnceAt(Initial(), id);
    } else {
      SoundAlways(events[..|events| - 1]);
      NextSound(Run(events[..|events| - 1]), events[|events| - 1]);
    }
  }
}
