/**
 The behavior graph: an owning map from behavior ids, and an index from
 subjects and tags to references. `BehaviorGraph` is the code; the functions
 say what each of its methods does, and the lemmas when the two halves agree.
 */
module Graph {
  import opened Options

  type Id = int
  type Tag = string

  /** An object's address. A live object's address is its own; a dead one's may be given out again. */
  type Ref = nat

  datatype Behavior = Behavior(ref: Ref, id: Id, subject: Id, tags: seq<Tag>)

  type SubjectNode = map<Tag, seq<Ref>>

  datatype Context = Context(behaviors: map<Id, Behavior>, subjects: map<Id, SubjectNode>)

  const EMPTY := Context(map[], map[])

  datatype Op =
    | Add(behavior: Behavior)
    | Remove(id: Id)
    | RemoveSubject(subject: Id)

  function ListOf(node: SubjectNode, t: Tag): seq<Ref> {
    if t in node then node[t] else []
  }

  function Listed(c: Context, s: Id, t: Tag): seq<Ref> {
    if s in c.subjects then ListOf(c.subjects[s], t) else []
  }

  function AddUnique(refs: seq<Ref>, r: Ref): seq<Ref> {
    if r in refs then refs else refs + [r]
  }

  function RemoveAll(refs: seq<Ref>, r: Ref): seq<Ref> {
    if refs == [] then []
    else if refs[0] == r then RemoveAll(refs[1..], r)
    else [refs[0]] + RemoveAll(refs[1..], r)
  }

  /** `r` is listed under each of the tags, in their order. */
  function WithTags(node: SubjectNode, tags: seq<Tag>, r: Ref): SubjectNode {
    if tags == [] then node
    else
      var before, t := WithTags(node, tags[..|tags| - 1], r), tags[|tags| - 1];
      before[t := AddUnique(ListOf(before, t), r)]
  }

  function WithoutTags(node: SubjectNode, tags: seq<Tag>, r: Ref): SubjectNode {
    if tags == [] then node
    else
      var before, t := WithoutTags(node, tags[..|tags| - 1], r), tags[|tags| - 1];
      if t in before then before[t := RemoveAll(before[t], r)] else before
  }

  function AddTo(c: Context, b: Behavior): Context {
    var node := if b.subject in c.subjects then c.subjects[b.subject] else map[];
    Context(c.behaviors[b.id := b], c.subjects[b.subject := WithTags(node, b.tags, b.ref)])
  }

  /** Without a node for the subject nothing happens; without a known tag the whole subject goes. */
  function RemoveFrom(c: Context, b: Behavior): Context {
    if b.subject !in c.subjects then c
    else if exists t :: t in b.tags && t in c.subjects[b.subject] then
      Context(c.behaviors - {b.id}, c.subjects[b.subject := WithoutTags(c.subjects[b.subject], b.tags, b.ref)])
    else Context(c.behaviors - {b.id}, c.subjects - {b.subject})
  }

  function RemoveId(c: Context, id: Id): Context {
    if id in c.behaviors then RemoveFrom(c, c.behaviors[id]) else c
  }

  function Find(c: Context, id: Id): Option<Behavior> {
    if id in c.behaviors then Some(c.behaviors[id]) else None
  }

  function Apply(c: Context, op: Op): Context {
    match op
    case Add(b) => AddTo(c, b)
    case Remove(id) => RemoveId(c, id)
    case RemoveSubject(s) => c.(subjects := c.subjects - {s})
  }

  function Run(ops: seq<Op>): Context {
    if ops == [] then EMPTY else Apply(Run(ops[..|ops| - 1]), ops[|ops| - 1])
  }

  // What the two halves should say about each other

  /** The owning map holds a behavior at `r` with this subject and tag. */
  ghost predicate Owned(c: Context, r: Ref, s: Id, t: Tag) {
    exists id :: id in c.behaviors && c.behaviors[id].ref == r && c.behaviors[id].subject == s
      && t in c.behaviors[id].tags
  }

  ghost predicate NoDangling(c: Context) {
    forall s, t, r :: r in Listed(c, s, t) ==> Owned(c, r, s, t)
  }

  ghost predicate Complete(c: Context) {
    && (forall s, t, r :: Owned(c, r, s, t) ==> r in Listed(c, s, t))
    && (forall id :: id in c.behaviors ==> c.behaviors[id].subject in c.subjects)
  }

  ghost predicate Unrepeated(refs: seq<Ref>) {
    forall i, j :: 0 <= i < j < |refs| ==> refs[i] != refs[j]
  }

  ghost predicate OwnIds(c: Context) {
    forall id :: id in c.behaviors ==> c.behaviors[id].id == id
  }

  /** Objects are owned once, under their own ids, and no list names one twice. */
  ghost predicate WellFormed(c: Context) {
    && OwnIds(c)
    && (forall i, j :: i in c.behaviors && j in c.behaviors && c.behaviors[i].ref == c.behaviors[j].ref ==> i == j)
    && (forall s, t :: Unrepeated(Listed(c, s, t)))
  }

  // Lists

  lemma {:induction false} RemoveAllExact(refs: seq<Ref>, r: Ref)
    ensures forall x :: x in RemoveAll(refs, r) <==> x in refs && x != r
    ensures Unrepeated(refs) ==> Unrepeated(RemoveAll(refs, r))
  {
    if refs != [] {
      RemoveAllExact(refs[1..], r);
      assert refs == [refs[0]] + refs[1..];
      assert forall x :: x in refs <==> x == refs[0] || x in refs[1..];
      if Unrepeated(refs) && refs[0] != r {
        assert refs[0] !in refs[1..];
      }
    }
  }

  lemma AddUniqueExact(refs: seq<Ref>, r: Ref)
    ensures forall x :: x in AddUnique(refs, r) <==> x in refs || x == r
    ensures Unrepeated(refs) ==> Unrepeated(AddUnique(refs, r))
  {
  }

  lemma {:induction false} WithTagsExact(node: SubjectNode, tags: seq<Tag>, r: Ref, t: Tag)
    ensures forall x :: x in ListOf(WithTags(node, tags, r), t) <==> x in ListOf(node, t) || (x == r && t in tags)
    ensures Unrepeated(ListOf(node, t)) ==> Unrepeated(ListOf(WithTags(node, tags, r), t))
  {
    if tags != [] {
      var before, u := tags[..|tags| - 1], tags[|tags| - 1];
      WithTagsExact(node, before, r, t);
      assert tags == before + [u];
      AddUniqueExact(ListOf(WithTags(node, before, r), u), r);
    }
  }

  lemma {:induction false} WithoutTagsExact(node: SubjectNode, tags: seq<Tag>, r: Ref, t: Tag)
    ensures forall x :: x in ListOf(WithoutTags(node, tags, r), t) <==> x in ListOf(node, t) && !(x == r && t in tags)
    ensures Unrepeated(ListOf(node, t)) ==> Unrepeated(ListOf(WithoutTags(node, tags, r), t))
    ensures WithoutTags(node, tags, r).Keys == node.Keys
  {
    if tags != [] {
      var before, u := WithoutTags(node, tags[..|tags| - 1], r), tags[|tags| - 1];
      WithoutTagsExact(node, tags[..|tags| - 1], r, t);
      assert tags == tags[..|tags| - 1] + [u];
      if u in before { RemoveAllExact(before[u], r); }
    }
  }

  // One step

  lemma AddListed(c: Context, b: Behavior, s: Id, t: Tag)
    ensures forall x :: x in Listed(AddTo(c, b), s, t) <==>
              x in Listed(c, s, t) || (s == b.subject && t in b.tags && x == b.ref)
    ensures Unrepeated(Listed(c, s, t)) ==> Unrepeated(Listed(AddTo(c, b), s, t))
  {
    if s == b.subject {
      var node := if s in c.subjects then c.subjects[s] else map[];
      WithTagsExact(node, b.tags, b.ref, t);
      assert ListOf(node, t) == Listed(c, s, t)
             && ListOf(WithTags(node, b.tags, b.ref), t) == Listed(AddTo(c, b), s, t);
    } else {
      assert Listed(AddTo(c, b), s, t) == Listed(c, s, t);
    }
  }

  lemma RemoveListed(c: Context, b: Behavior, s: Id, t: Tag)
    ensures forall x :: x in Listed(RemoveFrom(c, b), s, t) ==>
              x in Listed(c, s, t) && !(s == b.subject && t in b.tags && x == b.ref)
    ensures s != b.subject || (exists u :: u in b.tags && s in c.subjects && u in c.subjects[s]) ==>
              forall x :: x in Listed(c, s, t) && !(s == b.subject && t in b.tags && x == b.ref) ==>
                     x in Listed(RemoveFrom(c, b), s, t)
    ensures Unrepeated(Listed(c, s, t)) ==> Unrepeated(Listed(RemoveFrom(c, b), s, t))
  {
    if s == b.subject && s in c.subjects {
      WithoutTagsExact(c.subjects[s], b.tags, b.ref, t);
    }
  }

  /** In every state: the lists of the subject and the tags get the object at their end, once; no other changes. */
  lemma AddExact(c: Context, b: Behavior, s: Id, t: Tag)
    ensures var c', here := AddTo(c, b), s == b.subject && t in b.tags;
            && c'.behaviors == c.behaviors[b.id := b]
            && c'.subjects.Keys == c.subjects.Keys + {b.subject}
            && Listed(c', s, t) == Listed(c, s, t) + if here && b.ref !in Listed(c, s, t) then [b.ref] else []
  {
    if s == b.subject {
      var node := if s in c.subjects then c.subjects[s] else map[];
      WithTagsList(node, b.tags, b.ref, t);
      assert ListOf(node, t) == Listed(c, s, t);
      assert ListOf(WithTags(node, b.tags, b.ref), t) == Listed(AddTo(c, b), s, t);
    } else {
      assert Listed(AddTo(c, b), s, t) == Listed(c, s, t);
    }
  }

  lemma {:induction false} WithTagsList(node: SubjectNode, tags: seq<Tag>, r: Ref, t: Tag)
    ensures ListOf(WithTags(node, tags, r), t) ==
            ListOf(node, t) + if t in tags && r !in ListOf(node, t) then [r] else []
  {
    if tags != [] {
      var before, u := tags[..|tags| - 1], tags[|tags| - 1];
      WithTagsList(node, before, r, t);
      assert tags == before + [u];
      assert t in tags <==> t in before || t == u;
    }
  }

  /**
   In every state: with a node of the subject under one of its tags, the object leaves the lists of its tags and
   the rest keep their order; with none of them, the whole subject goes; with no node at all nothing changes.
   */
  lemma RemoveExact(c: Context, b: Behavior, s: Id, t: Tag)
    requires Unrepeated(Listed(c, s, t))
    ensures var c' := RemoveFrom(c, b);
            var known := b.subject in c.subjects && exists u :: u in b.tags && u in c.subjects[b.subject];
            if b.subject !in c.subjects then c' == c
            else
              && c'.behaviors == c.behaviors - {b.id}
              && c'.subjects.Keys == c.subjects.Keys - (if known then {} else {b.subject})
              && Listed(c', s, t) == (if s != b.subject then Listed(c, s, t)
                                      else if !known then []
                                      else if t in b.tags then Dropped(Listed(c, s, t), b.ref)
                                      else Listed(c, s, t))
  {
    if s == b.subject && s in c.subjects {
      WithoutTagsList(c.subjects[s], b.tags, b.ref, t);
      WithoutTagsExact(c.subjects[s], b.tags, b.ref, t);
    }
  }

  function PlaceOf(refs: seq<Ref>, r: Ref): (i: nat)
    requires r in refs
    ensures i < |refs| && refs[i] == r
  {
    if refs[0] == r then 0 else 1 + PlaceOf(refs[1..], r)
  }

  /** `refs` without the element at the place of `r`. */
  function Dropped(refs: seq<Ref>, r: Ref): seq<Ref> {
    if r in refs then refs[..PlaceOf(refs, r)] + refs[PlaceOf(refs, r) + 1..] else refs
  }

  lemma {:induction false} RemoveAllDrops(refs: seq<Ref>, r: Ref)
    requires Unrepeated(refs)
    ensures RemoveAll(refs, r) == Dropped(refs, r)
  {
    if refs != [] {
      assert Unrepeated(refs[1..]);
      if refs[0] == r {
        RemoveAllNothing(refs[1..], r);
      } else {
        RemoveAllDrops(refs[1..], r);
        DroppedLater(refs, r);
      }
    }
  }

  lemma DroppedLater(refs: seq<Ref>, r: Ref)
    requires refs != [] && refs[0] != r
    ensures Dropped(refs, r) == [refs[0]] + Dropped(refs[1..], r)
  {
    var rest := refs[1..];
    InTheRest(refs, r);
    if r in rest {
      Cut(refs, r, PlaceOf(refs, r));
      Cut(rest, r, PlaceOf(rest, r));
      CutLater(refs, PlaceOf(rest, r));
    }
  }

  lemma InTheRest(refs: seq<Ref>, r: Ref)
    requires refs != [] && refs[0] != r
    ensures [refs[0]] + refs[1..] == refs
    ensures r in refs <==> r in refs[1..]
    ensures r in refs ==> PlaceOf(refs, r) == 1 + PlaceOf(refs[1..], r)
  {
  }

  lemma Cut(refs: seq<Ref>, r: Ref, i: nat)
    requires r in refs && i == PlaceOf(refs, r)
    ensures Dropped(refs, r) == refs[..i] + refs[i + 1..]
  {
  }

  lemma CutLater(refs: seq<Ref>, i: nat)
    requires i + 1 < |refs|
    ensures refs[..i + 1] + refs[i + 2..] == [refs[0]] + (refs[1..][..i] + refs[1..][i + 1..])
  {
    assert refs[..i + 1] == [refs[0]] + refs[1..][..i];
    assert refs[i + 2..] == refs[1..][i + 1..];
  }

  lemma {:induction false} RemoveAllNothing(refs: seq<Ref>, r: Ref)
    requires r !in refs
    ensures RemoveAll(refs, r) == refs
  {
    if refs != [] {
      RemoveAllNothing(refs[1..], r);
    }
  }

  lemma {:induction false} WithoutTagsList(node: SubjectNode, tags: seq<Tag>, r: Ref, t: Tag)
    requires Unrepeated(ListOf(node, t))
    ensures ListOf(WithoutTags(node, tags, r), t) == if t in tags then Dropped(ListOf(node, t), r) else ListOf(node, t)
  {
    if tags != [] {
      var before, u := tags[..|tags| - 1], tags[|tags| - 1];
      WithoutTagsList(node, before, r, t);
      WithoutTagsExact(node, before, r, t);
      assert tags == before + [u];
      assert t in tags <==> t in before || t == u;
      if t == u && t in node {
        var list := ListOf(WithoutTags(node, before, r), t);
        RemoveAllDrops(list, r);
      }
    }
  }

  /** A behavior under a new id, at an address no owned behavior has. */
  ghost predicate New(c: Context, b: Behavior) {
    b.id !in c.behaviors && Unowned(c, b.ref)
  }

  ghost predicate Unowned(c: Context, r: Ref) {
    forall id :: id in c.behaviors ==> c.behaviors[id].ref != r
  }

  ghost predicate Sound(c: Context) {
    WellFormed(c) && NoDangling(c)
  }

  lemma AddOwned(c: Context, b: Behavior, r: Ref, s: Id, t: Tag)
    requires b.id !in c.behaviors
    ensures Owned(AddTo(c, b), r, s, t) <==> Owned(c, r, s, t) || (r == b.ref && s == b.subject && t in b.tags)
  {
    var c' := AddTo(c, b);
    if Owned(c, r, s, t) {
      var id :| id in c.behaviors && c.behaviors[id].ref == r && c.behaviors[id].subject == s
        && t in c.behaviors[id].tags;
      assert c'.behaviors[id] == c.behaviors[id];
    }
    assert c'.behaviors[b.id] == b;
  }

  lemma AddKeeps(c: Context, b: Behavior)
    requires Sound(c) && New(c, b)
    ensures Sound(AddTo(c, b)) && (Complete(c) ==> Complete(AddTo(c, b)))
  {
    forall s, t ensures Unrepeated(Listed(AddTo(c, b), s, t)) {
      AddListed(c, b, s, t);
    }
    forall r, s, t
      ensures r in Listed(AddTo(c, b), s, t) ==> Owned(AddTo(c, b), r, s, t)
      ensures Complete(c) && Owned(AddTo(c, b), r, s, t) ==> r in Listed(AddTo(c, b), s, t)
    {
      AddListed(c, b, s, t);
      AddOwned(c, b, r, s, t);
    }
  }

  ghost predicate Unlisted(c: Context, r: Ref) {
    forall s, t :: r !in Listed(c, s, t)
  }

  /** Adding under an id in use destroys the behavior that had it; its references are taken out of no list. */
  lemma ReusedIdDanglesExactlyWhen(c: Context, b: Behavior)
    requires Sound(c) && b.id in c.behaviors && Unowned(c, b.ref)
    ensures NoDangling(AddTo(c, b)) <==> Unlisted(c, c.behaviors[b.id].ref)
  {
    var c', gone := AddTo(c, b), c.behaviors[b.id];
    assert c'.behaviors[b.id] == b;
    forall s, t, r | r in Listed(c', s, t) && r != gone.ref ensures Owned(c', r, s, t) {
      AddListed(c, b, s, t);
      if r in Listed(c, s, t) {
        var id :| id in c.behaviors && c.behaviors[id].ref == r && c.behaviors[id].subject == s
          && t in c.behaviors[id].tags;
        assert c'.behaviors[id] == c.behaviors[id];
      }
    }
    forall s, t ensures gone.ref in Listed(c', s, t) <==> gone.ref in Listed(c, s, t) {
      AddListed(c, b, s, t);
    }
    forall s, t ensures !Owned(c', gone.ref, s, t) {
    }
  }

  /** Where the index is complete that is: the behavior it destroys has no tag. */
  lemma ReusedIdInCompleteIndex(c: Context, b: Behavior)
    requires Sound(c) && Complete(c) && b.id in c.behaviors && Unowned(c, b.ref)
    ensures NoDangling(AddTo(c, b)) <==> c.behaviors[b.id].tags == []
  {
    var gone := c.behaviors[b.id];
    ReusedIdDanglesExactlyWhen(c, b);
    if gone.tags != [] {
      assert Owned(c, gone.ref, gone.subject, gone.tags[0]);
    } else {
      assert forall s, t :: !Owned(c, gone.ref, s, t);
    }
  }

  lemma RemoveOwned(c: Context, id: Id, r: Ref, s: Id, t: Tag)
    requires WellFormed(c) && id in c.behaviors && c.behaviors[id].subject in c.subjects
    ensures Owned(RemoveId(c, id), r, s, t) <==> Owned(c, r, s, t) && r != c.behaviors[id].ref
  {
    if Owned(c, r, s, t) && r != c.behaviors[id].ref {
      var other :| other in c.behaviors && c.behaviors[other].ref == r && c.behaviors[other].subject == s
        && t in c.behaviors[other].tags;
      assert RemoveId(c, id).behaviors[other] == c.behaviors[other];
    }
  }

  /** Removing never leaves a reference behind. */
  lemma RemoveKeepsSound(c: Context, id: Id)
    requires Sound(c)
    ensures Sound(RemoveId(c, id))
  {
    if id in c.behaviors && c.behaviors[id].subject in c.subjects {
      var b, c' := c.behaviors[id], RemoveId(c, id);
      forall s, t ensures Unrepeated(Listed(c', s, t)) {
        RemoveListed(c, b, s, t);
      }
      forall s, t, r | r in Listed(c', s, t) ensures Owned(c', r, s, t) {
        RemoveListed(c, b, s, t);
        RemoveOwned(c, id, r, s, t);
        assert Owned(c, r, s, t);
      }
    }
  }

  lemma RemoveKeepsCompleteTagged(c: Context, id: Id)
    requires Sound(c) && Complete(c) && id in c.behaviors && c.behaviors[id].tags != []
    ensures Complete(RemoveId(c, id))
  {
    var b, c' := c.behaviors[id], RemoveId(c, id);
    assert Owned(c, b.ref, b.subject, b.tags[0]);
    assert b.tags[0] in b.tags && b.tags[0] in c.subjects[b.subject];
    forall s, t, r | Owned(c', r, s, t) ensures r in Listed(c', s, t) {
      RemoveOwned(c, id, r, s, t);
      RemoveListed(c, b, s, t);
    }
  }

  ghost predicate Alone(c: Context, id: Id)
    requires id in c.behaviors
  {
    forall other :: other in c.behaviors && other != id ==> c.behaviors[other].subject != c.behaviors[id].subject
  }

  /** Removing an untagged behavior throws away the index of its whole subject. */
  lemma RemoveKeepsCompleteExactlyWhen(c: Context, id: Id)
    requires Sound(c) && Complete(c) && id in c.behaviors
    ensures Complete(RemoveId(c, id)) <==> c.behaviors[id].tags != [] || Alone(c, id)
  {
    var b, c' := c.behaviors[id], RemoveId(c, id);
    if b.tags != [] {
      RemoveKeepsCompleteTagged(c, id);
    } else if Alone(c, id) {
      forall s, t, r | Owned(c', r, s, t) ensures r in Listed(c', s, t) {
        RemoveOwned(c, id, r, s, t);
        RemoveListed(c, b, s, t);
      }
    } else {
      var other :| other in c.behaviors && other != id && c.behaviors[other].subject == b.subject;
      assert c'.behaviors[other].subject !in c'.subjects;
    }
  }

  lemma RemoveSubjectKeeps(c: Context, s: Id)
    requires Sound(c)
    ensures var c' := Apply(c, RemoveSubject(s));
            && Sound(c') && c'.behaviors == c.behaviors
            && (Complete(c) ==> (Complete(c') <==> forall id :: id in c.behaviors ==> c.behaviors[id].subject != s))
  {
    var c' := Apply(c, RemoveSubject(s));
    forall u, t ensures Listed(c', u, t) == if u == s then [] else Listed(c, u, t) {
    }
    forall u, t, r ensures Owned(c', r, u, t) <==> Owned(c, r, u, t) {
    }
  }

  // Runs

  /** What every caller owes: a new id and a new object for each addition. */
  ghost predicate Legal(c: Context, op: Op) {
    op.Add? ==> New(c, op.behavior)
  }

  ghost predicate LegalRun(ops: seq<Op>) {
    forall j :: 0 <= j < |ops| ==> Legal(Run(ops[..j]), ops[j])
  }

  lemma LegalBefore(ops: seq<Op>)
    requires ops != [] && LegalRun(ops)
    ensures LegalRun(ops[..|ops| - 1]) && Legal(Run(ops[..|ops| - 1]), ops[|ops| - 1])
  {
    var before := ops[..|ops| - 1];
    assert forall j :: 0 <= j < |before| ==> before[..j] == ops[..j] && before[j] == ops[j];
  }

  /**
   Whatever is added, removed or forgotten, every listed reference is to an owned behavior with that subject
   and tag.
   */
  lemma {:induction false} NoDanglingOnEveryRun(ops: seq<Op>)
    requires LegalRun(ops)
    ensures Sound(Run(ops))
  {
    if ops != [] {
      LegalBefore(ops);
      var before, op := ops[..|ops| - 1], ops[|ops| - 1];
      NoDanglingOnEveryRun(before);
      match op
      case Add(b) => AddKeeps(Run(before), b);
      case Remove(id) => RemoveKeepsSound(Run(before), id);
      case RemoveSubject(s) => RemoveSubjectKeeps(Run(before), s);
    }
  }

  /** Every behavior added has a tag, and no subject is removed as a whole. */
  predicate Tidy(op: Op) {
    match op
    case Add(b) => b.tags != []
    case Remove(_) => true
    case RemoveSubject(_) => false
  }

  ghost predicate AllTagged(c: Context) {
    forall id :: id in c.behaviors ==> c.behaviors[id].tags != []
  }

  lemma {:induction false} TidyRunsAreComplete(ops: seq<Op>)
    requires LegalRun(ops) && forall op :: op in ops ==> Tidy(op)
    ensures Sound(Run(ops)) && Complete(Run(ops)) && AllTagged(Run(ops))
  {
    NoDanglingOnEveryRun(ops);
    if ops != [] {
      LegalBefore(ops);
      var before, op := ops[..|ops| - 1], ops[|ops| - 1];
      assert Tidy(op) && forall o :: o in before ==> o in ops;
      TidyRunsAreComplete(before);
      match op
      case Add(b) => AddKeeps(Run(before), b);
      case Remove(id) => if id in Run(before).behaviors { RemoveKeepsCompleteTagged(Run(before), id); }
    }
  }

  /** The behavior a history leaves under an id: the last one added and not removed since. */
  function Latest(ops: seq<Op>, id: Id): Option<Behavior> {
    if ops == [] then None
    else
      var before, op := Latest(ops[..|ops| - 1], id), ops[|ops| - 1];
      match op
      case Add(b) => if b.id == id then Some(b) else before
      case Remove(removed) => if removed == id then None else before
      case RemoveSubject(_) => before
  }

  /** The history leaves the behavior at `r` with this subject and tag. */
  ghost predicate Left(ops: seq<Op>, r: Ref, s: Id, t: Tag) {
    exists id :: Latest(ops, id).Some? && Latest(ops, id).value.ref == r
                 && Latest(ops, id).value.subject == s && t in Latest(ops, id).value.tags
  }

  /**
   On tidy runs the graph finds exactly what the history leaves, and lists a
   behavior under a subject and a tag, once, exactly if it is left with them.
   */
  lemma IndexAgreement(ops: seq<Op>, id: Id, s: Id, t: Tag)
    requires LegalRun(ops) && forall op :: op in ops ==> Tidy(op)
    ensures Find(Run(ops), id) == Latest(ops, id)
    ensures Unrepeated(Listed(Run(ops), s, t))
    ensures forall r :: r in Listed(Run(ops), s, t) <==> Left(ops, r, s, t)
  {
    TidyRunsAreComplete(ops);
    FindIsLatest(ops, id);
    forall r ensures Owned(Run(ops), r, s, t) <==> Left(ops, r, s, t) {
      OwnedIsLeft(ops, r, s, t);
    }
  }

  lemma OwnedIsLeft(ops: seq<Op>, r: Ref, s: Id, t: Tag)
    requires LegalRun(ops) && forall op :: op in ops ==> Tidy(op)
    ensures Owned(Run(ops), r, s, t) <==> Left(ops, r, s, t)
  {
    var c := Run(ops);
    forall id ensures Find(c, id) == Latest(ops, id) {
      FindIsLatest(ops, id);
    }
    if Owned(c, r, s, t) {
      var id :| id in c.behaviors && c.behaviors[id].ref == r && c.behaviors[id].subject == s
        && t in c.behaviors[id].tags;
      assert Find(c, id) == Latest(ops, id);
    }
    if Left(ops, r, s, t) {
      var id :| Latest(ops, id).Some? && Latest(ops, id).value.ref == r && Latest(ops, id).value.subject == s
        && t in Latest(ops, id).value.tags;
      assert Find(c, id) == Latest(ops, id);
    }
  }

  lemma {:induction false} FindIsLatest(ops: seq<Op>, id: Id)
    requires LegalRun(ops) && forall op :: op in ops ==> Tidy(op)
    ensures Find(Run(ops), id) == Latest(ops, id)
  {
    if ops != [] {
      LegalBefore(ops);
      var before, op := ops[..|ops| - 1], ops[|ops| - 1];
      assert Tidy(op) && forall o :: o in before ==> o in ops;
      FindIsLatest(before, id);
      TidyRunsAreComplete(before);
    }
  }

  // What goes wrong otherwise

  /** Removing has its documented effect exactly if the subject still has a node. */
  lemma RemovedIsGoneExactlyWhen(c: Context, id: Id)
    requires OwnIds(c)
    ensures Find(RemoveId(c, id), id) == None <==> id !in c.behaviors || c.behaviors[id].subject in c.subjects
    ensures id in c.behaviors && c.behaviors[id].subject !in c.subjects ==> RemoveId(c, id) == c
  {
  }

  function After(c: Context, ops: seq<Op>): Context {
    if ops == [] then c else Apply(After(c, ops[..|ops| - 1]), ops[|ops| - 1])
  }

  /** Once its subject has no node a behavior cannot be removed until something is added to that subject. */
  lemma {:induction false} StrandedUntilItsSubjectReturns(c: Context, ops: seq<Op>, id: Id)
    requires OwnIds(c) && id in c.behaviors && c.behaviors[id].subject !in c.subjects
    requires forall op :: op in ops && op.Add? ==>
               op.behavior.subject != c.behaviors[id].subject && op.behavior.id != id
    ensures OwnIds(After(c, ops))
    ensures Find(After(c, ops), id) == Find(c, id) && c.behaviors[id].subject !in After(c, ops).subjects
  {
    if ops != [] {
      var before, op := ops[..|ops| - 1], ops[|ops| - 1];
      assert op in ops && forall o :: o in before ==> o in ops;
      StrandedUntilItsSubjectReturns(c, before, id);
    }
  }

  lemma OneMore(ops: seq<Op>, op: Op)
    ensures Run(ops + [op]) == Apply(Run(ops), op)
    ensures LegalRun(ops) && Legal(Run(ops), op) ==> LegalRun(ops + [op])
  {
    assert (ops + [op])[..|ops|] == ops;
    assert forall j :: 0 <= j < |ops| ==> (ops + [op])[..j] == ops[..j];
  }

  /** The graph after one addition. */
  lemma FirstAdded(b: Behavior) returns (ops: seq<Op>)
    ensures ops == [Add(b)] && LegalRun(ops)
    ensures Run(ops) == Context(map[b.id := b], map[b.subject := WithTags(map[], b.tags, b.ref)])
  {
    ops := [] + [Add(b)];
    OneMore([], Add(b));
  }

  /**
   A legal run after which a tagged behavior is owned but listed nowhere, and
   cannot be removed: an untagged behavior of its subject was removed.
   */
  lemma UntaggedRemovalForgets(plain: Behavior, tagged: Behavior, t: Tag) returns (ops: seq<Op>)
    requires plain.id != tagged.id && plain.ref != tagged.ref && plain.subject == tagged.subject
    requires plain.tags == [] && tagged.tags == [t]
    ensures ops == [Add(plain)] + [Add(tagged)] + [Remove(plain.id)] && LegalRun(ops)
    ensures Find(Run(ops), tagged.id) == Some(tagged) && Listed(Run(ops), tagged.subject, t) == []
    ensures LegalRun(ops + [Remove(tagged.id)]) && Find(Run(ops + [Remove(tagged.id)]), tagged.id) == Some(tagged)
  {
    var one := FirstAdded(plain);
    OneMore(one, Add(tagged));
    OneMore(one + [Add(tagged)], Remove(plain.id));
    ops := one + [Add(tagged)] + [Remove(plain.id)];
    OneMore(ops, Remove(tagged.id));
  }

  /** A run whose second addition reuses an id: the object it destroys stays listed. */
  lemma ReuseLeavesADeadReference(b: Behavior, b': Behavior, t: Tag) returns (ops: seq<Op>)
    requires b.id == b'.id && b.ref != b'.ref && b.tags == [t] && b'.tags == []
    ensures ops == [Add(b)] + [Add(b')] && LegalRun([Add(b)])
    ensures b.ref in Listed(Run(ops), b.subject, t) && Unowned(Run(ops), b.ref)
  {
    var one := FirstAdded(b);
    WithTagsExact(map[], b.tags, b.ref, t);
    OneMore(one, Add(b'));
    ops := one + [Add(b')];
    AddListed(Run(one), b', b.subject, t);
  }

  /** Where the index has forgotten it, a tagged behavior may be replaced and nothing dangles. */
  lemma ReuseAfterRemoveSubject(b: Behavior, b': Behavior, t: Tag) returns (ops: seq<Op>)
    requires b.id == b'.id && b.ref != b'.ref && b.tags == [t] && b'.tags == []
    ensures ops == [Add(b)] + [RemoveSubject(b.subject)] && LegalRun(ops)
    ensures Find(Run(ops), b.id) == Some(b) && NoDangling(AddTo(Run(ops), b'))
  {
    var one := FirstAdded(b);
    OneMore(one, RemoveSubject(b.subject));
    ops := one + [RemoveSubject(b.subject)];
    NoDanglingOnEveryRun(ops);
    ReusedIdDanglesExactlyWhen(Run(ops), b');
  }

  // The code

  class BehaviorGraph {
    var behaviors: map<Id, Behavior>
    var subjectNodes: map<Id, SubjectNode>

    function View(): Context
      reads this
    {
      Context(behaviors, subjectNodes)
    }

    constructor ()
      ensures View() == EMPTY
    {
      behaviors, subjectNodes := map[], map[];
    }

    method AddBehavior(b: Behavior) returns (added: Behavior)
      modifies this
      ensures View() == AddTo(old(View()), b)
      ensures Some(added) == Find(View(), b.id)
    {
      var s := b.subject;
      if s !in subjectNodes {
        subjectNodes := subjectNodes[s := map[]];
      }
      ghost var node := subjectNodes[s];
      for i := 0 to |b.tags|
        invariant subjectNodes == old(subjectNodes)[s := WithTags(node, b.tags[..i], b.ref)]
                  && behaviors == old(behaviors)
      {
        assert b.tags[..i + 1][..i] == b.tags[..i];
        AddReference(s, b.tags[i], b.ref);
      }
      assert b.tags[..|b.tags|] == b.tags;
      behaviors := behaviors[b.id := b];
      added := behaviors[b.id];
    }

    /** The tag's node is made if there is none. */
    method AddReference(s: Id, t: Tag, r: Ref)
      requires s in subjectNodes
      modifies this`subjectNodes
      ensures var node := old(subjectNodes[s]);
              subjectNodes == old(subjectNodes)[s := node[t := AddUnique(ListOf(node, t), r)]]
    {
      if t !in subjectNodes[s] {
        subjectNodes := subjectNodes[s := subjectNodes[s][t := []]];
      }
      subjectNodes := subjectNodes[s := subjectNodes[s][t := AddUnique(subjectNodes[s][t], r)]];
      assert subjectNodes[s] == old(subjectNodes[s])[t := AddUnique(ListOf(old(subjectNodes[s]), t), r)];
      assert subjectNodes == old(subjectNodes)[s := subjectNodes[s]];
    }

    method FindBehavior(id: Id) returns (found: Option<Behavior>)
      ensures found == Find(View(), id)
    {
      if id !in behaviors {
        return None;
      }
      return Some(behaviors[id]);
    }

    method RemoveBehaviorById(id: Id)
      modifies this
      ensures View() == Apply(old(View()), Op.Remove(id))
    {
      if id !in behaviors {
        return;
      }
      RemoveBehavior(behaviors[id]);
    }

    method RemoveBehavior(b: Behavior)
      modifies this
      ensures View() == RemoveFrom(old(View()), b)
    {
      var s := b.subject;
      if s !in subjectNodes {
        return;
      }
      ghost var node := subjectNodes[s];
      var known := false;
      for i := 0 to |b.tags|
        invariant subjectNodes == old(subjectNodes)[s := WithoutTags(node, b.tags[..i], b.ref)]
                  && behaviors == old(behaviors)
        invariant subjectNodes[s].Keys == node.Keys
        invariant known <==> exists t :: t in b.tags[..i] && t in node
      {
        assert b.tags[..i + 1][..i] == b.tags[..i];
        if b.tags[i] in subjectNodes[s] {
          assert b.tags[i] in b.tags[..i + 1];
          subjectNodes := subjectNodes[s := subjectNodes[s][b.tags[i] := RemoveAll(subjectNodes[s][b.tags[i]], b.ref)]];
          known := true;
        }
      }
      assert b.tags[..|b.tags|] == b.tags;
      if !known {
        subjectNodes := subjectNodes - {s};
      }
      behaviors := behaviors - {b.id};
    }

    method RemoveSubject(s: Id)
      modifies this
      ensures View() == Apply(old(View()), Op.RemoveSubject(s))
    {
      subjectNodes := subjectNodes - {s};
    }
  }
}
