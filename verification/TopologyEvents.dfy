/** Change events of the topology, and what a listener can rebuild from them. */
module TopologyEvents {
  import opened Sequences
  import opened Entities
  import opened TopologyModel

  datatype TopologyEvent = Added(ref: EntityRef) | Removed(ref: EntityRef)

  /** The events one operation queues: overwriting is an addition, removing nothing is silent. */
  function EventsOf(s: State, op: Op): seq<TopologyEvent> {
    if IsAdd(op) then [Added(RefOf(op))]
    else if Live(s, RefOf(op)) then [Removed(RefOf(op))]
    else []
  }

  /** The events a run queues, in order. */
  function EventsOfRun(s: State, ops: seq<Op>): seq<TopologyEvent> {
    if ops == [] then []
    else EventsOfRun(s, ops[..|ops| - 1]) + EventsOf(Run(s, ops[..|ops| - 1]), ops[|ops| - 1])
  }

  lemma {:induction false} EventsConcat(s: State, a: seq<Op>, b: seq<Op>)
    ensures EventsOfRun(s, a + b) == EventsOfRun(s, a) + EventsOfRun(Run(s, a), b)
  {
    if b == [] {
      assert a + b == a;
      assert EventsOfRun(s, a) + [] == EventsOfRun(s, a);
    } else {
      var front := b[..|b| - 1];
      EventsConcat(s, a, front);
      RunConcat(s, a, front);
      assert (a + b)[..|a + b| - 1] == a + front;
    }
  }

  // ---- Which operations are announced, and as what

  /** The operation adds the entity, whether or not it was there. */
  predicate AddsRef(op: Op, ref: EntityRef) {
    match op
    case AddComponent(c) => ref == EntityRef(ComponentKind, c.id)
    case AddApp(a) => ref == EntityRef(AppKind, a.id)
    case AddArea(r) => ref == EntityRef(AreaKind, r.id)
    case _ => false
  }

  /** The operation removes the entity, and there is one to remove. */
  predicate RemovesLiveRef(s: State, op: Op, ref: EntityRef) {
    match op
    case RemoveComponent(id) => ref == EntityRef(ComponentKind, id) && id in s.components.entries
    case RemoveApp(id) => ref == EntityRef(AppKind, id) && id in s.apps.entries
    case RemoveArea(id) => ref == EntityRef(AreaKind, id) && id in s.areas.entries
    case _ => false
  }

  function AddsOf(ops: seq<Op>, ref: EntityRef): nat {
    if ops == [] then 0
    else AddsOf(ops[..|ops| - 1], ref) + if AddsRef(ops[|ops| - 1], ref) then 1 else 0
  }

  /** The removals of a live `ref` in a run. */
  function RemovalsOf(s: State, ops: seq<Op>, ref: EntityRef): nat {
    if ops == [] then 0
    else
      RemovalsOf(s, ops[..|ops| - 1], ref)
      + if RemovesLiveRef(Run(s, ops[..|ops| - 1]), ops[|ops| - 1], ref) then 1 else 0
  }

  lemma EventsCountOne(s: State, op: Op, ref: EntityRef)
    ensures multiset(EventsOf(s, op))[Added(ref)] == if AddsRef(op, ref) then 1 else 0
    ensures multiset(EventsOf(s, op))[Removed(ref)] == if RemovesLiveRef(s, op, ref) then 1 else 0
  {
  }

  /** A run announces one addition per add, overwrites included, and one removal per removal of something live. */
  lemma {:induction false} EventsCountOps(s: State, ops: seq<Op>, ref: EntityRef)
    ensures multiset(EventsOfRun(s, ops))[Added(ref)] == AddsOf(ops, ref)
    ensures multiset(EventsOfRun(s, ops))[Removed(ref)] == RemovalsOf(s, ops, ref)
  {
    if ops != [] {
      var front, last := ops[..|ops| - 1], ops[|ops| - 1];
      EventsCountOps(s, front, ref);
      EventsCountOne(Run(s, front), last, ref);
      assert multiset(EventsOfRun(s, ops)) == multiset(EventsOfRun(s, front)) + multiset(EventsOf(Run(s, front), last));
    }
  }

  // ---- Ordered replay

  /** The ids of each table, in table order. */
  datatype KeyLists = KeyLists(components: seq<Id>, apps: seq<Id>, areas: seq<Id>)

  function KeysOf(s: State): KeyLists {
    KeyLists(s.components.keys, s.apps.keys, s.areas.keys)
  }

  function ReplayList(keys: seq<Id>, e: TopologyEvent): seq<Id> {
    if e.Added? then Insert(keys, e.ref.id) else Without(keys, e.ref.id)
  }

  function ReplayOne(k: KeyLists, e: TopologyEvent): KeyLists {
    match e.ref.kind
    case ComponentKind => k.(components := ReplayList(k.components, e))
    case AppKind => k.(apps := ReplayList(k.apps, e))
    case AreaKind => k.(areas := ReplayList(k.areas, e))
  }

  function Replay(k: KeyLists, events: seq<TopologyEvent>): KeyLists {
    if events == [] then k else ReplayOne(Replay(k, events[..|events| - 1]), events[|events| - 1])
  }

  const NO_KEYS := KeyLists([], [], [])

  lemma {:induction false} ReplayConcat(k: KeyLists, a: seq<TopologyEvent>, b: seq<TopologyEvent>)
    ensures Replay(k, a + b) == Replay(Replay(k, a), b)
  {
    if b == [] {
      assert a + b == a;
    } else {
      ReplayConcat(k, a, b[..|b| - 1]);
      assert (a + b)[..|a + b| - 1] == a + b[..|b| - 1];
    }
  }

  /** Replaying the events of one operation moves the key lists as the operation does. */
  lemma ReplayFollowsApply(s: State, op: Op)
    requires MapsValid(s)
    ensures KeysOf(Apply(s, op)) == Replay(KeysOf(s), EventsOf(s, op))
  {
    if EventsOf(s, op) != [] {
      assert EventsOf(s, op)[..0] == [];
    }
  }

  // ---- Unordered replay, as a listener does it

  function LiveRefs(s: State): set<EntityRef> {
    ListedRefs(KeysOf(s))
  }

  function ListedRefs(k: KeyLists): set<EntityRef> {
    (set id | id in k.components :: EntityRef(ComponentKind, id))
    + (set id | id in k.apps :: EntityRef(AppKind, id))
    + (set id | id in k.areas :: EntityRef(AreaKind, id))
  }

  function NoticeOne(refs: set<EntityRef>, e: TopologyEvent): set<EntityRef> {
    if e.Added? then refs + {e.ref} else refs - {e.ref}
  }

  function Notice(refs: set<EntityRef>, events: seq<TopologyEvent>): set<EntityRef> {
    if events == [] then refs else NoticeOne(Notice(refs, events[..|events| - 1]), events[|events| - 1])
  }

  lemma {:induction false} NoticeConcat(refs: set<EntityRef>, a: seq<TopologyEvent>, b: seq<TopologyEvent>)
    ensures Notice(refs, a + b) == Notice(Notice(refs, a), b)
  {
    if b == [] {
      assert a + b == a;
    } else {
      NoticeConcat(refs, a, b[..|b| - 1]);
      assert (a + b)[..|a + b| - 1] == a + b[..|b| - 1];
    }
  }

  lemma ListedRefsOne(k: KeyLists, e: TopologyEvent)
    ensures ListedRefs(ReplayOne(k, e)) == NoticeOne(ListedRefs(k), e)
  {
    forall ref ensures ref in ListedRefs(ReplayOne(k, e)) <==> ref in NoticeOne(ListedRefs(k), e) {
    }
  }

  /** Forgetting the order commutes with replaying. */
  lemma {:induction false} ListedRefsReplay(k: KeyLists, events: seq<TopologyEvent>)
    ensures ListedRefs(Replay(k, events)) == Notice(ListedRefs(k), events)
  {
    if events != [] {
      ListedRefsReplay(k, events[..|events| - 1]);
      ListedRefsOne(Replay(k, events[..|events| - 1]), events[|events| - 1]);
    }
  }

  ghost predicate Mentions(events: seq<TopologyEvent>, ref: EntityRef) {
    exists e :: e in events && e.ref == ref
  }

  /** A mentioned ref ends where its last event puts it, whatever the start; any other ref does not move. */
  lemma {:induction false} NoticeForgets(a: set<EntityRef>, b: set<EntityRef>, events: seq<TopologyEvent>, ref: EntityRef)
    ensures Mentions(events, ref) ==> (ref in Notice(a, events) <==> ref in Notice(b, events))
    ensures !Mentions(events, ref) ==> (ref in Notice(a, events) <==> ref in a)
  {
    if events != [] {
      var front, last := events[..|events| - 1], events[|events| - 1];
      assert events == front + [last];
      NoticeForgets(a, b, front, ref);
      assert last in events;
      assert Mentions(events, ref) <==> Mentions(front, ref) || last.ref == ref;
    }
  }

  /** Noticing a stretch of events a second time changes nothing. */
  lemma NoticeTwice(refs: set<EntityRef>, events: seq<TopologyEvent>)
    ensures Notice(Notice(refs, events), events) == Notice(refs, events)
  {
    forall ref ensures ref in Notice(Notice(refs, events), events) <==> ref in Notice(refs, events) {
      NoticeForgets(Notice(refs, events), refs, events, ref);
    }
  }

  /**
   A snapshot that already reflects `before + overlap`, brought forward by
   `overlap + after`, is as if every event had been noticed once.
   */
  lemma OverlapIsHarmless(
    refs: set<EntityRef>, before: seq<TopologyEvent>, overlap: seq<TopologyEvent>, after: seq<TopologyEvent>)
    ensures Notice(Notice(refs, before + overlap), overlap + after) == Notice(refs, before + overlap + after)
  {
    NoticeConcat(refs, before, overlap);
    NoticeConcat(Notice(refs, before + overlap), overlap, after);
    NoticeTwice(Notice(refs, before), overlap);
    NoticeConcat(refs, before + overlap, after);
  }
}
