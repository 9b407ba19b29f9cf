/** Discovery diffs: what one does to the tables and to the indexes. */
module Discovery {
  import opened Sequences
  import opened IndexMaps
  import opened Entities
  import opened ReverseIndex
  import opened IndexDiff
  import opened TopologyModel
  import opened TopologyRuns

  /** Refs to remove, then entities to add. */
  datatype Diff = Diff(remove: seq<EntityRef>, components: seq<Component>, apps: seq<App>, areas: seq<Area>)

  /** An item of a discovery stream. */
  type Item = Result<Diff, Text>

  function RemoveOp(ref: EntityRef): Op {
    match ref.kind
    case ComponentKind => RemoveComponent(ref.id)
    case AppKind => RemoveApp(ref.id)
    case AreaKind => RemoveArea(ref.id)
  }

  function RemoveOps(refs: seq<EntityRef>): seq<Op> {
    seq(|refs|, i requires 0 <= i < |refs| => RemoveOp(refs[i]))
  }

  function ComponentOps(cs: seq<Component>): seq<Op> {
    seq(|cs|, i requires 0 <= i < |cs| => AddComponent(cs[i]))
  }

  function AppOps(apps: seq<App>): seq<Op> {
    seq(|apps|, i requires 0 <= i < |apps| => AddApp(apps[i]))
  }

  function AreaOps(areas: seq<Area>): seq<Op> {
    seq(|areas|, i requires 0 <= i < |areas| => AddArea(areas[i]))
  }

  function AddOps(d: Diff): seq<Op> {
    ComponentOps(d.components) + AppOps(d.apps) + AreaOps(d.areas)
  }

  /** The calls the discovery loop makes on its write guard for one diff. */
  function DiffOps(d: Diff): seq<Op> {
    RemoveOps(d.remove) + AddOps(d)
  }

  function ApplyDiff(s: State, d: Diff): State {
    Run(s, DiffOps(d))
  }

  /** An error item changes nothing. */
  function ApplyItem(s: State, item: Item): State {
    if item.Ok? then ApplyDiff(s, item.value) else s
  }

  function RunItems(s: State, items: seq<Item>): State {
    if items == [] then s else ApplyItem(RunItems(s, items[..|items| - 1]), items[|items| - 1])
  }

  // ---- The removes, in any order

  function IdsOf(refs: set<EntityRef>, kind: EntityKind): set<Id> {
    set r | r in refs && r.kind == kind :: r.id
  }

  function MemberKind(rel: Relation): EntityKind {
    if rel.ComponentArea? then ComponentKind else AppKind
  }

  /** The areas that are there to be removed; removing one clears its buckets. */
  function Cleared(s: State, rel: Relation, refs: set<EntityRef>): set<Id> {
    if rel.AppHost? then {} else set id | id in IdsOf(refs, AreaKind) && id in s.areas.entries
  }

  ghost function Drop<V>(m: IndexMap<V>, ids: set<Id>): IndexMap<V> {
    IndexMap(Filter(m.keys, NotIn(ids)), m.entries - ids)
  }

  ghost function RemovedIndex(s: State, rel: Relation, refs: set<EntityRef>): Index {
    RemoveAll(IndexFor(s, rel), IdsOf(refs, MemberKind(rel)), Cleared(s, rel, refs))
  }

  /** The topology without a set of entities, written down at once. */
  ghost function Removed(s: State, refs: set<EntityRef>): State {
    State(
      Drop(s.components, IdsOf(refs, ComponentKind)),
      Drop(s.apps, IdsOf(refs, AppKind)),
      Drop(s.areas, IdsOf(refs, AreaKind)),
      RemovedIndex(s, AppHost, refs).buckets,
      RemovedIndex(s, ComponentArea, refs).buckets,
      RemovedIndex(s, AppArea, refs).buckets)
  }

  lemma IndexOfRemoved(s: State, rel: Relation, refs: set<EntityRef>)
    ensures IndexFor(Removed(s, refs), rel) == RemovedIndex(s, rel, refs)
  {
    ClaimsWithout(s.apps.entries, s.components.entries, IdsOf(refs, MemberKind(rel)));
  }

  lemma DropValid<V>(m: IndexMap<V>, ids: set<Id>)
    requires MapValid(m)
    ensures MapValid(Drop(m, ids))
  {
    FilterNoDup(m.keys, NotIn(ids));
  }

  lemma DropOne<V>(m: IndexMap<V>, ids: set<Id>, id: Id)
    requires MapValid(m)
    ensures MapRemove(Drop(m, ids), id) == Drop(m, ids + {id})
  {
    FilterFilter(m.keys, NotIn(ids), Other(id));
    FilterSame(m.keys, Both(NotIn(ids), Other(id)), NotIn(ids + {id}));
    assert m.entries - ids - {id} == m.entries - (ids + {id});
  }

  lemma IdsOfOne(refs: set<EntityRef>, ref: EntityRef, kind: EntityKind)
    ensures IdsOf(refs + {ref}, kind) == if ref.kind == kind then IdsOf(refs, kind) + {ref.id} else IdsOf(refs, kind)
  {
  }

  /** What one more remove does to an index from which `refs` are already gone. */
  function RemovalStep(s: State, rel: Relation, refs: set<EntityRef>, ref: EntityRef): IndexOp {
    if ref.kind == MemberKind(rel) then Delete(ref.id)
    else if ref.kind.AreaKind? && !rel.AppHost? && ref.id in s.areas.entries && ref.id !in IdsOf(refs, AreaKind)
    then Clear(ref.id)
    else Skip
  }

  lemma RemovalStepIs(s: State, rel: Relation, refs: set<EntityRef>, ref: EntityRef)
    ensures IndexOpOf(Removed(s, refs), rel, RemoveOp(ref)) == RemovalStep(s, rel, refs, ref)
  {
  }

  lemma ClearedOne(s: State, rel: Relation, refs: set<EntityRef>, ref: EntityRef)
    ensures Cleared(s, rel, refs + {ref})
         == if RemovalStep(s, rel, refs, ref).Clear? then Cleared(s, rel, refs) + {ref.id} else Cleared(s, rel, refs)
  {
    IdsOfOne(refs, ref, AreaKind);
  }

  lemma RemoveOneOnIndex(s: State, rel: Relation, refs: set<EntityRef>, ref: EntityRef)
    ensures Step(RemovedIndex(s, rel, refs), RemovalStep(s, rel, refs, ref)) == RemovedIndex(s, rel, refs + {ref})
  {
    var ids, cleared := IdsOf(refs, MemberKind(rel)), Cleared(s, rel, refs);
    IdsOfOne(refs, ref, MemberKind(rel));
    ClearedOne(s, rel, refs, ref);
    match RemovalStep(s, rel, refs, ref)
    case Delete(id) => RemoveAllDelete(IndexFor(s, rel), ids, cleared, id);
    case Clear(key) => RemoveAllClear(IndexFor(s, rel), ids, cleared, key);
    case Skip =>
  }

  lemma RemovedValid(s: State, refs: set<EntityRef>)
    requires MapsValid(s)
    ensures MapsValid(Removed(s, refs))
  {
    DropValid(s.components, IdsOf(refs, ComponentKind));
    DropValid(s.apps, IdsOf(refs, AppKind));
    DropValid(s.areas, IdsOf(refs, AreaKind));
  }

  lemma TablesAfterRemove(s: State, ref: EntityRef)
    requires MapsValid(s)
    ensures var after := Apply(s, RemoveOp(ref));
            && after.components == (if ref.kind.ComponentKind? then MapRemove(s.components, ref.id) else s.components)
            && after.apps == (if ref.kind.AppKind? then MapRemove(s.apps, ref.id) else s.apps)
            && after.areas == (if ref.kind.AreaKind? then MapRemove(s.areas, ref.id) else s.areas)
  {
    match ref.kind
    case ComponentKind => if ref.id !in s.components.entries { RemoveMissing(s.components, ref.id); }
    case AppKind => if ref.id !in s.apps.entries { RemoveMissing(s.apps, ref.id); }
    case AreaKind => if ref.id !in s.areas.entries { RemoveMissing(s.areas, ref.id); }
  }

  lemma RemoveOneTables(s: State, refs: set<EntityRef>, ref: EntityRef)
    requires MapsValid(s)
    ensures var after, all := Apply(Removed(s, refs), RemoveOp(ref)), Removed(s, refs + {ref});
            after.components == all.components && after.apps == all.apps && after.areas == all.areas
  {
    IdsOfOne(refs, ref, ComponentKind);
    IdsOfOne(refs, ref, AppKind);
    IdsOfOne(refs, ref, AreaKind);
    RemovedValid(s, refs);
    TablesAfterRemove(Removed(s, refs), ref);
    match ref.kind
    case ComponentKind => DropOne(s.components, IdsOf(refs, ComponentKind), ref.id);
    case AppKind => DropOne(s.apps, IdsOf(refs, AppKind), ref.id);
    case AreaKind => DropOne(s.areas, IdsOf(refs, AreaKind), ref.id);
  }

  lemma RemoveOneBuckets(s: State, rel: Relation, refs: set<EntityRef>, ref: EntityRef)
    requires MapsValid(s)
    ensures IndexFor(Apply(Removed(s, refs), RemoveOp(ref)), rel).buckets == RemovedIndex(s, rel, refs + {ref}).buckets
  {
    RemovedValid(s, refs);
    IndexOfRemoved(s, rel, refs);
    ApplyOnIndex(Removed(s, refs), rel, RemoveOp(ref));
    RemovalStepIs(s, rel, refs, ref);
    RemoveOneOnIndex(s, rel, refs, ref);
  }

  lemma RemoveOne(s: State, refs: set<EntityRef>, ref: EntityRef)
    requires MapsValid(s)
    ensures Apply(Removed(s, refs), RemoveOp(ref)) == Removed(s, refs + {ref})
  {
    RemoveOneTables(s, refs, ref);
    RemoveOneBuckets(s, AppHost, refs, ref);
    RemoveOneBuckets(s, ComponentArea, refs, ref);
    RemoveOneBuckets(s, AppArea, refs, ref);
  }

  lemma RemovedNone(s: State)
    requires Inv(s)
    ensures Removed(s, {}) == s
  {
    DropNone(s.components);
    DropNone(s.apps);
    DropNone(s.areas);
    assert forall kind: EntityKind :: IdsOf({}, kind) == {};
    forall rel: Relation ensures RemovedIndex(s, rel, {}) == IndexFor(s, rel) {
      RemoveAllNone(IndexFor(s, rel));
      assert IdsOf({}, MemberKind(rel)) == {} && Cleared(s, rel, {}) == {};
    }
    assert RemovedIndex(s, AppHost, {}) == IndexFor(s, AppHost);
    assert RemovedIndex(s, AppArea, {}) == IndexFor(s, AppArea);
    assert RemovedIndex(s, ComponentArea, {}) == IndexFor(s, ComponentArea);
  }

  lemma DropNone<V>(m: IndexMap<V>)
    ensures Drop(m, {}) == m
  {
    FilterAll(m.keys, NotIn({}));
    assert m.entries - {} == m.entries;
  }

  /** A remove list only matters as a set. */
  lemma {:induction false} RemovesAsSet(s: State, refs: seq<EntityRef>)
    requires Inv(s)
    ensures Run(s, RemoveOps(refs)) == Removed(s, ToSet(refs))
  {
    if refs == [] {
      RemovedNone(s);
      assert ToSet(refs) == {};
    } else {
      var front, last := refs[..|refs| - 1], refs[|refs| - 1];
      RemovesAsSet(s, front);
      RemoveOne(s, ToSet(front), last);
      ToSetLast(refs);
      assert RemoveOps(refs)[..|refs| - 1] == RemoveOps(front);
    }
  }

  lemma ToSetLast<T>(s: seq<T>)
    requires s != []
    ensures ToSet(s) == ToSet(s[..|s| - 1]) + {s[|s| - 1]}
  {
    assert s == s[..|s| - 1] + [s[|s| - 1]];
  }

  /** The order of the refs in a remove list, and repeats, make no difference to any table or index. */
  lemma RemoveOrderIrrelevant(s: State, a: seq<EntityRef>, b: seq<EntityRef>)
    requires Inv(s) && ToSet(a) == ToSet(b)
    ensures Run(s, RemoveOps(a)) == Run(s, RemoveOps(b))
  {
    RemovesAsSet(s, a);
    RemovesAsSet(s, b);
  }

  // ---- The adds, as each index sees them

  function PutOf(rel: Relation, op: Op): seq<Entry> {
    match (rel, op)
    case (AppHost, AddApp(a)) => [Entry(a.id, Some(a.hostId))]
    case (AppArea, AddApp(a)) => [Entry(a.id, a.areaId)]
    case (ComponentArea, AddComponent(c)) => [Entry(c.id, c.areaId)]
    case _ => []
  }

  /** The entries the adds put into an index, in order. */
  function Puts(rel: Relation, ops: seq<Op>): seq<Entry> {
    if ops == [] then [] else Puts(rel, ops[..|ops| - 1]) + PutOf(rel, ops[|ops| - 1])
  }

  /** The same, from the fields of the diff. */
  function Entries(rel: Relation, d: Diff): seq<Entry> {
    match rel
    case AppHost => seq(|d.apps|, i requires 0 <= i < |d.apps| => Entry(d.apps[i].id, Some(d.apps[i].hostId)))
    case AppArea => seq(|d.apps|, i requires 0 <= i < |d.apps| => Entry(d.apps[i].id, d.apps[i].areaId))
    case ComponentArea =>
      seq(|d.components|, i requires 0 <= i < |d.components| => Entry(d.components[i].id, d.components[i].areaId))
  }

  lemma {:induction false} PutsConcat(rel: Relation, a: seq<Op>, b: seq<Op>)
    ensures Puts(rel, a + b) == Puts(rel, a) + Puts(rel, b)
  {
    if b == [] {
      assert a + b == a && Puts(rel, a) + [] == Puts(rel, a);
    } else {
      var front, last := b[..|b| - 1], b[|b| - 1];
      PutsConcat(rel, a, front);
      assert (a + b)[..|a + b| - 1] == a + front && (a + b)[|a + b| - 1] == last;
      assert Puts(rel, a) + Puts(rel, front) + PutOf(rel, last) == Puts(rel, a) + (Puts(rel, front) + PutOf(rel, last));
    }
  }

  lemma {:induction false} NoPuts(rel: Relation, ops: seq<Op>)
    requires forall op :: op in ops ==> PutOf(rel, op) == []
    ensures Puts(rel, ops) == []
  {
    if ops != [] {
      assert ops[|ops| - 1] in ops && forall op :: op in ops[..|ops| - 1] ==> op in ops;
      NoPuts(rel, ops[..|ops| - 1]);
    }
  }

  lemma {:induction false} OnePutEach(rel: Relation, ops: seq<Op>)
    requires forall op :: op in ops ==> |PutOf(rel, op)| == 1
    ensures |Puts(rel, ops)| == |ops| && forall i :: 0 <= i < |ops| ==> [Puts(rel, ops)[i]] == PutOf(rel, ops[i])
  {
    if ops != [] {
      assert ops[|ops| - 1] in ops && forall op :: op in ops[..|ops| - 1] ==> op in ops;
      OnePutEach(rel, ops[..|ops| - 1]);
    }
  }

  lemma PutsInThreeParts(rel: Relation, d: Diff)
    ensures Puts(rel, AddOps(d))
         == Puts(rel, ComponentOps(d.components)) + Puts(rel, AppOps(d.apps)) + Puts(rel, AreaOps(d.areas))
  {
    PutsConcat(rel, ComponentOps(d.components) + AppOps(d.apps), AreaOps(d.areas));
    PutsConcat(rel, ComponentOps(d.components), AppOps(d.apps));
  }

  lemma Alone<T>(s: seq<T>)
    ensures s + [] + [] == s && [] + s + [] == s
  {
  }

  lemma PutsAreEntries(rel: Relation, d: Diff)
    ensures Puts(rel, AddOps(d)) == Entries(rel, d)
  {
    PutsInThreeParts(rel, d);
    PartPuts(rel, d);
    Alone(Entries(rel, d));
  }

  lemma PartPuts(rel: Relation, d: Diff)
    ensures Puts(rel, ComponentOps(d.components)) == if rel.ComponentArea? then Entries(rel, d) else []
    ensures Puts(rel, AppOps(d.apps)) == if rel.ComponentArea? then [] else Entries(rel, d)
    ensures Puts(rel, AreaOps(d.areas)) == []
  {
    NoPuts(rel, AreaOps(d.areas));
    if rel.ComponentArea? {
      NoPuts(rel, AppOps(d.apps));
      ComponentPuts(d);
    } else {
      NoPuts(rel, ComponentOps(d.components));
      AppPuts(rel, d);
    }
  }

  lemma ComponentPuts(d: Diff)
    ensures Puts(ComponentArea, ComponentOps(d.components)) == Entries(ComponentArea, d)
  {
    OnePutEach(ComponentArea, ComponentOps(d.components));
  }

  lemma AppPuts(rel: Relation, d: Diff)
    requires !rel.ComponentArea?
    ensures Puts(rel, AppOps(d.apps)) == Entries(rel, d)
  {
    OnePutEach(rel, AppOps(d.apps));
  }

  lemma {:induction false} AddsOnIndex(s: State, rel: Relation, ops: seq<Op>)
    requires Inv(s) && forall op :: op in ops ==> IsAdd(op)
    ensures IndexFor(Run(s, ops), rel) == PutAll(IndexFor(s, rel), Puts(rel, ops))
  {
    if ops != [] {
      var front, last := ops[..|ops| - 1], ops[|ops| - 1];
      assert forall op :: op in front ==> op in ops;
      assert last in ops;
      AddsOnIndex(s, rel, front);
      RunKeepsInv(s, front);
      ApplyOnIndex(Run(s, front), rel, last);
      var before := Puts(rel, front);
      if PutOf(rel, last) == [] {
        assert before + [] == before;
      } else {
        assert (before + PutOf(rel, last))[..|before|] == before;
      }
    }
  }

  // ---- When a diff keeps an index exact

  /** The diff's effect on the members of `rel` hangs together; see `IndexDiff.Coherent`. */
  ghost predicate DiffCoherent(s: State, rel: Relation, d: Diff) {
    var refs := ToSet(d.remove);
    Coherent(IndexFor(s, rel), IdsOf(refs, MemberKind(rel)), Cleared(s, rel, refs), Entries(rel, d))
  }

  lemma DiffOnIndex(s: State, rel: Relation, d: Diff)
    requires Inv(s)
    ensures IndexFor(ApplyDiff(s, d), rel)
         == AfterDiff(IndexFor(s, rel), IdsOf(ToSet(d.remove), MemberKind(rel)), Cleared(s, rel, ToSet(d.remove)),
                      Entries(rel, d))
  {
    PutsAreEntries(rel, d);
    RunConcat(s, RemoveOps(d.remove), AddOps(d));
    RunKeepsInv(s, RemoveOps(d.remove));
    AddsOnIndex(Run(s, RemoveOps(d.remove)), rel, AddOps(d));
    RemovesAsSet(s, d.remove);
    IndexOfRemoved(s, rel, ToSet(d.remove));
  }

  /**
   A diff leaves an exact index exact, as sets, exactly when: its adds of one id
   agree on what they name; an id that stays live and is re-added keeps what it
   names, unless that area is being removed; and every member of a removed area
   is itself removed or re-added. In between, the index may well be inexact.
   */
  lemma DiffKeepsIndexExactIff(s: State, rel: Relation, d: Diff)
    requires Inv(s) && SetExact(IndexFor(s, rel))
    ensures SetExact(IndexFor(ApplyDiff(s, d), rel)) <==> DiffCoherent(s, rel, d)
  {
    var ix, refs := IndexFor(s, rel), ToSet(d.remove);
    var deleted, cleared, puts := IdsOf(refs, MemberKind(rel)), Cleared(s, rel, refs), Entries(rel, d);
    DiffOnIndex(s, rel, d);
    if Coherent(ix, deleted, cleared, puts) {
      CoherentIsExact(ix, deleted, cleared, puts);
    }
    if SetExact(AfterDiff(ix, deleted, cleared, puts)) {
      ExactIsCoherent(ix, deleted, cleared, puts);
    }
  }

  // ---- The tables

  datatype Entity = OfComponent(component: Component) | OfApp(app: App) | OfArea(area: Area)

  function Lookup(s: State, ref: EntityRef): Option<Entity> {
    match ref.kind
    case ComponentKind => if ref.id in s.components.entries then Some(OfComponent(s.components.entries[ref.id])) else None
    case AppKind => if ref.id in s.apps.entries then Some(OfApp(s.apps.entries[ref.id])) else None
    case AreaKind => if ref.id in s.areas.entries then Some(OfArea(s.areas.entries[ref.id])) else None
  }

  /** What an operation leaves under its own ref. */
  function Outcome(op: Op): Option<Entity> {
    match op
    case AddComponent(c) => Some(OfComponent(c))
    case AddApp(a) => Some(OfApp(a))
    case AddArea(r) => Some(OfArea(r))
    case _ => None
  }

  /** What a run leaves under a ref that held `was`. */
  function Settle(ops: seq<Op>, ref: EntityRef, was: Option<Entity>): Option<Entity> {
    if ops == [] then was
    else if RefOf(ops[|ops| - 1]) == ref then Outcome(ops[|ops| - 1])
    else Settle(ops[..|ops| - 1], ref, was)
  }

  lemma LookupAfterOne(s: State, op: Op, ref: EntityRef)
    ensures Lookup(Apply(s, op), ref) == if RefOf(op) == ref then Outcome(op) else Lookup(s, ref)
  {
  }

  lemma {:induction false} LookupAfterRun(s: State, ops: seq<Op>, ref: EntityRef)
    ensures Lookup(Run(s, ops), ref) == Settle(ops, ref, Lookup(s, ref))
  {
    if ops != [] {
      LookupAfterRun(s, ops[..|ops| - 1], ref);
      LookupAfterOne(Run(s, ops[..|ops| - 1]), ops[|ops| - 1], ref);
    }
  }

  lemma {:induction false} LastOpDecides(ops: seq<Op>, ref: EntityRef, was: Option<Entity>, i: nat)
    requires i < |ops| && RefOf(ops[i]) == ref && forall j :: i < j < |ops| ==> RefOf(ops[j]) != ref
    ensures Settle(ops, ref, was) == Outcome(ops[i])
  {
    if i < |ops| - 1 {
      LastOpDecides(ops[..|ops| - 1], ref, was, i);
    }
  }

  lemma {:induction false} UntouchedStays(ops: seq<Op>, ref: EntityRef, was: Option<Entity>)
    requires forall op :: op in ops ==> RefOf(op) != ref
    ensures Settle(ops, ref, was) == was
  {
    if ops != [] {
      assert ops[|ops| - 1] in ops && forall op :: op in ops[..|ops| - 1] ==> op in ops;
      UntouchedStays(ops[..|ops| - 1], ref, was);
    }
  }

  lemma {:induction false} SettleConcat(a: seq<Op>, b: seq<Op>, ref: EntityRef, was: Option<Entity>)
    ensures Settle(a + b, ref, was) == Settle(b, ref, Settle(a, ref, was))
  {
    if b == [] {
      assert a + b == a;
    } else {
      SettleConcat(a, b[..|b| - 1], ref, was);
      assert (a + b)[..|a + b| - 1] == a + b[..|b| - 1];
    }
  }

  ghost predicate Adds(d: Diff, ref: EntityRef) {
    exists op :: op in AddOps(d) && RefOf(op) == ref
  }

  lemma {:induction false} SettleRemoves(refs: seq<EntityRef>, ref: EntityRef, was: Option<Entity>)
    ensures Settle(RemoveOps(refs), ref, was) == if ref in refs then None else was
  {
    if refs != [] {
      var front, last := refs[..|refs| - 1], refs[|refs| - 1];
      assert refs == front + [last];
      assert RemoveOps(refs)[..|refs| - 1] == RemoveOps(front);
      SettleRemoves(front, ref, was);
    }
  }

  lemma {:induction false} SettleAdds(ops: seq<Op>, ref: EntityRef, was: Option<Entity>)
    requires forall op :: op in ops ==> IsAdd(op)
    requires exists op :: op in ops && RefOf(op) == ref
    ensures Settle(ops, ref, was).Some?
  {
    var front, last := ops[..|ops| - 1], ops[|ops| - 1];
    assert last in ops && forall op :: op in front ==> op in ops;
    if RefOf(last) != ref {
      assert ops == front + [last];
      SettleAdds(front, ref, was);
    }
  }

  /** A diff takes the live refs to (live minus removed) plus added, and of several adds of one ref the last wins. */
  lemma DiffTables(s: State, d: Diff, ref: EntityRef)
    ensures Live(ApplyDiff(s, d), ref) <==> Adds(d, ref) || (Live(s, ref) && ref !in d.remove)
    ensures !Adds(d, ref) ==> Lookup(ApplyDiff(s, d), ref) == if ref in d.remove then None else Lookup(s, ref)
    ensures forall i :: 0 <= i < |AddOps(d)| && RefOf(AddOps(d)[i]) == ref
                        && (forall j :: i < j < |AddOps(d)| ==> RefOf(AddOps(d)[j]) != ref)
                        ==> Lookup(ApplyDiff(s, d), ref) == Outcome(AddOps(d)[i])
  {
    var removes, adds := RemoveOps(d.remove), AddOps(d);
    var was := if ref in d.remove then None else Lookup(s, ref);
    LookupAfterRun(s, DiffOps(d), ref);
    SettleConcat(removes, adds, ref, Lookup(s, ref));
    SettleRemoves(d.remove, ref, Lookup(s, ref));
    if Adds(d, ref) {
      SettleAdds(adds, ref, was);
      forall i | 0 <= i < |adds| && RefOf(adds[i]) == ref && (forall j :: i < j < |adds| ==> RefOf(adds[j]) != ref)
        ensures Settle(adds, ref, was) == Outcome(adds[i])
      {
        LastOpDecides(adds, ref, was, i);
      }
    } else {
      UntouchedStays(adds, ref, was);
    }
    assert Live(ApplyDiff(s, d), ref) <==> Lookup(ApplyDiff(s, d), ref).Some?;
  }
}
