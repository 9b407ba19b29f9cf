/** What one discovery diff does, in terms of the entities it lists. */
module DiffEffects {
  import opened Sequences
  import opened IndexMaps
  import opened Entities
  import opened IndexDiff
  import opened TopologyModel
  import opened TopologyRuns
  import opened TopologyEvents
  import opened Discovery

  // ---- The entries of each table

  /** The adds of one kind. */
  function Part(d: Diff, kind: EntityKind): seq<Op> {
    match kind
    case ComponentKind => ComponentOps(d.components)
    case AppKind => AppOps(d.apps)
    case AreaKind => AreaOps(d.areas)
  }

  lemma PartDecides(d: Diff, ref: EntityRef, was: Option<Entity>)
    ensures Settle(AddOps(d), ref, was) == Settle(Part(d, ref.kind), ref, was)
  {
    var c, a, r := ComponentOps(d.components), AppOps(d.apps), AreaOps(d.areas);
    SettleConcat(c + a, r, ref, was);
    SettleConcat(c, a, ref, was);
    if ref.kind.ComponentKind? {
      UntouchedStays(a, ref, Settle(c, ref, was));
      UntouchedStays(r, ref, Settle(c, ref, was));
    } else if ref.kind.AppKind? {
      UntouchedStays(c, ref, was);
      UntouchedStays(r, ref, Settle(a, ref, was));
    } else {
      UntouchedStays(c, ref, was);
      UntouchedStays(a, ref, was);
    }
  }

  /** What a diff leaves under a ref is up to its adds of that kind, and to what its removes left. */
  lemma LookupAfterDiff(s: State, d: Diff, ref: EntityRef)
    ensures Lookup(ApplyDiff(s, d), ref)
         == Settle(Part(d, ref.kind), ref, if ref in d.remove then None else Lookup(s, ref))
  {
    LookupAfterRun(s, DiffOps(d), ref);
    SettleConcat(RemoveOps(d.remove), AddOps(d), ref, Lookup(s, ref));
    SettleRemoves(d.remove, ref, Lookup(s, ref));
    PartDecides(d, ref, if ref in d.remove then None else Lookup(s, ref));
  }

  /**
   The components live after a diff are those it lists and those that were live
   and that it does not remove. The last listed one with an id is the one found
   under it; a component that is not listed is as it was.
   */
  lemma DiffComponents(s: State, d: Diff, id: Id)
    ensures var after := ApplyDiff(s, d).components.entries;
            && (id in after <==> (exists i :: 0 <= i < |d.components| && d.components[i].id == id)
                                 || (id in s.components.entries && EntityRef(ComponentKind, id) !in d.remove))
            && (forall i :: 0 <= i < |d.components| && d.components[i].id == id && (forall j :: i < j < |d.components| ==> d.components[j].id != id) ==>
                  after[id] == d.components[i])
            && (id in after && (forall i :: 0 <= i < |d.components| ==> d.components[i].id != id)
                ==> after[id] == s.components.entries[id])
  {
    var ref, part := EntityRef(ComponentKind, id), ComponentOps(d.components);
    var was := if ref in d.remove then None else Lookup(s, ref);
    LookupAfterDiff(s, d, ref);
    if i :| 0 <= i < |d.components| && d.components[i].id == id {
      assert part[i] in part;
      SettleAdds(part, ref, was);
    } else {
      UntouchedStays(part, ref, was);
    }
    forall i | 0 <= i < |d.components| && d.components[i].id == id && (forall j :: i < j < |d.components| ==> d.components[j].id != id)
      ensures Settle(part, ref, was) == Some(OfComponent(d.components[i]))
    {
      LastOpDecides(part, ref, was, i);
    }
  }

  /** The same for apps. */
  lemma DiffApps(s: State, d: Diff, id: Id)
    ensures var after := ApplyDiff(s, d).apps.entries;
            && (id in after <==> (exists i :: 0 <= i < |d.apps| && d.apps[i].id == id)
                                 || (id in s.apps.entries && EntityRef(AppKind, id) !in d.remove))
            && (forall i :: 0 <= i < |d.apps| && d.apps[i].id == id && (forall j :: i < j < |d.apps| ==> d.apps[j].id != id) ==>
                  after[id] == d.apps[i])
            && (id in after && (forall i :: 0 <= i < |d.apps| ==> d.apps[i].id != id)
                ==> after[id] == s.apps.entries[id])
  {
    var ref, part := EntityRef(AppKind, id), AppOps(d.apps);
    var was := if ref in d.remove then None else Lookup(s, ref);
    LookupAfterDiff(s, d, ref);
    if i :| 0 <= i < |d.apps| && d.apps[i].id == id {
      assert part[i] in part;
      SettleAdds(part, ref, was);
    } else {
      UntouchedStays(part, ref, was);
    }
    forall i | 0 <= i < |d.apps| && d.apps[i].id == id && (forall j :: i < j < |d.apps| ==> d.apps[j].id != id)
      ensures Settle(part, ref, was) == Some(OfApp(d.apps[i]))
    {
      LastOpDecides(part, ref, was, i);
    }
  }

  /** The same for areas. */
  lemma DiffAreas(s: State, d: Diff, id: Id)
    ensures var after := ApplyDiff(s, d).areas.entries;
            && (id in after <==> (exists i :: 0 <= i < |d.areas| && d.areas[i].id == id)
                                 || (id in s.areas.entries && EntityRef(AreaKind, id) !in d.remove))
            && (forall i :: 0 <= i < |d.areas| && d.areas[i].id == id && (forall j :: i < j < |d.areas| ==> d.areas[j].id != id) ==>
                  after[id] == d.areas[i])
            && (id in after && (forall i :: 0 <= i < |d.areas| ==> d.areas[i].id != id)
                ==> after[id] == s.areas.entries[id])
  {
    var ref, part := EntityRef(AreaKind, id), AreaOps(d.areas);
    var was := if ref in d.remove then None else Lookup(s, ref);
    LookupAfterDiff(s, d, ref);
    if i :| 0 <= i < |d.areas| && d.areas[i].id == id {
      assert part[i] in part;
      SettleAdds(part, ref, was);
    } else {
      UntouchedStays(part, ref, was);
    }
    forall i | 0 <= i < |d.areas| && d.areas[i].id == id && (forall j :: i < j < |d.areas| ==> d.areas[j].id != id)
      ensures Settle(part, ref, was) == Some(OfArea(d.areas[i]))
    {
      LastOpDecides(part, ref, was, i);
    }
  }

  // ---- The order of each table

  function KeysFor(s: State, kind: EntityKind): seq<Id> {
    match kind
    case ComponentKind => s.components.keys
    case AppKind => s.apps.keys
    case AreaKind => s.areas.keys
  }

  /** The ids a diff lists of one kind, in the order of its list. */
  function IdsIn(d: Diff, kind: EntityKind): seq<Id> {
    match kind
    case ComponentKind => seq(|d.components|, i requires 0 <= i < |d.components| => d.components[i].id)
    case AppKind => seq(|d.apps|, i requires 0 <= i < |d.apps| => d.apps[i].id)
    case AreaKind => seq(|d.areas|, i requires 0 <= i < |d.areas| => d.areas[i].id)
  }

  function Unlisted(remove: seq<EntityRef>, kind: EntityKind): Id -> bool {
    id => EntityRef(kind, id) !in remove
  }

  /** The keys that a list of removes leaves, in their order. */
  function Survivors(s: State, remove: seq<EntityRef>, kind: EntityKind): seq<Id> {
    Filter(KeysFor(s, kind), Unlisted(remove, kind))
  }

  /** The ids of one kind that a run of adds names. */
  function AddedIds(ops: seq<Op>, kind: EntityKind): seq<Id> {
    if ops == [] then []
    else
      var front, ref := AddedIds(ops[..|ops| - 1], kind), RefOf(ops[|ops| - 1]);
      if ref.kind == kind then front + [ref.id] else front
  }

  lemma {:induction false} AddedIdsConcat(a: seq<Op>, b: seq<Op>, kind: EntityKind)
    ensures AddedIds(a + b, kind) == AddedIds(a, kind) + AddedIds(b, kind)
  {
    if b == [] {
      assert a + b == a;
    } else {
      AddedIdsConcat(a, b[..|b| - 1], kind);
      assert (a + b)[..|a + b| - 1] == a + b[..|b| - 1];
    }
  }

  lemma {:induction false} AddedIdsOfKind(ops: seq<Op>, kind: EntityKind)
    ensures (forall op :: op in ops ==> RefOf(op).kind != kind) ==> AddedIds(ops, kind) == []
    ensures (forall op :: op in ops ==> RefOf(op).kind == kind) ==>
              |AddedIds(ops, kind)| == |ops| && forall i :: 0 <= i < |ops| ==> AddedIds(ops, kind)[i] == RefOf(ops[i]).id
  {
    if ops != [] {
      assert ops[|ops| - 1] in ops && forall op :: op in ops[..|ops| - 1] ==> op in ops;
      AddedIdsOfKind(ops[..|ops| - 1], kind);
    }
  }

  lemma PartIds(d: Diff, part: EntityKind, kind: EntityKind)
    ensures AddedIds(Part(d, part), kind) == if part == kind then IdsIn(d, kind) else []
  {
    AddedIdsOfKind(Part(d, part), kind);
  }

  lemma AddedIdsAre(d: Diff, kind: EntityKind)
    ensures AddedIds(AddOps(d), kind) == IdsIn(d, kind)
  {
    var c, a, r := Part(d, ComponentKind), Part(d, AppKind), Part(d, AreaKind);
    AddedIdsConcat(c + a, r, kind);
    AddedIdsConcat(c, a, kind);
    PartIds(d, ComponentKind, kind);
    PartIds(d, AppKind, kind);
    PartIds(d, AreaKind, kind);
    Alone(IdsIn(d, kind));
  }

  lemma AddKeys(s: State, op: Op, kind: EntityKind)
    requires IsAdd(op)
    ensures KeysFor(Apply(s, op), kind)
         == KeysFor(s, kind) + if RefOf(op).kind == kind && RefOf(op).id !in KeysFor(s, kind) then [RefOf(op).id] else []
  {
  }

  lemma NewcomerGoesLast(keys: seq<Id>, ids: seq<Id>, id: Id)
    ensures keys + Newcomers(keys, ids + [id])
         == keys + Newcomers(keys, ids) + if id !in keys + Newcomers(keys, ids) then [id] else []
  {
    NewcomersPlus(keys, ids, id);
  }

  lemma {:induction false} AddsKeys(s: State, ops: seq<Op>, kind: EntityKind)
    requires forall op :: op in ops ==> IsAdd(op)
    ensures KeysFor(Run(s, ops), kind)
         == KeysFor(s, kind) + Newcomers(KeysFor(s, kind), AddedIds(ops, kind))
  {
    if ops != [] {
      var front, last := ops[..|ops| - 1], ops[|ops| - 1];
      assert last in ops && forall op :: op in front ==> op in ops;
      AddsKeys(s, front, kind);
      AddKeys(Run(s, front), last, kind);
      NewcomerGoesLast(KeysFor(s, kind), AddedIds(front, kind), RefOf(last).id);
    }
  }

  lemma RemovesKeys(s: State, remove: seq<EntityRef>, kind: EntityKind)
    requires Inv(s)
    ensures KeysFor(Run(s, RemoveOps(remove)), kind) == Survivors(s, remove, kind)
  {
    RemovesAsSet(s, remove);
    forall id ensures id in IdsOf(ToSet(remove), kind) <==> EntityRef(kind, id) in remove {
    }
    FilterSame(KeysFor(s, kind), NotIn(IdsOf(ToSet(remove), kind)), Unlisted(remove, kind));
  }

  lemma RemovesThenAdds(s: State, d: Diff)
    ensures ApplyDiff(s, d) == Run(Run(s, RemoveOps(d.remove)), AddOps(d))
    ensures forall op :: op in AddOps(d) ==> IsAdd(op)
  {
    RunConcat(s, RemoveOps(d.remove), AddOps(d));
  }

  /** After a diff a table has the surviving keys in their old order, then the new ids as they first occur in its list. */
  lemma DiffKeys(s: State, d: Diff, kind: EntityKind)
    requires Inv(s)
    ensures KeysFor(ApplyDiff(s, d), kind)
         == Survivors(s, d.remove, kind) + Newcomers(Survivors(s, d.remove, kind), IdsIn(d, kind))
  {
    RemovesThenAdds(s, d);
    RemovesKeys(s, d.remove, kind);
    AddsKeys(Run(s, RemoveOps(d.remove)), AddOps(d), kind);
    AddedIdsAre(d, kind);
  }

  // ---- The events

  /** A removal for the first mention of each live ref. */
  function Removals(s: State, remove: seq<EntityRef>): seq<TopologyEvent> {
    if remove == [] then []
    else
      var front, last := remove[..|remove| - 1], remove[|remove| - 1];
      Removals(s, front) + if Live(s, last) && last !in front then [TopologyEvent.Removed(last)] else []
  }

  function Additions(kind: EntityKind, ids: seq<Id>): seq<TopologyEvent> {
    seq(|ids|, i requires 0 <= i < |ids| => Added(EntityRef(kind, ids[i])))
  }

  /** The effective removals in list order, then one addition per listed component, app and area. */
  function EventsOfDiff(s: State, d: Diff): seq<TopologyEvent> {
    Removals(s, d.remove)
    + Additions(ComponentKind, IdsIn(d, ComponentKind))
    + Additions(AppKind, IdsIn(d, AppKind))
    + Additions(AreaKind, IdsIn(d, AreaKind))
  }

  lemma LiveAfterRemoves(s: State, remove: seq<EntityRef>, ref: EntityRef)
    ensures Live(Run(s, RemoveOps(remove)), ref) <==> Live(s, ref) && ref !in remove
  {
    LookupAfterRun(s, RemoveOps(remove), ref);
    SettleRemoves(remove, ref, Lookup(s, ref));
    assert Live(Run(s, RemoveOps(remove)), ref) <==> Lookup(Run(s, RemoveOps(remove)), ref).Some?;
  }

  lemma RemoveOpIs(ref: EntityRef)
    ensures RefOf(RemoveOp(ref)) == ref && !IsAdd(RemoveOp(ref))
  {
  }

  lemma {:induction false} RemovalEvents(s: State, remove: seq<EntityRef>)
    ensures EventsOfRun(s, RemoveOps(remove)) == Removals(s, remove)
  {
    if remove != [] {
      var front, last := remove[..|remove| - 1], remove[|remove| - 1];
      RemovalEvents(s, front);
      assert RemoveOps(remove)[..|remove| - 1] == RemoveOps(front);
      LiveAfterRemoves(s, front, last);
      RemoveOpIs(last);
    }
  }

  lemma {:induction false} AdditionEvents(s: State, ops: seq<Op>)
    requires forall op :: op in ops ==> IsAdd(op)
    ensures EventsOfRun(s, ops) == seq(|ops|, i requires 0 <= i < |ops| => Added(RefOf(ops[i])))
  {
    if ops != [] {
      assert ops[|ops| - 1] in ops && forall op :: op in ops[..|ops| - 1] ==> op in ops;
      AdditionEvents(s, ops[..|ops| - 1]);
    }
  }

  lemma PartEvents(s: State, d: Diff, kind: EntityKind)
    ensures EventsOfRun(s, Part(d, kind)) == Additions(kind, IdsIn(d, kind))
  {
    AdditionEvents(s, Part(d, kind));
  }

  lemma DiffAdditionEvents(s: State, d: Diff)
    ensures EventsOfRun(s, AddOps(d))
         == Additions(ComponentKind, IdsIn(d, ComponentKind)) + Additions(AppKind, IdsIn(d, AppKind))
            + Additions(AreaKind, IdsIn(d, AreaKind))
  {
    var c, a, r := Part(d, ComponentKind), Part(d, AppKind), Part(d, AreaKind);
    EventsConcat(s, c + a, r);
    EventsConcat(s, c, a);
    PartEvents(s, d, ComponentKind);
    PartEvents(Run(s, c), d, AppKind);
    PartEvents(Run(s, c + a), d, AreaKind);
  }

  /** What a diff queues, in order. */
  lemma DiffEvents(s: State, d: Diff)
    ensures EventsOfRun(s, DiffOps(d)) == EventsOfDiff(s, d)
  {
    EventsConcat(s, RemoveOps(d.remove), AddOps(d));
    RemovalEvents(s, d.remove);
    DiffAdditionEvents(Run(s, RemoveOps(d.remove)), d);
    Reassociate(Removals(s, d.remove), Additions(ComponentKind, IdsIn(d, ComponentKind)),
                Additions(AppKind, IdsIn(d, AppKind)), Additions(AreaKind, IdsIn(d, AreaKind)));
  }

  lemma Reassociate<T>(a: seq<T>, b: seq<T>, c: seq<T>, d: seq<T>)
    ensures a + (b + c + d) == a + b + c + d
  {
  }
}
