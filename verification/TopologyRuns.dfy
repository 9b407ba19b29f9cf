/** What the topology keeps over whole runs of write-guard operations. */
module TopologyRuns {
  import opened Sequences
  import opened IndexMaps
  import opened Entities
  import opened ReverseIndex
  import opened TopologyModel

  // ---- Invariant of every reachable state, re-homing included

  /** Every table key is the id of its entity. */
  ghost predicate KeyedById(s: State) {
    && (forall id :: id in s.components.entries ==> s.components.entries[id].id == id)
    && (forall id :: id in s.apps.entries ==> s.apps.entries[id].id == id)
    && (forall id :: id in s.areas.entries ==> s.areas.entries[id].id == id)
  }

  ghost predicate Inv(s: State) {
    && MapsValid(s)
    && KeyedById(s)
    && (forall rel: Relation :: WellFormed(IndexFor(s, rel)))
    && Covers(IndexFor(s, AppHost))
  }

  lemma ApplyKeepsInv(s: State, op: Op)
    requires Inv(s)
    ensures Inv(Apply(s, op))
  {
    ApplyMapsValid(s, op);
    forall rel: Relation ensures WellFormed(IndexFor(Apply(s, op), rel)) {
      ApplyOnIndex(s, rel, op);
      StepWellFormed(IndexFor(s, rel), IndexOpOf(s, rel, op));
    }
    ApplyOnIndex(s, AppHost, op);
    StepKeepsCovers(IndexFor(s, AppHost), IndexOpOf(s, AppHost, op));
  }

  lemma StepKeepsCovers(ix: Index, op: IndexOp)
    requires Covers(ix) && !op.Clear?
    ensures Covers(Step(ix, op))
  {
    match op
    case Put(id, claim) =>
      forall key, x | Claims(Step(ix, op).claims, x, key) ensures Listed(Step(ix, op).buckets, key, x) {
        PutListed(ix, id, claim, key, x);
        assert x != id ==> Claims(ix.claims, x, key);
      }
    case Delete(id) => DeleteKeeps(ix, id);
    case _ =>
  }

  lemma {:induction false} RunKeepsInv(s: State, ops: seq<Op>)
    requires Inv(s)
    ensures Inv(Run(s, ops))
  {
    if ops != [] {
      RunKeepsInv(s, ops[..|ops| - 1]);
      ApplyKeepsInv(Run(s, ops[..|ops| - 1]), ops[|ops| - 1]);
    }
  }

  /** Over all runs: keys are ids, no bucket is empty or repeats an id, every live app is in its host's bucket. */
  lemma ReachableInv(ops: seq<Op>)
    ensures Inv(Run(EMPTY, ops))
  {
    RunKeepsInv(EMPTY, ops);
  }

  lemma {:induction false} ResolveNoDup<V>(ids: seq<Id>, m: map<Id, V>)
    requires NoDup(ids)
    requires forall i, j :: i in m && j in m && i != j ==> m[i] != m[j]
    ensures NoDup(Resolve(ids, m))
  {
    if ids != [] {
      var front, last := ids[..|ids| - 1], ids[|ids| - 1];
      ResolveNoDup(front, m);
      if last in m {
        forall k | k in front && k in m ensures m[k] != m[last] {
        }
        assert m[last] !in Resolve(front, m);
      }
    }
  }

  /** Relationship queries yield live entities under their own ids, each once. */
  lemma QueriesYieldLive(s: State, key: Id)
    requires Inv(s)
    ensures NoDup(AppsOfComponent(s, key)) && NoDup(AppsOfArea(s, key)) && NoDup(ComponentsOfArea(s, key))
    ensures forall a :: a in AppsOfComponent(s, key) + AppsOfArea(s, key) ==> GetApp(s, a.id) == Ok(a)
    ensures forall c :: c in ComponentsOfArea(s, key) ==> GetComponent(s, c.id) == Ok(c)
  {
    assert WellFormed(IndexFor(s, AppHost)) && WellFormed(IndexFor(s, AppArea))
        && WellFormed(IndexFor(s, ComponentArea));
    ResolveNoDup(Bucket(s.appsByComponent, key), s.apps.entries);
    ResolveNoDup(Bucket(s.appsByArea, key), s.apps.entries);
    ResolveNoDup(Bucket(s.componentsByArea, key), s.components.entries);
  }

  /** An app is always listed by the component it says it is located on. */
  lemma HostListsItsApps(s: State, appId: Id)
    requires Inv(s) && appId in s.apps.entries
    ensures s.apps.entries[appId] in AppsOfComponent(s, s.apps.entries[appId].hostId)
    ensures forall c: Component :: ComponentOfApp(s, appId) == Ok(Some(c)) ==> s.apps.entries[appId] in AppsOfComponent(s, c.id)
  {
    var host := s.apps.entries[appId].hostId;
    assert Claims(HostClaims(s.apps.entries), appId, host);
    assert Listed(s.appsByComponent, host, appId);
  }

  /** Lookups find what is live and name what is not. */
  lemma LookupsAnswer(s: State, id: Id)
    ensures forall c :: GetComponent(s, id) == Ok(c) <==> id in s.components.entries && s.components.entries[id] == c
    ensures forall a :: GetApp(s, id) == Ok(a) <==> id in s.apps.entries && s.apps.entries[id] == a
    ensures forall r :: GetArea(s, id) == Ok(r) <==> id in s.areas.entries && s.areas.entries[id] == r
    ensures GetComponent(s, id) == Err(EntityRef(ComponentKind, id)) <==> id !in s.components.entries
    ensures GetApp(s, id) == Err(EntityRef(AppKind, id)) <==> id !in s.apps.entries
    ensures GetArea(s, id) == Err(EntityRef(AreaKind, id)) <==> id !in s.areas.entries
  {
  }

  /** The area or host of an entity is the live one it names, if any; only an entity that is not live is an error. */
  lemma RelationsAnswer(s: State, id: Id)
    ensures forall c :: ComponentOfApp(s, id) == Ok(Some(c)) <==>
              id in s.apps.entries && GetComponent(s, s.apps.entries[id].hostId) == Ok(c)
    ensures forall r :: AreaOfApp(s, id) == Ok(Some(r)) <==>
              id in s.apps.entries && s.apps.entries[id].areaId.Some? && GetArea(s, s.apps.entries[id].areaId.value) == Ok(r)
    ensures forall r :: AreaOfComponent(s, id) == Ok(Some(r)) <==>
              && id in s.components.entries && s.components.entries[id].areaId.Some?
              && GetArea(s, s.components.entries[id].areaId.value) == Ok(r)
    ensures ComponentOfApp(s, id).Err? == AreaOfApp(s, id).Err? == (id !in s.apps.entries)
    ensures id !in s.apps.entries ==>
              ComponentOfApp(s, id) == Err(EntityRef(AppKind, id)) && AreaOfApp(s, id) == Err(EntityRef(AppKind, id))
    ensures AreaOfComponent(s, id).Err? == (id !in s.components.entries)
    ensures id !in s.components.entries ==> AreaOfComponent(s, id) == Err(EntityRef(ComponentKind, id))
  {
  }

  // ---- Re-homing

  /** An add that overwrites a live id with another host. */
  predicate ChangesHost(s: State, op: Op) {
    op.AddApp? && op.app.id in s.apps.entries && s.apps.entries[op.app.id].hostId != op.app.hostId
  }

  /** `old` named an area and `new` names another one, or none. */
  predicate LeavesArea(old_: Option<Id>, new_: Option<Id>) {
    old_.Some? && old_ != new_
  }

  predicate ChangesArea(s: State, rel: Relation, op: Op) {
    match rel
    case AppHost => false
    case ComponentArea =>
      op.AddComponent? && op.component.id in s.components.entries
      && LeavesArea(s.components.entries[op.component.id].areaId, op.component.areaId)
    case AppArea =>
      op.AddApp? && op.app.id in s.apps.entries && LeavesArea(s.apps.entries[op.app.id].areaId, op.app.areaId)
  }

  /** The operation overwrites a live id so that its old bucket goes stale. */
  predicate Rehoming(s: State, rel: Relation, op: Op) {
    if rel.AppHost? then ChangesHost(s, op) else ChangesArea(s, rel, op)
  }

  lemma RehomingIsRehomes(s: State, rel: Relation, op: Op)
    ensures IndexOpOf(s, rel, op).Put?
            ==> (Rehoming(s, rel, op)
                 <==> Rehomes(IndexFor(s, rel), IndexOpOf(s, rel, op).id, IndexOpOf(s, rel, op).claim))
    ensures !IndexOpOf(s, rel, op).Put? ==> !Rehoming(s, rel, op)
  {
  }

  ghost predicate NeverRehomes(s: State, rel: Relation, ops: seq<Op>) {
    forall n :: 0 <= n < |ops| ==> !Rehoming(Run(s, ops[..n]), rel, ops[n])
  }

  // ---- Apps of a component

  function HostedOn(componentId: Id): App -> bool {
    (a: App) => a.hostId == componentId
  }

  /** The plain scan of the app table that the host index is there to replace. */
  ghost function HostScan(s: State, componentId: Id): seq<App> {
    Filter(Values(s.apps), HostedOn(componentId))
  }

  ghost predicate HostQueriesExact(s: State) {
    forall c :: AppsOfComponent(s, c) == HostScan(s, c)
  }

  lemma ExactHostQueries(s: State)
    requires MapsValid(s) && Exact(IndexFor(s, AppHost))
    ensures HostQueriesExact(s)
  {
    forall c ensures AppsOfComponent(s, c) == HostScan(s, c) {
      ResolveFilter(s.apps.keys, s.apps.entries, Claimant(HostClaims(s.apps.entries), c), HostedOn(c));
      assert Bucket(s.appsByComponent, c) == Scan(IndexFor(s, AppHost), c);
    }
  }

  lemma HostStepExact(s: State, op: Op)
    requires Inv(s) && Exact(IndexFor(s, AppHost)) && !ChangesHost(s, op)
    ensures Exact(IndexFor(Apply(s, op), AppHost))
  {
    var ix, step := IndexFor(s, AppHost), IndexOpOf(s, AppHost, op);
    ApplyOnIndex(s, AppHost, op);
    match step
    case Put(id, claim) =>
      assert WellFormed(ix);
      RehomingIsRehomes(s, AppHost, op);
      PutKeepsExactIff(ix, id, claim);
    case Delete(id) =>
      assert WellFormed(ix);
      DeleteKeepsExact(ix, id);
    case _ =>
  }

  lemma {:induction false} HostIndexExact(ops: seq<Op>)
    requires NeverRehomes(EMPTY, AppHost, ops)
    ensures Exact(IndexFor(Run(EMPTY, ops), AppHost))
  {
    if ops != [] {
      var front := ops[..|ops| - 1];
      forall n | 0 <= n < |front| ensures !Rehoming(Run(EMPTY, front[..n]), AppHost, front[n]) {
        assert front[..n] == ops[..n];
      }
      HostIndexExact(front);
      ReachableInv(front);
      HostStepExact(Run(EMPTY, front), ops[|ops| - 1]);
    }
  }

  /** Over every run without re-homing, the indexed query is the ordered plain scan. */
  lemma HostQueriesOverRuns(ops: seq<Op>)
    requires NeverRehomes(EMPTY, AppHost, ops)
    ensures HostQueriesExact(Run(EMPTY, ops))
  {
    HostIndexExact(ops);
    ReachableInv(ops);
    ExactHostQueries(Run(EMPTY, ops));
  }

  /**
   Adding an app keeps the host queries exact exactly when it does not change
   the host of a live app: otherwise the old host goes on listing it.
   */
  lemma AddAppKeepsHostQueriesIff(s: State, app: App)
    requires Inv(s) && Exact(IndexFor(s, AppHost))
    ensures HostQueriesExact(Apply(s, AddApp(app))) <==> !ChangesHost(s, AddApp(app))
  {
    var after := Apply(s, AddApp(app));
    ApplyKeepsInv(s, AddApp(app));
    if ChangesHost(s, AddApp(app)) {
      var oldHost := s.apps.entries[app.id].hostId;
      assert Claims(HostClaims(s.apps.entries), app.id, oldHost);
      assert Listed(s.appsByComponent, oldHost, app.id);
      assert app.id in Bucket(after.appsByComponent, oldHost);
      assert app in AppsOfComponent(after, oldHost);
      assert app !in HostScan(after, oldHost);
    } else {
      HostStepExact(s, AddApp(app));
      ExactHostQueries(after);
    }
  }

  /** The smallest run that re-homes: the old host lists an app that says it is elsewhere. */
  lemma RehomedAppStaysListed()
    ensures var app := App("a", "", "new", None, [], None);
            var s := Run(EMPTY, [AddApp(App("a", "", "old", None, [], None)), AddApp(app)]);
            app in AppsOfComponent(s, "old") && app in AppsOfComponent(s, "new")
  {
    var first := AddApp(App("a", "", "old", None, [], None));
    var app := App("a", "", "new", None, [], None);
    var ops := [first, AddApp(app)];
    assert ops[..|ops| - 1] == [first] && [first][..0] == [];
    assert Run(EMPTY, [first]) == Apply(EMPTY, first);
    var s := Run(EMPTY, ops);
    assert Bucket(s.appsByComponent, "old") == ["a"] && Bucket(s.appsByComponent, "new") == ["a"];
    assert s.apps.entries["a"] == app;
  }

  // ---- Members of an area

  lemma SoundStep(s: State, rel: Relation, op: Op)
    requires Inv(s) && Sound(IndexFor(s, rel)) && !Rehoming(s, rel, op)
    ensures Sound(IndexFor(Apply(s, op), rel))
  {
    var ix, step := IndexFor(s, rel), IndexOpOf(s, rel, op);
    ApplyOnIndex(s, rel, op);
    match step
    case Put(id, claim) =>
      RehomingIsRehomes(s, rel, op);
      forall key, x | Listed(Step(ix, step).buckets, key, x) ensures Claims(Step(ix, step).claims, x, key) {
        PutListed(ix, id, claim, key, x);
        assert Listed(ix.buckets, key, x) ==> Claims(ix.claims, x, key);
      }
    case Delete(id) => DeleteKeeps(ix, id);
    case Clear(key) => ClearKeepsSound(ix, key);
    case Skip =>
  }

  /** Over every run without re-homing, removals of occupied areas included, buckets hold only live members. */
  lemma {:induction false} SoundOverRuns(rel: Relation, ops: seq<Op>)
    requires NeverRehomes(EMPTY, rel, ops)
    ensures Sound(IndexFor(Run(EMPTY, ops), rel))
  {
    if ops != [] {
      var front := ops[..|ops| - 1];
      forall n | 0 <= n < |front| ensures !Rehoming(Run(EMPTY, front[..n]), rel, front[n]) {
        assert front[..n] == ops[..n];
      }
      SoundOverRuns(rel, front);
      ReachableInv(front);
      SoundStep(Run(EMPTY, front), rel, ops[|ops| - 1]);
    }
  }

  /** Some live component or app names the area. */
  ghost predicate Occupied(s: State, rel: Relation, areaId: Id) {
    exists id :: Claims(IndexFor(s, rel).claims, id, areaId)
  }

  predicate RemovesArea(s: State, op: Op) {
    op.RemoveArea? && op.id in s.areas.entries
  }

  /** An add gives an area to a live entity that had none, behind a later member in the table. */
  ghost predicate JoinsOutOfOrder(s: State, rel: Relation, op: Op) {
    var step := IndexOpOf(s, rel, op);
    step.Put? && !KeepsOrder(IndexFor(s, rel), step.id, step.claim)
  }

  /**
   One operation keeps an index equal to the ordered scan exactly when it
   neither re-homes, nor removes an occupied area, nor joins out of order.
   */
  lemma StepKeepsExactIff(s: State, rel: Relation, op: Op)
    requires Inv(s) && Exact(IndexFor(s, rel))
    ensures Exact(IndexFor(Apply(s, op), rel))
       <==> && !Rehoming(s, rel, op)
            && !JoinsOutOfOrder(s, rel, op)
            && !(RemovesArea(s, op) && !rel.AppHost? && Occupied(s, rel, op.id))
  {
    var ix, step := IndexFor(s, rel), IndexOpOf(s, rel, op);
    ApplyOnIndex(s, rel, op);
    RehomingIsRehomes(s, rel, op);
    assert WellFormed(ix);
    match step
    case Put(id, claim) => PutKeepsExactIff(ix, id, claim);
    case Delete(id) => DeleteKeepsExact(ix, id);
    case Clear(key) => ClearKeepsExactIff(ix, key);
    case Skip =>
  }

  /** The same without the order: buckets as sets. */
  lemma StepKeepsSetExactIff(s: State, rel: Relation, op: Op)
    requires Inv(s) && SetExact(IndexFor(s, rel))
    ensures SetExact(IndexFor(Apply(s, op), rel))
       <==> !Rehoming(s, rel, op) && !(RemovesArea(s, op) && !rel.AppHost? && Occupied(s, rel, op.id))
  {
    var ix, step := IndexFor(s, rel), IndexOpOf(s, rel, op);
    ApplyOnIndex(s, rel, op);
    RehomingIsRehomes(s, rel, op);
    assert WellFormed(ix);
    match step
    case Put(id, claim) => PutKeepsSetExactIff(ix, id, claim);
    case Delete(id) => DeleteKeeps(ix, id);
    case Clear(key) =>
      ClearKeepsSound(ix, key);
      if Occupied(s, rel, key) {
        var id :| Claims(ix.claims, id, key);
        assert !Listed(ix.buckets - {key}, key, id);
      } else {
        forall k, id | Claims(ix.claims, id, k) ensures Listed(ix.buckets - {key}, k, id) {
          assert Listed(ix.buckets, k, id);
        }
      }
    case Skip =>
  }

  ghost predicate KeepsMembers(s: State, rel: Relation, ops: seq<Op>) {
    forall n :: 0 <= n < |ops| ==>
      var before := Run(s, ops[..n]);
      !Rehoming(before, rel, ops[n]) && !(RemovesArea(before, ops[n]) && Occupied(before, rel, ops[n].id))
  }

  ghost predicate NeverJoinsOutOfOrder(s: State, rel: Relation, ops: seq<Op>) {
    forall n :: 0 <= n < |ops| ==> !JoinsOutOfOrder(Run(s, ops[..n]), rel, ops[n])
  }

  lemma {:induction false} AreasExactOverRuns(rel: Relation, ops: seq<Op>)
    requires KeepsMembers(EMPTY, rel, ops)
    ensures SetExact(IndexFor(Run(EMPTY, ops), rel))
    ensures NeverJoinsOutOfOrder(EMPTY, rel, ops) ==> Exact(IndexFor(Run(EMPTY, ops), rel))
  {
    if ops != [] {
      var front, last := ops[..|ops| - 1], ops[|ops| - 1];
      forall n | 0 <= n < |front| ensures front[..n] == ops[..n] && front[n] == ops[n] {
      }
      AreasExactOverRuns(rel, front);
      ReachableInv(front);
      StepKeepsSetExactIff(Run(EMPTY, front), rel, last);
      if NeverJoinsOutOfOrder(EMPTY, rel, ops) {
        StepKeepsExactIff(Run(EMPTY, front), rel, last);
      }
    }
  }

  /** A component that joins an area late is listed last, not where the table has it. */
  lemma LateJoinIsListedLast()
    ensures var a, b := Component("a", "", Some("r"), [], None), Component("b", "", Some("r"), [], None);
            var s := Run(EMPTY, [AddComponent(a.(areaId := None)), AddComponent(b), AddComponent(a)]);
            ComponentsOfArea(s, "r") == [b, a] && Values(s.components) == [a, b]
  {
    var a, b := Component("a", "", Some("r"), [], None), Component("b", "", Some("r"), [], None);
    RunThree(EMPTY, [AddComponent(a.(areaId := None)), AddComponent(b), AddComponent(a)]);
    LateJoin(a, b, "r");
    ResolvePair("a", "b", map["a" := a, "b" := b]);
    ResolvePair("b", "a", map["a" := a, "b" := b]);
  }

  lemma LateJoin(a: Component, b: Component, areaId: Id)
    requires a.id != b.id && a.areaId == Some(areaId) && b.areaId == Some(areaId)
    ensures var s := Apply(Apply(Apply(EMPTY, AddComponent(a.(areaId := None))), AddComponent(b)), AddComponent(a));
            && s.components == IndexMap([a.id, b.id], map[a.id := a, b.id := b])
            && Bucket(s.componentsByArea, areaId) == [b.id, a.id]
  {
    var first := Apply(EMPTY, AddComponent(a.(areaId := None)));
    var second := Apply(first, AddComponent(b));
    assert first.components.keys == [a.id] && first.componentsByArea == map[];
    assert second.components.keys == [a.id, b.id] && Bucket(second.componentsByArea, areaId) == [b.id];
  }

  /** A removed and re-added area has lost its members, though they still belong to it. */
  lemma ReaddedAreaHasLostItsMembers()
    ensures var c, r := Component("c", "", Some("r"), [], None), Area("r", "", [], None);
            var s := Apply(Run(EMPTY, [AddArea(r), AddComponent(c), RemoveArea("r")]), AddArea(r));
            AreaOfComponent(s, "c") == Ok(Some(r)) && ComponentsOfArea(s, "r") == []
  {
    var c, r := Component("c", "", Some("r"), [], None), Area("r", "", [], None);
    RunThree(EMPTY, [AddArea(r), AddComponent(c), RemoveArea("r")]);
  }

  lemma RunThree(s: State, ops: seq<Op>)
    requires |ops| == 3
    ensures Run(s, ops) == Apply(Apply(Apply(s, ops[0]), ops[1]), ops[2])
  {
    assert ops[..2][..1] == [ops[0]] && [ops[0]][..0] == [];
    assert Run(s, ops[..2]) == Apply(Run(s, [ops[0]]), ops[1]);
  }

  lemma ResolvePair<V>(x: Id, y: Id, m: map<Id, V>)
    requires x in m && y in m
    ensures Resolve([x, y], m) == [m[x], m[y]]
  {
    assert [x, y][..1] == [x];
    assert Resolve([x], m) == [m[x]];
  }

  function InArea(areaId: Id): Component -> bool {
    (c: Component) => c.areaId == Some(areaId)
  }

  function AppInArea(areaId: Id): App -> bool {
    (a: App) => a.areaId == Some(areaId)
  }

  /** Over runs that keep members in place, area queries are the ordered plain scans. */
  lemma AreaQueriesOverRuns(ops: seq<Op>, areaId: Id)
    requires KeepsMembers(EMPTY, ComponentArea, ops) && NeverJoinsOutOfOrder(EMPTY, ComponentArea, ops)
    requires KeepsMembers(EMPTY, AppArea, ops) && NeverJoinsOutOfOrder(EMPTY, AppArea, ops)
    ensures var s := Run(EMPTY, ops);
            && ComponentsOfArea(s, areaId) == Filter(Values(s.components), InArea(areaId))
            && AppsOfArea(s, areaId) == Filter(Values(s.apps), AppInArea(areaId))
  {
    var s := Run(EMPTY, ops);
    AreasExactOverRuns(ComponentArea, ops);
    AreasExactOverRuns(AppArea, ops);
    assert Bucket(s.componentsByArea, areaId) == Scan(IndexFor(s, ComponentArea), areaId);
    assert Bucket(s.appsByArea, areaId) == Scan(IndexFor(s, AppArea), areaId);
    ResolveFilter(s.components.keys, s.components.entries,
                  Claimant(ComponentAreaClaims(s.components.entries), areaId), InArea(areaId));
    ResolveFilter(s.apps.keys, s.apps.entries,
                  Claimant(AppAreaClaims(s.apps.entries), areaId), AppInArea(areaId));
  }

  /** With exact members, `contains` and `belongs-to` are mutual inverses on existing areas. */
  lemma AreaQueriesAreInverse(s: State, areaId: Id)
    requires Inv(s) && SetExact(IndexFor(s, ComponentArea)) && SetExact(IndexFor(s, AppArea))
    requires areaId in s.areas.entries
    ensures forall c :: c in s.components.entries ==>
              (s.components.entries[c] in ComponentsOfArea(s, areaId)
               <==> AreaOfComponent(s, c) == Ok(Some(s.areas.entries[areaId])))
    ensures forall a :: a in s.apps.entries ==>
              (s.apps.entries[a] in AppsOfArea(s, areaId) <==> AreaOfApp(s, a) == Ok(Some(s.areas.entries[areaId])))
  {
    forall c | c in s.components.entries
      ensures s.components.entries[c] in ComponentsOfArea(s, areaId)
              <==> AreaOfComponent(s, c) == Ok(Some(s.areas.entries[areaId]))
    {
      assert Listed(s.componentsByArea, areaId, c) == Claims(ComponentAreaClaims(s.components.entries), c, areaId);
    }
    forall a | a in s.apps.entries
      ensures s.apps.entries[a] in AppsOfArea(s, areaId) <==> AreaOfApp(s, a) == Ok(Some(s.areas.entries[areaId]))
    {
      assert Listed(s.appsByArea, areaId, a) == Claims(AppAreaClaims(s.apps.entries), a, areaId);
    }
  }

  // ---- A removed area stays empty

  /** The operation adds a component or an app that names the area. */
  predicate JoinsArea(op: Op, areaId: Id) {
    (op.AddComponent? && op.component.areaId == Some(areaId)) || (op.AddApp? && op.app.areaId == Some(areaId))
  }

  lemma {:induction false} NoBucketWithoutJoin(s: State, areaId: Id, ops: seq<Op>)
    requires areaId !in s.componentsByArea && areaId !in s.appsByArea
    requires forall op :: op in ops ==> !JoinsArea(op, areaId)
    ensures areaId !in Run(s, ops).componentsByArea && areaId !in Run(s, ops).appsByArea
  {
    if ops != [] {
      var front, last := ops[..|ops| - 1], ops[|ops| - 1];
      assert last in ops && forall op :: op in front ==> op in ops;
      NoBucketWithoutJoin(s, areaId, front);
      ApplyMakesNoBucket(Run(s, front), areaId, last);
    }
  }

  lemma ApplyMakesNoBucket(s: State, areaId: Id, op: Op)
    requires areaId !in s.componentsByArea && areaId !in s.appsByArea && !JoinsArea(op, areaId)
    ensures areaId !in Apply(s, op).componentsByArea && areaId !in Apply(s, op).appsByArea
  {
  }

  /**
   After an area is removed its queries are empty, and they stay empty through
   every continuation that adds nothing naming it, even if the area returns.
   */
  lemma RemovedAreaStaysEmpty(s: State, areaId: Id, ops: seq<Op>)
    requires areaId in s.areas.entries
    requires forall op :: op in ops ==> !JoinsArea(op, areaId)
    ensures var later := Run(Apply(s, RemoveArea(areaId)), ops);
            ComponentsOfArea(later, areaId) == [] && AppsOfArea(later, areaId) == []
  {
    NoBucketWithoutJoin(Apply(s, RemoveArea(areaId)), areaId, ops);
  }
}
