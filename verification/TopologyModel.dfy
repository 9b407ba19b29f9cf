/**
 The topology registry as a value: six maps, the operations of the write guard,
 and the queries of the read guard.
 */
module TopologyModel {
  import opened Sequences
  import opened IndexMaps
  import opened Entities
  import opened ReverseIndex

  datatype State = State(
    components: IndexMap<Component>,
    apps: IndexMap<App>,
    areas: IndexMap<Area>,
    appsByComponent: Buckets,
    componentsByArea: Buckets,
    appsByArea: Buckets)

  const EMPTY := State(IndexMap([], map[]), IndexMap([], map[]), IndexMap([], map[]), map[], map[], map[])

  datatype Op =
    | AddComponent(component: Component)
    | AddApp(app: App)
    | AddArea(area: Area)
    | RemoveComponent(id: Id)
    | RemoveApp(id: Id)
    | RemoveArea(id: Id)

  /** The entity an operation is about. */
  function RefOf(op: Op): EntityRef {
    match op
    case AddComponent(c) => EntityRef(ComponentKind, c.id)
    case AddApp(a) => EntityRef(AppKind, a.id)
    case AddArea(r) => EntityRef(AreaKind, r.id)
    case RemoveComponent(id) => EntityRef(ComponentKind, id)
    case RemoveApp(id) => EntityRef(AppKind, id)
    case RemoveArea(id) => EntityRef(AreaKind, id)
  }

  predicate IsAdd(op: Op) {
    op.AddComponent? || op.AddApp? || op.AddArea?
  }

  predicate Live(s: State, ref: EntityRef) {
    match ref.kind
    case ComponentKind => ref.id in s.components.entries
    case AppKind => ref.id in s.apps.entries
    case AreaKind => ref.id in s.areas.entries
  }

  // ---- Operations

  function InsertComponent(s: State, id: Id, c: Component): State {
    s.(components := MapInsert(s.components, id, c),
       componentsByArea :=
         if c.areaId.Some? then BucketInsert(s.componentsByArea, c.areaId.value, id) else s.componentsByArea)
  }

  function DeleteComponent(s: State, id: Id): State {
    if id !in s.components.entries then s
    else
      var areaId := s.components.entries[id].areaId;
      s.(components := MapRemove(s.components, id),
         componentsByArea :=
           if areaId.Some? then BucketRemove(s.componentsByArea, areaId.value, id) else s.componentsByArea)
  }

  function InsertApp(s: State, id: Id, a: App): State {
    s.(apps := MapInsert(s.apps, id, a),
       appsByComponent := BucketInsert(s.appsByComponent, a.hostId, id),
       appsByArea := if a.areaId.Some? then BucketInsert(s.appsByArea, a.areaId.value, id) else s.appsByArea)
  }

  function DeleteApp(s: State, id: Id): State {
    if id !in s.apps.entries then s
    else
      var app := s.apps.entries[id];
      s.(apps := MapRemove(s.apps, id),
         appsByComponent := BucketRemove(s.appsByComponent, app.hostId, id),
         appsByArea := if app.areaId.Some? then BucketRemove(s.appsByArea, app.areaId.value, id) else s.appsByArea)
  }

  function InsertArea(s: State, id: Id, r: Area): State {
    s.(areas := MapInsert(s.areas, id, r))
  }

  /** Drops the buckets of the area; its members stay, and keep naming it. */
  function DeleteArea(s: State, id: Id): State {
    if id !in s.areas.entries then s
    else
      s.(areas := MapRemove(s.areas, id),
         componentsByArea := s.componentsByArea - {id},
         appsByArea := s.appsByArea - {id})
  }

  function Apply(s: State, op: Op): State {
    match op
    case AddComponent(c) => InsertComponent(s, c.id, c)
    case AddApp(a) => InsertApp(s, a.id, a)
    case AddArea(r) => InsertArea(s, r.id, r)
    case RemoveComponent(id) => DeleteComponent(s, id)
    case RemoveApp(id) => DeleteApp(s, id)
    case RemoveArea(id) => DeleteArea(s, id)
  }

  function Run(s: State, ops: seq<Op>): State {
    if ops == [] then s else Apply(Run(s, ops[..|ops| - 1]), ops[|ops| - 1])
  }

  lemma {:induction false} RunConcat(s: State, a: seq<Op>, b: seq<Op>)
    ensures Run(s, a + b) == Run(Run(s, a), b)
  {
    if b == [] {
      assert a + b == a;
    } else {
      RunConcat(s, a, b[..|b| - 1]);
      assert (a + b)[..|a + b| - 1] == a + b[..|b| - 1];
    }
  }

  lemma RunOne(s: State, op: Op)
    ensures Run(s, [op]) == Apply(s, op)
  {
    assert [op][..0] == [];
  }

  // ---- Queries

  function GetComponent(s: State, id: Id): Result<Component, EntityRef> {
    if id in s.components.entries then Ok(s.components.entries[id]) else Err(EntityRef(ComponentKind, id))
  }

  function GetApp(s: State, id: Id): Result<App, EntityRef> {
    if id in s.apps.entries then Ok(s.apps.entries[id]) else Err(EntityRef(AppKind, id))
  }

  function GetArea(s: State, id: Id): Result<Area, EntityRef> {
    if id in s.areas.entries then Ok(s.areas.entries[id]) else Err(EntityRef(AreaKind, id))
  }

  function AppsOfComponent(s: State, componentId: Id): seq<App> {
    Resolve(Bucket(s.appsByComponent, componentId), s.apps.entries)
  }

  function ComponentsOfArea(s: State, areaId: Id): seq<Component> {
    Resolve(Bucket(s.componentsByArea, areaId), s.components.entries)
  }

  function AppsOfArea(s: State, areaId: Id): seq<App> {
    Resolve(Bucket(s.appsByArea, areaId), s.apps.entries)
  }

  function ComponentOfApp(s: State, appId: Id): Result<Option<Component>, EntityRef> {
    if appId in s.apps.entries then Ok(Find(s.components, Some(s.apps.entries[appId].hostId)))
    else Err(EntityRef(AppKind, appId))
  }

  function AreaOfComponent(s: State, componentId: Id): Result<Option<Area>, EntityRef> {
    if componentId in s.components.entries then Ok(Find(s.areas, s.components.entries[componentId].areaId))
    else Err(EntityRef(ComponentKind, componentId))
  }

  function AreaOfApp(s: State, appId: Id): Result<Option<Area>, EntityRef> {
    if appId in s.apps.entries then Ok(Find(s.areas, s.apps.entries[appId].areaId))
    else Err(EntityRef(AppKind, appId))
  }

  // ---- The three reverse indexes

  datatype Relation = AppHost | ComponentArea | AppArea

  ghost function HostClaims(apps: map<Id, App>): map<Id, Id> {
    map id | id in apps :: apps[id].hostId
  }

  ghost function AppAreaClaims(apps: map<Id, App>): map<Id, Id> {
    map id | id in apps && apps[id].areaId.Some? :: apps[id].areaId.value
  }

  ghost function ComponentAreaClaims(components: map<Id, Component>): map<Id, Id> {
    map id | id in components && components[id].areaId.Some? :: components[id].areaId.value
  }

  /** One reverse index together with the table it indexes. */
  ghost function IndexFor(s: State, rel: Relation): Index {
    match rel
    case AppHost => Index(s.apps.keys, HostClaims(s.apps.entries), s.appsByComponent)
    case ComponentArea => Index(s.components.keys, ComponentAreaClaims(s.components.entries), s.componentsByArea)
    case AppArea => Index(s.apps.keys, AppAreaClaims(s.apps.entries), s.appsByArea)
  }

  /** What an operation does to that index. */
  function IndexOpOf(s: State, rel: Relation, op: Op): IndexOp {
    match (rel, op)
    case (AppHost, AddApp(a)) => Put(a.id, Some(a.hostId))
    case (AppHost, RemoveApp(id)) => Delete(id)
    case (AppArea, AddApp(a)) => Put(a.id, a.areaId)
    case (AppArea, RemoveApp(id)) => Delete(id)
    case (AppArea, RemoveArea(id)) => if id in s.areas.entries then Clear(id) else Skip
    case (ComponentArea, AddComponent(c)) => Put(c.id, c.areaId)
    case (ComponentArea, RemoveComponent(id)) => Delete(id)
    case (ComponentArea, RemoveArea(id)) => if id in s.areas.entries then Clear(id) else Skip
    case _ => Skip
  }

  ghost predicate MapsValid(s: State) {
    MapValid(s.components) && MapValid(s.apps) && MapValid(s.areas)
  }

  /** Each operation is, on each index, the step `IndexOpOf` says. */
  lemma ApplyOnIndex(s: State, rel: Relation, op: Op)
    requires MapsValid(s)
    ensures IndexFor(Apply(s, op), rel) == Step(IndexFor(s, rel), IndexOpOf(s, rel, op))
  {
    match rel
    case AppHost => ApplyOnHostIndex(s, op);
    case ComponentArea => ApplyOnComponentAreaIndex(s, op);
    case AppArea => ApplyOnAppAreaIndex(s, op);
  }

  /** A key under which an entity with this area id is filed, if any. */
  function Filed(claims: map<Id, Id>, id: Id, claim: Option<Id>): map<Id, Id> {
    if claim.Some? then claims[id := claim.value] else claims - {id}
  }

  lemma AppClaims(apps: map<Id, App>, a: App)
    ensures HostClaims(apps[a.id := a]) == HostClaims(apps)[a.id := a.hostId]
    ensures AppAreaClaims(apps[a.id := a]) == Filed(AppAreaClaims(apps), a.id, a.areaId)
  {
  }

  lemma ComponentClaims(components: map<Id, Component>, c: Component)
    ensures ComponentAreaClaims(components[c.id := c]) == Filed(ComponentAreaClaims(components), c.id, c.areaId)
  {
  }

  lemma ClaimsWithout(apps: map<Id, App>, components: map<Id, Component>, ids: set<Id>)
    ensures HostClaims(apps - ids) == HostClaims(apps) - ids
    ensures AppAreaClaims(apps - ids) == AppAreaClaims(apps) - ids
    ensures ComponentAreaClaims(components - ids) == ComponentAreaClaims(components) - ids
  {
  }

  lemma ApplyOnHostIndex(s: State, op: Op)
    requires MapsValid(s)
    ensures IndexFor(Apply(s, op), AppHost) == Step(IndexFor(s, AppHost), IndexOpOf(s, AppHost, op))
  {
    match op
    case AddApp(a) => AppClaims(s.apps.entries, a);
    case RemoveApp(id) =>
      ClaimsWithout(s.apps.entries, s.components.entries, {id});
      if id !in s.apps.entries {
        RemoveMissing(s.apps, id);
      }
    case _ =>
  }

  lemma ApplyOnComponentAreaIndex(s: State, op: Op)
    requires MapsValid(s)
    ensures IndexFor(Apply(s, op), ComponentArea)
         == Step(IndexFor(s, ComponentArea), IndexOpOf(s, ComponentArea, op))
  {
    match op
    case AddComponent(c) => ComponentClaims(s.components.entries, c);
    case RemoveComponent(id) =>
      ClaimsWithout(s.apps.entries, s.components.entries, {id});
      if id !in s.components.entries {
        RemoveMissing(s.components, id);
      }
    case _ =>
  }

  lemma ApplyOnAppAreaIndex(s: State, op: Op)
    requires MapsValid(s)
    ensures IndexFor(Apply(s, op), AppArea) == Step(IndexFor(s, AppArea), IndexOpOf(s, AppArea, op))
  {
    match op
    case AddApp(a) => AppClaims(s.apps.entries, a);
    case RemoveApp(id) =>
      ClaimsWithout(s.apps.entries, s.components.entries, {id});
      if id !in s.apps.entries {
        RemoveMissing(s.apps, id);
      }
    case _ =>
  }

  lemma ApplyMapsValid(s: State, op: Op)
    requires MapsValid(s)
    ensures MapsValid(Apply(s, op))
  {
    match op
    case AddComponent(c) => StillValid(s.components, c.id, c);
    case AddApp(a) => StillValid(s.apps, a.id, a);
    case AddArea(r) => StillValid(s.areas, r.id, r);
    case RemoveComponent(id) => if id in s.components.entries { StillValid(s.components, id, s.components.entries[id]); }
    case RemoveApp(id) => if id in s.apps.entries { StillValid(s.apps, id, s.apps.entries[id]); }
    case RemoveArea(id) => if id in s.areas.entries { StillValid(s.areas, id, s.areas.entries[id]); }
  }
}
