/** The mutable registry, its event channel and its write guard. */
module TopologyStore {
  import opened Sequences
  import opened IndexMaps
  import opened Entities
  import opened ReverseIndex
  import opened TopologyModel
  import opened TopologyEvents

  /** `entry(key).or_default().insert(id)` on one reverse index. */
  method EntryInsert(index: Buckets, key: Id, id: Id) returns (r: Buckets)
    ensures r == BucketInsert(index, key, id)
  {
    r := index;
    if key !in r {
      r := r[key := []];
    }
    r := r[key := Insert(r[key], id)];
  }

  /** Takes an id out of one bucket of a reverse index; an emptied bucket goes. */
  method ShiftRemove(index: Buckets, key: Id, id: Id) returns (r: Buckets)
    ensures r == BucketRemove(index, key, id)
  {
    r := index;
    if key in r {
      r := r[key := Without(r[key], id)];
      if r[key] == [] {
        r := r - {key};
      }
    }
  }

  class TopologyState {
    var components: IndexMap<Component>
    var apps: IndexMap<App>
    var areas: IndexMap<Area>
    var appsByComponent: Buckets
    var componentsByArea: Buckets
    var appsByArea: Buckets

    function View(): State
      reads this
    {
      State(components, apps, areas, appsByComponent, componentsByArea, appsByArea)
    }

    constructor ()
      ensures View() == EMPTY
    {
      components, apps, areas := IndexMap([], map[]), IndexMap([], map[]), IndexMap([], map[]);
      appsByComponent, componentsByArea, appsByArea := map[], map[], map[];
    }

    method InsertComponent(id: Id, component: Component)
      modifies this
      ensures View() == TopologyModel.InsertComponent(old(View()), id, component)
    {
      if component.areaId.Some? {
        componentsByArea := EntryInsert(componentsByArea, component.areaId.value, id);
      }
      components := MapInsert(components, id, component);
    }

    method RemoveComponent(id: Id) returns (removed: Option<Component>)
      modifies this
      ensures View() == DeleteComponent(old(View()), id)
      ensures removed == Find(old(components), Some(id))
    {
      if id !in components.entries {
        return None;
      }
      var component := components.entries[id];
      components := MapRemove(components, id);
      if component.areaId.Some? {
        componentsByArea := ShiftRemove(componentsByArea, component.areaId.value, id);
      }
      return Some(component);
    }

    method InsertApp(id: Id, app: App)
      modifies this
      ensures View() == TopologyModel.InsertApp(old(View()), id, app)
    {
      appsByComponent := EntryInsert(appsByComponent, app.hostId, id);
      if app.areaId.Some? {
        appsByArea := EntryInsert(appsByArea, app.areaId.value, id);
      }
      apps := MapInsert(apps, id, app);
    }

    method RemoveApp(id: Id) returns (removed: Option<App>)
      modifies this
      ensures View() == DeleteApp(old(View()), id)
      ensures removed == Find(old(apps), Some(id))
    {
      if id !in apps.entries {
        return None;
      }
      var app := apps.entries[id];
      apps := MapRemove(apps, id);
      appsByComponent := ShiftRemove(appsByComponent, app.hostId, id);
      if app.areaId.Some? {
        appsByArea := ShiftRemove(appsByArea, app.areaId.value, id);
      }
      return Some(app);
    }

    method InsertArea(id: Id, area: Area)
      modifies this
      ensures View() == TopologyModel.InsertArea(old(View()), id, area)
    {
      areas := MapInsert(areas, id, area);
    }

    method RemoveArea(id: Id) returns (removed: Option<Area>)
      modifies this
      ensures View() == DeleteArea(old(View()), id)
      ensures removed == Find(old(areas), Some(id))
    {
      if id !in areas.entries {
        return None;
      }
      var area := areas.entries[id];
      areas := MapRemove(areas, id);
      componentsByArea := componentsByArea - {id};
      appsByArea := appsByArea - {id};
      return Some(area);
    }
  }

  /** The sending half of the broadcast channel, with everything it has sent. */
  class EventChannel {
    var sent: seq<TopologyEvent>

    constructor ()
      ensures sent == []
    {
      sent := [];
    }

    method Send(event: TopologyEvent)
      modifies this
      ensures sent == old(sent) + [event]
    {
      sent := sent + [event];
    }
  }

  /** Mutates at once, and keeps the events for when it is dropped. */
  class TopologyWriteGuard {
    const state: TopologyState
    const events: EventChannel
    var pending: seq<TopologyEvent>

    constructor (state: TopologyState, events: EventChannel)
      ensures this.state == state && this.events == events && pending == []
    {
      this.state, this.events := state, events;
      pending := [];
    }

    /** The mutation and its events, as the model has them. */
    twostate predicate Did(op: Op)
      reads this, state
    {
      && state.View() == Apply(old(state.View()), op)
      && pending == old(pending) + EventsOf(old(state.View()), op)
    }

    method AddComponent(component: Component)
      modifies this, state
      ensures Did(Op.AddComponent(component))
      ensures pending == old(pending) + [Added(EntityRef(ComponentKind, component.id))]
    {
      state.InsertComponent(component.id, component);
      pending := pending + [Added(EntityRef(ComponentKind, component.id))];
    }

    method AddApp(app: App)
      modifies this, state
      ensures Did(Op.AddApp(app))
      ensures pending == old(pending) + [Added(EntityRef(AppKind, app.id))]
    {
      state.InsertApp(app.id, app);
      pending := pending + [Added(EntityRef(AppKind, app.id))];
    }

    method AddArea(area: Area)
      modifies this, state
      ensures Did(Op.AddArea(area))
      ensures pending == old(pending) + [Added(EntityRef(AreaKind, area.id))]
    {
      state.InsertArea(area.id, area);
      pending := pending + [Added(EntityRef(AreaKind, area.id))];
    }

    method RemoveComponent(id: Id)
      modifies this, state
      ensures Did(Op.RemoveComponent(id))
      ensures pending == old(pending)
                         + if id in old(state.components.entries) then [Removed(EntityRef(ComponentKind, id))] else []
    {
      var removed := state.RemoveComponent(id);
      if removed.Some? {
        pending := pending + [Removed(EntityRef(ComponentKind, id))];
      }
    }

    method RemoveApp(id: Id)
      modifies this, state
      ensures Did(Op.RemoveApp(id))
      ensures pending == old(pending)
                         + if id in old(state.apps.entries) then [Removed(EntityRef(AppKind, id))] else []
    {
      var removed := state.RemoveApp(id);
      if removed.Some? {
        pending := pending + [Removed(EntityRef(AppKind, id))];
      }
    }

    method RemoveArea(id: Id)
      modifies this, state
      ensures Did(Op.RemoveArea(id))
      ensures pending == old(pending)
                         + if id in old(state.areas.entries) then [Removed(EntityRef(AreaKind, id))] else []
    {
      var removed := state.RemoveArea(id);
      if removed.Some? {
        pending := pending + [Removed(EntityRef(AreaKind, id))];
      }
    }

    /** Flushes the events one by one; the lock is released only afterwards. */
    method Drop()
      modifies this, events
      ensures pending == [] && events.sent == old(events.sent) + old(pending)
    {
      while pending != []
        invariant events.sent + pending == old(events.sent) + old(pending)
        decreases |pending|
      {
        var event := pending[0];
        pending := pending[1..];
        events.Send(event);
      }
    }
  }
}
