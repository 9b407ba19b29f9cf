/** Building a data provider resource by resource, and what the built provider answers. */
module ProviderBuilder {
  import opened Sequences
  import opened IndexMaps
  import opened DataProvider

  /** How a resource was registered, which decides what reads and writes reach it. */
  datatype Adapter = ReadOnlyAdapter | WriteOnlyAdapter | ReadWriteAdapter

  datatype Access = Read | Write

  datatype DataError = NotFound(id: Text) | ReadOnly | Internal(message: Text)

  /** What an adapter answers without asking its resource. */
  function Refusal(adapter: Adapter, access: Access): Option<DataError> {
    match (adapter, access)
    case (ReadOnlyAdapter, Write) => Some(ReadOnly)
    case (WriteOnlyAdapter, Read) => Some(Internal("resource is write-only"))
    case _ => None
  }

  datatype ResourceEntry = ResourceEntry(metadata: Metadata, adapter: Adapter)

  // ---- The builder

  datatype Call =
    | Register(adapter: Adapter, id: Text, name: Text, category: Text, derivedSchema: Text)
    | SetGroups(groups: seq<Text>)
    | SetTags(tags: seq<Text>)
    | SetTranslationId(translationId: Text)
    | SetSchema(schema: Text)

  function NewEntry(adapter: Adapter, id: Text, name: Text, category: Text, schema: Text): ResourceEntry {
    var flags := match adapter
                 case ReadOnlyAdapter => (true, false)
                 case WriteOnlyAdapter => (false, true)
                 case ReadWriteAdapter => (true, true);
    ResourceEntry(Metadata(id, name, category, None, [], [], Some(schema), flags.0, flags.1), adapter)
  }

  /** A setter rewrites the metadata of the last resource, if there is one. */
  function Configure(m: Metadata, call: Call): Metadata {
    match call
    case SetGroups(gs) => m.(groups := gs)
    case SetTags(ts) => m.(tags := ts)
    case SetTranslationId(id) => m.(translationId := Some(id))
    case SetSchema(schema) => m.(schema := Some(schema))
    case _ => m
  }

  function ApplyCall(resources: seq<ResourceEntry>, call: Call): seq<ResourceEntry> {
    if call.Register? then
      resources + [NewEntry(call.adapter, call.id, call.name, call.category, call.derivedSchema)]
    else if resources == [] then []
    else
      var n := |resources| - 1;
      resources[n := resources[n].(metadata := Configure(resources[n].metadata, call))]
  }

  function RunCalls(calls: seq<Call>): seq<ResourceEntry> {
    if calls == [] then [] else ApplyCall(RunCalls(calls[..|calls| - 1]), calls[|calls| - 1])
  }

  function Ids(resources: seq<ResourceEntry>): (ids: seq<Text>)
    ensures |ids| == |resources| && forall i :: 0 <= i < |ids| ==> ids[i] == resources[i].metadata.id
  {
    seq(|resources|, i requires 0 <= i < |resources| => resources[i].metadata.id)
  }

  /** Position `i` is the first whose id repeats an earlier one. */
  ghost predicate FirstRepeat(ids: seq<Text>, i: nat) {
    i < |ids| && ids[i] in ids[..i] && NoDup(ids[..i])
  }

  /** All resources, found under their ids and kept in registration order. */
  ghost predicate BuiltFrom(p: BuiltDataProvider, all: seq<ResourceEntry>) {
    MapValid(p.resources) && p.resources.keys == Ids(all) && Values(p.resources) == all
  }

  class DataProviderBuilder {
    var resources: seq<ResourceEntry>

    constructor ()
      ensures resources == []
    {
      resources := [];
    }

    method ReadData(id: Text, name: Text, category: Text, schema: Text)
      modifies this
      ensures resources == ApplyCall(old(resources), Register(ReadOnlyAdapter, id, name, category, schema))
      ensures resources == old(resources)
                           + [ResourceEntry(Metadata(id, name, category, None, [], [], Some(schema), true, false), ReadOnlyAdapter)]
    {
      var metadata := Metadata(id, name, category, None, [], [], Some(schema), true, false);
      resources := resources + [ResourceEntry(metadata, ReadOnlyAdapter)];
    }

    method WriteData(id: Text, name: Text, category: Text, schema: Text)
      modifies this
      ensures resources == ApplyCall(old(resources), Register(WriteOnlyAdapter, id, name, category, schema))
      ensures resources == old(resources)
                           + [ResourceEntry(Metadata(id, name, category, None, [], [], Some(schema), false, true), WriteOnlyAdapter)]
    {
      var metadata := Metadata(id, name, category, None, [], [], Some(schema), false, true);
      resources := resources + [ResourceEntry(metadata, WriteOnlyAdapter)];
    }

    method Data(id: Text, name: Text, category: Text, schema: Text)
      modifies this
      ensures resources == ApplyCall(old(resources), Register(ReadWriteAdapter, id, name, category, schema))
      ensures resources == old(resources)
                           + [ResourceEntry(Metadata(id, name, category, None, [], [], Some(schema), true, true), ReadWriteAdapter)]
    {
      var metadata := Metadata(id, name, category, None, [], [], Some(schema), true, true);
      resources := resources + [ResourceEntry(metadata, ReadWriteAdapter)];
    }

    method Groups(groups: seq<Text>)
      modifies this
      ensures resources == ApplyCall(old(resources), SetGroups(groups))
      ensures |resources| == |old(resources)| && forall i :: 0 <= i < |resources| - 1 ==> resources[i] == old(resources)[i]
      ensures |resources| > 0 ==>
                var last := old(resources)[|resources| - 1];
                resources[|resources| - 1] == last.(metadata := last.metadata.(groups := groups))
    {
      if resources != [] {
        var n := |resources| - 1;
        resources := resources[n := resources[n].(metadata := resources[n].metadata.(groups := groups))];
      }
    }

    method Tags(tags: seq<Text>)
      modifies this
      ensures resources == ApplyCall(old(resources), SetTags(tags))
      ensures |resources| == |old(resources)| && forall i :: 0 <= i < |resources| - 1 ==> resources[i] == old(resources)[i]
      ensures |resources| > 0 ==>
                var last := old(resources)[|resources| - 1];
                resources[|resources| - 1] == last.(metadata := last.metadata.(tags := tags))
    {
      if resources != [] {
        var n := |resources| - 1;
        resources := resources[n := resources[n].(metadata := resources[n].metadata.(tags := tags))];
      }
    }

    method TranslationId(id: Text)
      modifies this
      ensures resources == ApplyCall(old(resources), SetTranslationId(id))
      ensures |resources| == |old(resources)| && forall i :: 0 <= i < |resources| - 1 ==> resources[i] == old(resources)[i]
      ensures |resources| > 0 ==>
                var last := old(resources)[|resources| - 1];
                resources[|resources| - 1] == last.(metadata := last.metadata.(translationId := Some(id)))
    {
      if resources != [] {
        var n := |resources| - 1;
        resources := resources[n := resources[n].(metadata := resources[n].metadata.(translationId := Some(id)))];
      }
    }

    method Schema(schema: Text)
      modifies this
      ensures resources == ApplyCall(old(resources), SetSchema(schema))
      ensures |resources| == |old(resources)| && forall i :: 0 <= i < |resources| - 1 ==> resources[i] == old(resources)[i]
      ensures |resources| > 0 ==>
                var last := old(resources)[|resources| - 1];
                resources[|resources| - 1] == last.(metadata := last.metadata.(schema := Some(schema)))
    {
      if resources != [] {
        var n := |resources| - 1;
        resources := resources[n := resources[n].(metadata := resources[n].metadata.(schema := Some(schema)))];
      }
    }

    /** Fails exactly when ids repeat, naming the earliest repeat; otherwise keeps the registration order. */
    method Build() returns (r: Result<BuiltDataProvider, Text>)
      ensures r.Ok? <==> NoDup(Ids(resources))
      ensures r.Ok? ==> BuiltFrom(r.value, resources)
      ensures r.Err? ==> exists i: nat :: FirstRepeat(Ids(resources), i) && r.error == Ids(resources)[i]
    {
      var built: IndexMap<ResourceEntry> := IndexMap([], map[]);
      ghost var ids := Ids(resources);
      for i := 0 to |resources|
        invariant MapValid(built) && built.keys == ids[..i] && Values(built) == resources[..i]
      {
        var id := resources[i].metadata.id;
        if id in built.entries {
          RepeatIsDup(ids, i);
          return Err(id);
        }
        InsertNewcomer(built, id, resources[i]);
        built := MapInsert(built, id, resources[i]);
        Extend(ids, i);
        Extend(resources, i);
      }
      Extend(ids, |ids|);
      Extend(resources, |resources|);
      return Ok(BuiltDataProvider(built));
    }
  }

  lemma RepeatIsDup(ids: seq<Text>, i: nat)
    requires FirstRepeat(ids, i)
    ensures !NoDup(ids)
  {
    var j :| 0 <= j < i && ids[..i][j] == ids[i];
    assert ids[j] == ids[i];
  }

  lemma Extend<T>(s: seq<T>, i: nat)
    requires i <= |s|
    ensures i < |s| ==> s[..i + 1] == s[..i] + [s[i]]
    ensures s[..|s|] == s
  {
  }

  lemma InsertNewcomer<V>(m: IndexMap<V>, id: Text, v: V)
    requires MapValid(m) && id !in m.entries
    ensures MapValid(MapInsert(m, id, v)) && Values(MapInsert(m, id, v)) == Values(m) + [v]
  {
    StillValid(m, id, v);
    ResolveSame(m.keys, m.entries, m.entries[id := v]);
    assert (m.keys + [id])[..|m.keys|] == m.keys;
  }

  lemma {:induction false} ResolveSame<V>(ids: seq<Text>, a: map<Text, V>, b: map<Text, V>)
    requires forall k :: k in ids ==> (k in a <==> k in b) && (k in a ==> a[k] == b[k])
    ensures Resolve(ids, a) == Resolve(ids, b)
  {
    if ids != [] {
      ResolveSame(ids[..|ids| - 1], a, b);
    }
  }

  /** A resource is advertised for exactly the kinds of access its adapter does not refuse. */
  ghost predicate FlagsAgree(r: ResourceEntry) {
    && (r.metadata.isReadable <==> Refusal(r.adapter, Read).None?)
    && (r.metadata.isWritable <==> Refusal(r.adapter, Write).None?)
  }

  /** Over every sequence of builder calls, setters in between included, the flags go with the stored adapter. */
  lemma {:induction false} FlagsAgreeOverCalls(calls: seq<Call>)
    ensures forall i :: 0 <= i < |RunCalls(calls)| ==> FlagsAgree(RunCalls(calls)[i])
  {
    if calls != [] {
      FlagsAgreeOverCalls(calls[..|calls| - 1]);
    }
  }

  /** What the last of some setters sets, or what was there before. */
  function FinalGroups(setters: seq<Call>, was: seq<Text>): seq<Text> {
    if setters == [] then was
    else if setters[|setters| - 1].SetGroups? then setters[|setters| - 1].groups
    else FinalGroups(setters[..|setters| - 1], was)
  }

  function FinalTags(setters: seq<Call>, was: seq<Text>): seq<Text> {
    if setters == [] then was
    else if setters[|setters| - 1].SetTags? then setters[|setters| - 1].tags
    else FinalTags(setters[..|setters| - 1], was)
  }

  function FinalTranslationId(setters: seq<Call>, was: Option<Text>): Option<Text> {
    if setters == [] then was
    else if setters[|setters| - 1].SetTranslationId? then Some(setters[|setters| - 1].translationId)
    else FinalTranslationId(setters[..|setters| - 1], was)
  }

  function FinalSchema(setters: seq<Call>, was: Text): Text {
    if setters == [] then was
    else if setters[|setters| - 1].SetSchema? then setters[|setters| - 1].schema
    else FinalSchema(setters[..|setters| - 1], was)
  }

  lemma SetterActsOnLast(resources: seq<ResourceEntry>, last: ResourceEntry, setter: Call)
    requires !setter.Register?
    ensures ApplyCall(resources + [last], setter)
         == resources + [last.(metadata := Configure(last.metadata, setter))]
  {
  }

  /** A registered resource after the setters that follow. */
  function Registered(register: Call, setters: seq<Call>): ResourceEntry
    requires register.Register?
  {
    ResourceEntry(
      Metadata(register.id, register.name, register.category, FinalTranslationId(setters, None),
               FinalGroups(setters, []), FinalTags(setters, []), Some(FinalSchema(setters, register.derivedSchema)),
               !register.adapter.WriteOnlyAdapter?, !register.adapter.ReadOnlyAdapter?),
      register.adapter)
  }

  /**
   A registration and the setters up to the next one make one resource: its own
   id, name, category and adapter, and of each other attribute what was set last.
   The resources before it stay as they are.
   */
  lemma {:induction false} SettersMakeOneResource(before: seq<Call>, register: Call, setters: seq<Call>)
    requires register.Register? && forall call :: call in setters ==> !call.Register?
    ensures RunCalls(before + [register] + setters) == RunCalls(before) + [Registered(register, setters)]
  {
    var calls := before + [register] + setters;
    if setters == [] {
      assert calls == before + [register] && calls[..|before|] == before;
    } else {
      var front, last := setters[..|setters| - 1], setters[|setters| - 1];
      assert last in setters && forall call :: call in front ==> call in setters;
      SettersMakeOneResource(before, register, front);
      assert calls[..|calls| - 1] == before + [register] + front;
      SetterActsOnLast(RunCalls(before), Registered(register, front), last);
    }
  }

  /** Setters before any registration do nothing. */
  lemma {:induction false} NothingToSet(setters: seq<Call>)
    requires forall call :: call in setters ==> !call.Register?
    ensures RunCalls(setters) == []
  {
    if setters != [] {
      assert setters[|setters| - 1] in setters && forall call :: call in setters[..|setters| - 1] ==> call in setters;
      NothingToSet(setters[..|setters| - 1]);
    }
  }

  // ---- The built provider

  function MetadataOf(resources: seq<ResourceEntry>): seq<Metadata> {
    Each(resources, EntryMetadata())
  }

  function EntryMetadata(): ResourceEntry -> Metadata {
    (r: ResourceEntry) => r.metadata
  }

  predicate InScope(m: Metadata, scope: Option<DataScope>) {
    match scope
    case None => true
    case Some(Groups(gs)) => exists g :: g in gs && g in m.groups
    case Some(Categories(cs)) => m.category in cs
  }

  predicate HasTag(m: Metadata, tags: seq<Text>) {
    tags == [] || exists t :: t in tags && t in m.tags
  }

  predicate Matches(m: Metadata, filter: DataFilter) {
    InScope(m, filter.scope) && HasTag(m, filter.tags)
  }

  function Matching(filter: DataFilter): Metadata -> bool {
    m => Matches(m, filter)
  }

  function EntryMatching(filter: DataFilter): ResourceEntry -> bool {
    (r: ResourceEntry) => Matches(r.metadata, filter)
  }

  datatype BuiltDataProvider = BuiltDataProvider(resources: IndexMap<ResourceEntry>) {

    function List(filter: DataFilter): seq<Metadata> {
      MetadataOf(Filter(Values(resources), EntryMatching(filter)))
    }

    /** The error that answers an access before any resource is asked, if there is one. */
    function Refused(id: Text, access: Access): Option<DataError> {
      if id in resources.entries then Refusal(resources.entries[id].adapter, access) else Some(NotFound(id))
    }

    /** Overrides the trait's default, and agrees with it. */
    method Categories() returns (r: seq<CategoryInfo>)
      ensures r == DefaultCategories(List(NO_FILTER))
    {
      ListAll(this);
      var pairs := CategoryPairs(MetadataOf(Values(resources)));
      var seen;
      r, seen := KeepUnseen([], {}, pairs, []);
      assert pairs + [] == pairs && r + [] == r;
    }

    /** Overrides the trait's default, and agrees with it for every category filter. */
    method Groups(filter: Option<Text>) returns (r: seq<GroupInfo>)
      ensures r == DefaultGroups(List(NO_FILTER), filter)
    {
      ListAll(this);
      var all := MetadataOf(Values(resources));
      var seen: set<Text> := {};
      r := [];
      assert all[0..] == all;
      for i := 0 to |all|
        invariant r + Payload(FilterSeen(GroupPairs(all[i..], filter), seen)) == DefaultGroups(all, filter)
      {
        ghost var rest := GroupPairs(all[i + 1..], filter);
        assert all[i..][0] == all[i] && all[i..][1..] == all[i + 1..];
        assert GroupPairs(all[i..], filter) == (if InCategory(all[i], filter) then GroupsOf(all[i]) else []) + rest;
        if InCategory(all[i], filter) {
          r, seen := KeepUnseen(r, seen, GroupsOf(all[i]), rest);
        } else {
          assert [] + rest == rest;
        }
      }
    }

    /** Overrides the trait's default, and agrees with it. */
    method Tags() returns (r: seq<TagInfo>)
      ensures r == DefaultTags(List(NO_FILTER))
    {
      ListAll(this);
      var all := MetadataOf(Values(resources));
      var seen: set<Text> := {};
      r := [];
      assert all[0..] == all;
      for i := 0 to |all|
        invariant r + Payload(FilterSeen(TagPairs(all[i..]), seen)) == DefaultTags(all)
      {
        assert all[i..][1..] == all[i + 1..];
        r, seen := KeepUnseen(r, seen, TagsOf(all[i]), TagPairs(all[i + 1..]));
      }
    }
  }

  /** Appends the pairs whose key `seen` does not hold yet, inserting each key on the way. */
  method KeepUnseen<T>(kept: seq<T>, seen: set<Text>, pairs: seq<Keyed<T>>, ghost rest: seq<Keyed<T>>)
    returns (kept': seq<T>, seen': set<Text>)
    ensures kept' + Payload(FilterSeen(rest, seen')) == kept + Payload(FilterSeen(pairs + rest, seen))
  {
    kept', seen' := kept, seen;
    assert pairs[0..] == pairs;
    for i := 0 to |pairs|
      invariant kept' + Payload(FilterSeen(pairs[i..] + rest, seen'))
             == kept + Payload(FilterSeen(pairs + rest, seen))
    {
      assert (pairs[i..] + rest)[1..] == pairs[i + 1..] + rest;
      if pairs[i].key !in seen' {
        PayloadCons(pairs[i], FilterSeen(pairs[i + 1..] + rest, seen' + {pairs[i].key}));
        seen' := seen' + {pairs[i].key};
        kept' := kept' + [pairs[i].value];
      }
    }
    assert pairs[|pairs|..] + rest == rest;
  }

  lemma PayloadCons<T>(p: Keyed<T>, ps: seq<Keyed<T>>)
    ensures Payload([p] + ps) == [p.value] + Payload(ps)
  {
  }

  /** A query is the registration-order sublist of the resources that match. */
  lemma ListIsSublist(p: BuiltDataProvider, filter: DataFilter)
    ensures p.List(filter) == Filter(MetadataOf(Values(p.resources)), Matching(filter))
  {
    EachFilter(Values(p.resources), EntryMetadata(), EntryMatching(filter), Matching(filter));
  }

  lemma ListAll(p: BuiltDataProvider)
    ensures p.List(NO_FILTER) == MetadataOf(Values(p.resources))
  {
    ListIsSublist(p, NO_FILTER);
    FilterAll(MetadataOf(Values(p.resources)), Matching(NO_FILTER));
  }

  lemma FoundIsRegistered(p: BuiltDataProvider, all: seq<ResourceEntry>)
    requires BuiltFrom(p, all)
    ensures forall i :: 0 <= i < |all| ==>
              all[i].metadata.id in p.resources.entries && p.resources.entries[all[i].metadata.id] == all[i]
    ensures forall id :: id in p.resources.entries ==> p.resources.entries[id] in all
    ensures forall id :: id in p.resources.entries ==> p.resources.entries[id].metadata.id == id
  {
    ResolveAll(p.resources.keys, p.resources.entries);
    forall i | 0 <= i < |all| ensures p.resources.keys[i] == all[i].metadata.id {
    }
    forall id | id in p.resources.entries
      ensures p.resources.entries[id] in all && p.resources.entries[id].metadata.id == id
    {
      var i :| 0 <= i < |p.resources.keys| && p.resources.keys[i] == id;
      assert p.resources.entries[id] == all[i];
    }
  }

  lemma ListedIsRegistered(p: BuiltDataProvider, m: Metadata)
    ensures m in p.List(NO_FILTER) <==> exists r :: r in Values(p.resources) && r.metadata == m
  {
    var all := Values(p.resources);
    ListAll(p);
    if m in MetadataOf(all) {
      var i :| 0 <= i < |all| && MetadataOf(all)[i] == m;
      assert all[i] in all;
    }
    if r :| r in all && r.metadata == m {
      var i :| 0 <= i < |all| && all[i] == r;
      assert MetadataOf(all)[i] == m;
    }
  }

  lemma ListedIsFound(p: BuiltDataProvider, all: seq<ResourceEntry>, m: Metadata)
    requires BuiltFrom(p, all)
    ensures m in p.List(NO_FILTER) <==> m.id in p.resources.entries && p.resources.entries[m.id].metadata == m
  {
    ListedIsRegistered(p, m);
    FoundIsRegistered(p, all);
    if r :| r in all && r.metadata == m {
      var i :| 0 <= i < |all| && all[i] == r;
      assert p.resources.entries[all[i].metadata.id] == all[i];
    }
  }

  /**
   What is listed can be relied on: an access to a listed resource is refused
   exactly when its flag says so, and an access to any other id is not found.
   */
  lemma ListPredictsAccess(p: BuiltDataProvider, calls: seq<Call>, m: Metadata)
    requires BuiltFrom(p, RunCalls(calls)) && m in p.List(NO_FILTER)
    ensures p.Refused(m.id, Read).None? <==> m.isReadable
    ensures p.Refused(m.id, Write).None? <==> m.isWritable
    ensures !m.isReadable ==> p.Refused(m.id, Read).value.Internal?
    ensures !m.isWritable ==> p.Refused(m.id, Write) == Some(ReadOnly)
  {
    ListedIsFound(p, RunCalls(calls), m);
    FoundIsRegistered(p, RunCalls(calls));
    FlagsAgreeOverCalls(calls);
    assert FlagsAgree(p.resources.entries[m.id]);
  }

  lemma UnlistedIsNotFound(p: BuiltDataProvider, all: seq<ResourceEntry>, id: Text, access: Access)
    requires BuiltFrom(p, all)
    ensures p.Refused(id, access) == Some(NotFound(id)) <==> forall m :: m in p.List(NO_FILTER) ==> m.id != id
  {
    FoundIsRegistered(p, all);
    if id in p.resources.entries {
      ListedIsFound(p, all, p.resources.entries[id].metadata);
    } else {
      forall m | m in p.List(NO_FILTER) ensures m.id != id {
        ListedIsFound(p, all, m);
      }
    }
  }

  /** Asking for several tags is asking for each in turn. */
  lemma ListIsUnionOverTags(p: BuiltDataProvider, filter: DataFilter, m: Metadata)
    requires filter.tags != []
    ensures m in p.List(filter) <==> exists t :: t in filter.tags && m in p.List(filter.(tags := [t]))
  {
    ListIsSublist(p, filter);
    forall t ensures m in p.List(filter.(tags := [t]))
                <==> m in MetadataOf(Values(p.resources)) && InScope(m, filter.scope) && t in m.tags
    {
      ListIsSublist(p, filter.(tags := [t]));
    }
  }
}
