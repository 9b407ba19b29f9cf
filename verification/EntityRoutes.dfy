/** The entity endpoints as functions of one topology snapshot, and where their links lead. */
module EntityRoutes {
  import opened Sequences
  import opened PercentEncoding
  import opened IndexMaps
  import opened Entities
  import opened ReverseIndex
  import opened TopologyModel
  import opened TopologyRuns
  import opened FilterQuery

  /** What the server advertises: `path` is the normalized mount path, empty at the root. */
  datatype BaseUri = BaseUri(scheme: Text, host: Text, path: Text)

  const API_VERSION: Text := "v1"

  function VersionedUri(base: BaseUri): Text {
    base.scheme + "://" + base.host + base.path + "/" + API_VERSION
  }

  function Collection(kind: EntityKind): Text {
    match kind
    case ComponentKind => "components"
    case AppKind => "apps"
    case AreaKind => "areas"
  }

  function Href(base: BaseUri, ref: EntityRef): Text {
    VersionedUri(base) + "/" + Collection(ref.kind) + "/" + Encode(ref.id, PATH_SEGMENT_SET)
  }

  datatype EntityReference =
    EntityReference(id: Id, name: Text, translationId: Option<Text>, href: Text, tags: Option<seq<Text>>)

  function SomeTags(tags: seq<Text>): Option<seq<Text>> {
    if tags == [] then None else Some(tags)
  }

  function OfComponent(base: BaseUri, c: Component): EntityReference {
    EntityReference(c.id, c.name, c.translationId, Href(base, EntityRef(ComponentKind, c.id)), SomeTags(c.tags))
  }

  function OfApp(base: BaseUri, a: App): EntityReference {
    EntityReference(a.id, a.name, a.translationId, Href(base, EntityRef(AppKind, a.id)), SomeTags(a.tags))
  }

  function OfArea(base: BaseUri, r: Area): EntityReference {
    EntityReference(r.id, r.name, r.translationId, Href(base, EntityRef(AreaKind, r.id)), SomeTags(r.tags))
  }

  function LinkComponent(base: BaseUri): Component -> EntityReference {
    (component: Component) => OfComponent(base, component)
  }

  function Components(base: BaseUri, cs: seq<Component>): seq<EntityReference> {
    Each(cs, LinkComponent(base))
  }

  function LinkApp(base: BaseUri): App -> EntityReference {
    (app: App) => OfApp(base, app)
  }

  function Apps(base: BaseUri, apps: seq<App>): seq<EntityReference> {
    Each(apps, LinkApp(base))
  }

  function LinkArea(base: BaseUri): Area -> EntityReference {
    (area: Area) => OfArea(base, area)
  }

  function Areas(base: BaseUri, areas: seq<Area>): seq<EntityReference> {
    Each(areas, LinkArea(base))
  }

  predicate AnyTag(wanted: seq<Text>, tags: seq<Text>) {
    wanted == [] || exists t :: t in wanted && t in tags
  }

  function ComponentTagged(wanted: seq<Text>): Component -> bool {
    (c: Component) => AnyTag(wanted, c.tags)
  }

  function AppTagged(wanted: seq<Text>): App -> bool {
    (a: App) => AnyTag(wanted, a.tags)
  }

  function AreaTagged(wanted: seq<Text>): Area -> bool {
    (r: Area) => AnyTag(wanted, r.tags)
  }

  /** Where a link points: version 1 below the mount path, and a collection per kind. */
  lemma HrefIs(base: BaseUri, ref: EntityRef)
    ensures Href(base, ref)
         == (base.scheme + "://" + base.host + base.path)
            + (match ref.kind
               case ComponentKind => "/v1/components/"
               case AppKind => "/v1/apps/"
               case AreaKind => "/v1/areas/")
            + Encode(ref.id, PATH_SEGMENT_SET)
  {
    var root := base.scheme + "://" + base.host + base.path;
    assert root + "/" + "v1" + "/" == root + "/v1/";
    match ref.kind
    case ComponentKind => assert root + "/v1/" + "components" + "/" == root + "/v1/components/";
    case AppKind => assert root + "/v1/" + "apps" + "/" == root + "/v1/apps/";
    case AreaKind => assert root + "/v1/" + "areas" + "/" == root + "/v1/areas/";
  }

  // ---- Handlers; an error names the entity that was not found

  type Response = Result<seq<EntityReference>, Id>

  function ComponentList(s: State, base: BaseUri, tags: seq<Text>): Response {
    Ok(Components(base, Filter(Values(s.components), ComponentTagged(tags))))
  }

  function AppList(s: State, base: BaseUri, tags: seq<Text>): Response {
    Ok(Apps(base, Filter(Values(s.apps), AppTagged(tags))))
  }

  function AreaList(s: State, base: BaseUri, tags: seq<Text>): Response {
    Ok(Areas(base, Filter(Values(s.areas), AreaTagged(tags))))
  }

  function ComponentHosts(s: State, base: BaseUri, id: Id, tags: seq<Text>): Response {
    if GetComponent(s, id).Err? then Err(id)
    else Ok(Apps(base, Filter(AppsOfComponent(s, id), AppTagged(tags))))
  }

  function AppIsLocatedOn(s: State, base: BaseUri, id: Id): Response {
    match ComponentOfApp(s, id)
    case Ok(Some(c)) => Ok([OfComponent(base, c)])
    case _ => Err(id)
  }

  function BelongsTo(area: Result<Option<Area>, EntityRef>, base: BaseUri, id: Id, tags: seq<Text>): Response {
    match area
    case Err(_) => Err(id)
    case Ok(None) => Ok([])
    case Ok(Some(r)) => Ok(if AnyTag(tags, r.tags) then [OfArea(base, r)] else [])
  }

  function ComponentBelongsTo(s: State, base: BaseUri, id: Id, tags: seq<Text>): Response {
    BelongsTo(AreaOfComponent(s, id), base, id, tags)
  }

  function AppBelongsTo(s: State, base: BaseUri, id: Id, tags: seq<Text>): Response {
    BelongsTo(AreaOfApp(s, id), base, id, tags)
  }

  /** Contained components first, then contained apps. */
  function AreaContains(s: State, base: BaseUri, id: Id, tags: seq<Text>): Response {
    if GetArea(s, id).Err? then Err(id)
    else Ok(Components(base, Filter(ComponentsOfArea(s, id), ComponentTagged(tags)))
            + Apps(base, Filter(AppsOfArea(s, id), AppTagged(tags))))
  }

  /** How the two belongs-to endpoints gather their answer. */
  method CollectArea(area: Result<Option<Area>, EntityRef>, base: BaseUri, id: Id, tags: seq<Text>)
    returns (response: Response)
    ensures response == BelongsTo(area, base, id, tags)
  {
    var items := [];
    if area.Err? {
      return Err(id);
    }
    if area.value.Some? {
      var r := area.value.value;
      var matches := tags == [] || (r.tags != [] && AnyTag(tags, r.tags));
      if matches {
        items := items + [OfArea(base, r)];
        assert items == [OfArea(base, r)];
      }
    }
    return Ok(items);
  }

  /** How the contains endpoint gathers its answer. */
  method CollectContents(s: State, base: BaseUri, id: Id, tags: seq<Text>) returns (response: Response)
    ensures response == AreaContains(s, base, id, tags)
  {
    if GetArea(s, id).Err? {
      return Err(id);
    }
    var items := [];
    items := items + Components(base, Filter(ComponentsOfArea(s, id), ComponentTagged(tags)));
    assert items == Components(base, Filter(ComponentsOfArea(s, id), ComponentTagged(tags)));
    items := items + Apps(base, Filter(AppsOfArea(s, id), AppTagged(tags)));
    return Ok(items);
  }

  datatype Request =
    | ListComponents
    | ListApps
    | ListAreas
    | HostsOf(id: Id)
    | LocationOf(id: Id)
    | AreaOfComponentId(id: Id)
    | AreaOfAppId(id: Id)
    | ContentsOf(id: Id)

  function Respond(s: State, base: BaseUri, request: Request, tags: seq<Text>): Response {
    match request
    case ListComponents => ComponentList(s, base, tags)
    case ListApps => AppList(s, base, tags)
    case ListAreas => AreaList(s, base, tags)
    case HostsOf(id) => ComponentHosts(s, base, id, tags)
    case LocationOf(id) => AppIsLocatedOn(s, base, id)
    case AreaOfComponentId(id) => ComponentBelongsTo(s, base, id, tags)
    case AreaOfAppId(id) => AppBelongsTo(s, base, id, tags)
    case ContentsOf(id) => AreaContains(s, base, id, tags)
  }

  // ---- The router

  function KindOf(collection: Text): Option<EntityKind> {
    if collection == "components" then Some(ComponentKind)
    else if collection == "apps" then Some(AppKind)
    else if collection == "areas" then Some(AreaKind)
    else None
  }

  /** `/{collection}/{id}` below the mount path and version; a path parameter is never empty. */
  function Route(mount: Text, path: Text): Option<EntityRef> {
    var prefix := mount + "/" + API_VERSION + "/";
    if prefix <= path then
      var segments := Split(path[|prefix|..], '/');
      if |segments| == 2 && segments[1] != [] && KindOf(segments[0]).Some?
      then Some(EntityRef(KindOf(segments[0]).value, Decode(segments[1])))
      else None
    else None
  }

  /** What lies between the authority of an absolute URI and its query or fragment. */
  function PathOf(uri: Text): Text {
    FromSlash(AfterSlashes(FromSlash(BeforeQuery(uri))))
  }

  function BeforeQuery(uri: Text): Text {
    SplitOnce(WithoutFragment(uri), '?').0
  }

  function FromSlash(s: Text): Text {
    if s == [] || s[0] == '/' then s else FromSlash(s[1..])
  }

  function AfterSlashes(s: Text): Text {
    if "//" <= s then s[2..] else s
  }

  predicate NoQuery(s: Text) {
    '?' !in s && '#' !in s
  }

  lemma {:induction false} SplitLater(a: Text, b: Text, sep: Octet)
    requires sep !in a
    ensures SplitOnce(a + b, sep).0 == a + SplitOnce(b, sep).0
  {
    if a == [] {
      assert a + b == b;
    } else {
      assert a[0] in a && a == [a[0]] + a[1..] && (a + b)[1..] == a[1..] + b;
      SplitLater(a[1..], b, sep);
    }
  }

  /** Neither a query nor a fragment is part of a path. */
  lemma PathEndsAtQuery(uri: Text, rest: Text)
    requires NoQuery(uri)
    ensures PathOf(uri + "?" + rest) == PathOf(uri)
    ensures PathOf(uri + "#" + rest) == PathOf(uri)
  {
    SplitOnceNone(uri, '#');
    SplitOnceNone(uri, '?');
    SplitAt(uri, '#', rest);
    SplitLater(uri + "?", rest, '#');
    SplitAt(uri, '?', SplitOnce(rest, '#').0);
  }

  ghost predicate WellFormedBase(base: BaseUri) {
    && '/' !in base.scheme + base.host && NoQuery(base.scheme + base.host + base.path)
    && (base.path == [] || base.path[0] == '/')
  }

  lemma {:induction false} FromSlashSkips(a: Text, b: Text)
    requires '/' !in a && b != [] && b[0] == '/'
    ensures FromSlash(a + b) == b
  {
    if a == [] {
      assert a + b == b;
    } else {
      assert a[0] in a && (a + b)[1..] == a[1..] + b;
      FromSlashSkips(a[1..], b);
    }
  }

  function RelativeHref(base: BaseUri, ref: EntityRef): Text {
    base.path + "/" + API_VERSION + "/" + Collection(ref.kind) + "/" + Encode(ref.id, PATH_SEGMENT_SET)
  }

  lemma PathOfUri(scheme: Text, host: Text, path: Text)
    requires '/' !in scheme && '/' !in host && path != [] && path[0] == '/'
    ensures FromSlash(AfterSlashes(FromSlash((scheme + ":") + ("//" + (host + path))))) == path
  {
    FromSlashSkips(scheme + ":", "//" + (host + path));
    FromSlashSkips(host, path);
  }

  lemma Regroup(a: Text, b: Text, c: Text)
    ensures (a + b) + c == a + (b + c)
  {
  }

  lemma HrefIsAuthorityAndPath(base: BaseUri, ref: EntityRef)
    ensures Href(base, ref) == (base.scheme + "://" + base.host) + RelativeHref(base, ref)
  {
    var authority, v := base.scheme + "://" + base.host, base.path + "/" + API_VERSION;
    Regroup(authority, base.path, "/");
    Regroup(authority, base.path + "/", API_VERSION);
    Regroup(authority, v, "/");
    Regroup(authority, v + "/", Collection(ref.kind));
    Regroup(authority, v + "/" + Collection(ref.kind), "/");
    Regroup(authority, v + "/" + Collection(ref.kind) + "/", Encode(ref.id, PATH_SEGMENT_SET));
  }

  /** Encoding leaves nothing in a link that would start a query or a fragment. */
  lemma HrefHasNoQuery(base: BaseUri, ref: EntityRef)
    requires WellFormedBase(base)
    ensures BeforeQuery(Href(base, ref)) == Href(base, ref)
  {
    var href := Href(base, ref);
    HrefIsAuthorityAndPath(base, ref);
    SegmentsRoundTrip(ref.id);
    assert NoQuery(base.scheme) && NoQuery(base.host) && NoQuery(base.path) && NoQuery(Collection(ref.kind));
    assert NoQuery(base.scheme + "://" + base.host) && NoQuery(RelativeHref(base, ref));
    SplitOnceNone(href, '#');
    SplitOnceNone(href, '?');
  }

  lemma HrefPath(base: BaseUri, ref: EntityRef)
    requires WellFormedBase(base)
    ensures PathOf(Href(base, ref)) == RelativeHref(base, ref)
  {
    var path := RelativeHref(base, ref);
    HrefHasNoQuery(base, ref);
    HrefIsAuthorityAndPath(base, ref);
    RelativeHrefStarts(base, ref);
    PathOfUri(base.scheme, base.host, path);
    assert base.scheme + "://" == (base.scheme + ":") + "//";
    Regroup(base.scheme + ":", "//", base.host);
    Regroup(base.scheme + ":", "//" + base.host, path);
    Regroup("//", base.host, path);
  }

  lemma RelativeHrefStarts(base: BaseUri, ref: EntityRef)
    requires WellFormedBase(base)
    ensures RelativeHref(base, ref) != [] && RelativeHref(base, ref)[0] == '/'
  {
  }

  lemma CollectionRoundTrip(kind: EntityKind)
    ensures KindOf(Collection(kind)) == Some(kind) && '/' !in Collection(kind)
  {
  }

  /** A path made of the mount path, the version, a collection and one encoded segment leads back to its id. */
  lemma SegmentRoutes(mount: Text, ref: EntityRef, encode: EncodeSet)
    requires encode == PATH_SEGMENT_SET || encode == CLIENT_SET
    ensures Route(mount, mount + "/" + API_VERSION + "/" + Collection(ref.kind) + "/" + Encode(ref.id, encode))
         == if ref.id == [] then None else Some(ref)
  {
    var segment := Encode(ref.id, encode);
    var prefix := mount + "/" + API_VERSION + "/";
    var rest := Collection(ref.kind) + "/" + segment;
    assert mount + "/" + API_VERSION + "/" + Collection(ref.kind) + "/" + segment == prefix + rest;
    CollectionRoundTrip(ref.kind);
    SegmentsRoundTrip(ref.id);
    EncodedOctets(ref.id, encode);
    SplitAt(Collection(ref.kind), '/', segment);
    SplitNone(segment, '/');
  }

  /** A link resolves to the entity it was made for exactly when the id is not empty. */
  lemma HrefRoutesIff(base: BaseUri, ref: EntityRef)
    requires WellFormedBase(base)
    ensures Route(base.path, PathOf(Href(base, ref))) == if ref.id == [] then None else Some(ref)
  {
    HrefPath(base, ref);
    SegmentRoutes(base.path, ref, PATH_SEGMENT_SET);
  }

  /** The client's stricter encoding of the id reaches the same entity. */
  lemma ClientPathRoutes(mount: Text, ref: EntityRef)
    requires ref.id != []
    ensures Route(mount, mount + "/" + API_VERSION + "/" + Collection(ref.kind) + "/" + Encode(ref.id, CLIENT_SET))
         == Some(ref)
  {
    SegmentRoutes(mount, ref, CLIENT_SET);
  }

  /** Every item's link leads to a live entity of the kind, with the item's id. */
  ghost predicate AllLead(s: State, base: BaseUri, items: seq<EntityReference>, kind: EntityKind) {
    forall i :: 0 <= i < |items| && items[i].id != [] ==>
      && Live(s, EntityRef(kind, items[i].id))
      && Route(base.path, PathOf(items[i].href)) == Some(EntityRef(kind, items[i].id))
  }

  lemma ComponentsLead(s: State, base: BaseUri, cs: seq<Component>)
    requires WellFormedBase(base) && forall e :: e in cs ==> Live(s, EntityRef(ComponentKind, e.id))
    ensures AllLead(s, base, Components(base, cs), ComponentKind)
  {
    forall i | 0 <= i < |cs|
      ensures Live(s, EntityRef(ComponentKind, cs[i].id))
      ensures cs[i].id != [] ==>
                Route(base.path, PathOf(Components(base, cs)[i].href)) == Some(EntityRef(ComponentKind, cs[i].id))
    {
      assert cs[i] in cs;
      HrefRoutesIff(base, EntityRef(ComponentKind, cs[i].id));
    }
  }

  lemma AppsLead(s: State, base: BaseUri, apps: seq<App>)
    requires WellFormedBase(base) && forall e :: e in apps ==> Live(s, EntityRef(AppKind, e.id))
    ensures AllLead(s, base, Apps(base, apps), AppKind)
  {
    forall i | 0 <= i < |apps|
      ensures Live(s, EntityRef(AppKind, apps[i].id))
      ensures apps[i].id != [] ==>
                Route(base.path, PathOf(Apps(base, apps)[i].href)) == Some(EntityRef(AppKind, apps[i].id))
    {
      assert apps[i] in apps;
      HrefRoutesIff(base, EntityRef(AppKind, apps[i].id));
    }
  }

  lemma AreasLead(s: State, base: BaseUri, areas: seq<Area>)
    requires WellFormedBase(base) && forall e :: e in areas ==> Live(s, EntityRef(AreaKind, e.id))
    ensures AllLead(s, base, Areas(base, areas), AreaKind)
  {
    forall i | 0 <= i < |areas|
      ensures Live(s, EntityRef(AreaKind, areas[i].id))
      ensures areas[i].id != [] ==>
                Route(base.path, PathOf(Areas(base, areas)[i].href)) == Some(EntityRef(AreaKind, areas[i].id))
    {
      assert areas[i] in areas;
      HrefRoutesIff(base, EntityRef(AreaKind, areas[i].id));
    }
  }

  /** The kind of entity a response links to; an area's contents are components and then apps. */
  ghost predicate LinksLead(s: State, base: BaseUri, request: Request, items: seq<EntityReference>) {
    match request
    case ListComponents => AllLead(s, base, items, ComponentKind)
    case LocationOf(_) => AllLead(s, base, items, ComponentKind)
    case ListApps => AllLead(s, base, items, AppKind)
    case HostsOf(_) => AllLead(s, base, items, AppKind)
    case ListAreas => AllLead(s, base, items, AreaKind)
    case AreaOfComponentId(_) => AllLead(s, base, items, AreaKind)
    case AreaOfAppId(_) => AllLead(s, base, items, AreaKind)
    case ContentsOf(_) =>
      exists n :: 0 <= n <= |items|
                  && AllLead(s, base, items[..n], ComponentKind) && AllLead(s, base, items[n..], AppKind)
  }

  lemma BelongsToLeads(s: State, base: BaseUri, area: Result<Option<Area>, EntityRef>, id: Id, tags: seq<Text>)
    requires WellFormedBase(base)
    requires area.Ok? && area.value.Some? ==> Live(s, EntityRef(AreaKind, area.value.value.id))
    ensures BelongsTo(area, base, id, tags).Ok? ==> AllLead(s, base, BelongsTo(area, base, id, tags).value, AreaKind)
  {
    if area.Ok? && area.value.Some? {
      AreasLead(s, base, [area.value.value]);
      assert Areas(base, [area.value.value]) == [OfArea(base, area.value.value)];
    }
  }

  lemma ContentsLead(s: State, base: BaseUri, id: Id, tags: seq<Text>)
    requires Inv(s) && WellFormedBase(base) && GetArea(s, id).Ok?
    ensures LinksLead(s, base, ContentsOf(id), AreaContains(s, base, id, tags).value)
  {
    var first := Components(base, Filter(ComponentsOfArea(s, id), ComponentTagged(tags)));
    var second := Apps(base, Filter(AppsOfArea(s, id), AppTagged(tags)));
    ComponentsLead(s, base, Filter(ComponentsOfArea(s, id), ComponentTagged(tags)));
    AppsLead(s, base, Filter(AppsOfArea(s, id), AppTagged(tags)));
    assert (first + second)[..|first|] == first && (first + second)[|first|..] == second;
  }

  /** In every reachable topology, every link of every response leads back to a live entity with that id. */
  lemma EveryLinkLeads(ops: seq<Op>, base: BaseUri, request: Request, tags: seq<Text>)
    requires WellFormedBase(base)
    ensures var s := Run(EMPTY, ops);
            var response := Respond(s, base, request, tags);
            response.Ok? ==> LinksLead(s, base, request, response.value)
  {
    var s := Run(EMPTY, ops);
    ReachableInv(ops);
    match request
    case ListComponents => ComponentsLead(s, base, Filter(Values(s.components), ComponentTagged(tags)));
    case ListApps => AppsLead(s, base, Filter(Values(s.apps), AppTagged(tags)));
    case ListAreas => AreasLead(s, base, Filter(Values(s.areas), AreaTagged(tags)));
    case HostsOf(id) => AppsLead(s, base, Filter(AppsOfComponent(s, id), AppTagged(tags)));
    case LocationOf(id) =>
      if ComponentOfApp(s, id).Ok? && ComponentOfApp(s, id).value.Some? {
        var c := ComponentOfApp(s, id).value.value;
        ComponentsLead(s, base, [c]);
        assert Components(base, [c]) == [OfComponent(base, c)];
      }
    case AreaOfComponentId(id) => BelongsToLeads(s, base, AreaOfComponent(s, id), id, tags);
    case AreaOfAppId(id) => BelongsToLeads(s, base, AreaOfApp(s, id), id, tags);
    case ContentsOf(id) =>
      if GetArea(s, id).Ok? {
        ContentsLead(s, base, id, tags);
      }
  }

  // ---- The tag filter

  function ItemTagged(wanted: seq<Text>): EntityReference -> bool {
    (item: EntityReference) => AnyTag(wanted, OrEmpty(item.tags))
  }

  lemma ComponentsNarrow(base: BaseUri, cs: seq<Component>, tags: seq<Text>)
    ensures Filter(cs, ComponentTagged([])) == cs
    ensures Components(base, Filter(cs, ComponentTagged(tags))) == Filter(Components(base, cs), ItemTagged(tags))
  {
    FilterAll(cs, ComponentTagged([]));
    EachFilter(cs, LinkComponent(base), ComponentTagged(tags), ItemTagged(tags));
  }

  lemma AppsNarrow(base: BaseUri, apps: seq<App>, tags: seq<Text>)
    ensures Filter(apps, AppTagged([])) == apps
    ensures Apps(base, Filter(apps, AppTagged(tags))) == Filter(Apps(base, apps), ItemTagged(tags))
  {
    FilterAll(apps, AppTagged([]));
    EachFilter(apps, LinkApp(base), AppTagged(tags), ItemTagged(tags));
  }

  lemma AreasNarrow(base: BaseUri, areas: seq<Area>, tags: seq<Text>)
    ensures Filter(areas, AreaTagged([])) == areas
    ensures Areas(base, Filter(areas, AreaTagged(tags))) == Filter(Areas(base, areas), ItemTagged(tags))
  {
    FilterAll(areas, AreaTagged([]));
    EachFilter(areas, LinkArea(base), AreaTagged(tags), ItemTagged(tags));
  }

  /** An answer with only the items that carry one of the tags. */
  function Narrowed(response: Response, tags: seq<Text>): Response {
    if response.Ok? then Ok(Filter(response.value, ItemTagged(tags))) else response
  }

  /** The request is for the location of an app, and its component carries none of the tags. */
  predicate IgnoresTags(s: State, request: Request, tags: seq<Text>) {
    request.LocationOf?
    && var component := ComponentOfApp(s, request.id);
       component.Ok? && component.value.Some? && !AnyTag(tags, component.value.value.tags)
  }

  /**
   With tags, an endpoint answers the items of its untagged answer that carry one
   of them, in the same order, unless it is asked for the location of an app on a
   component with none of them: that endpoint takes tags and does not look at them.
   */
  lemma TagsNarrowIff(s: State, base: BaseUri, request: Request, tags: seq<Text>)
    ensures Respond(s, base, request, tags) == Narrowed(Respond(s, base, request, []), tags)
       <==> !IgnoresTags(s, request, tags)
  {
    match request
    case ListComponents => ComponentsNarrow(base, Values(s.components), tags);
    case ListApps => AppsNarrow(base, Values(s.apps), tags);
    case ListAreas => AreasNarrow(base, Values(s.areas), tags);
    case HostsOf(id) => AppsNarrow(base, AppsOfComponent(s, id), tags);
    case ContentsOf(id) =>
      ComponentsNarrow(base, ComponentsOfArea(s, id), tags);
      AppsNarrow(base, AppsOfArea(s, id), tags);
      FilterConcat(Components(base, ComponentsOfArea(s, id)), Apps(base, AppsOfArea(s, id)), ItemTagged(tags));
    case AreaOfComponentId(id) => BelongsToNarrows(AreaOfComponent(s, id), base, id, tags);
    case AreaOfAppId(id) => BelongsToNarrows(AreaOfApp(s, id), base, id, tags);
    case LocationOf(id) =>
      var component := ComponentOfApp(s, id);
      if component.Ok? && component.value.Some? {
        FilterOne(OfComponent(base, component.value.value), ItemTagged(tags));
      }
  }

  /** With tags, an answer keeps exactly the items that carry at least one of them. */
  lemma TaggedAnswersAre(s: State, base: BaseUri, request: Request, tags: seq<Text>, item: EntityReference)
    requires !request.LocationOf? && tags != []
    ensures var all, some := Respond(s, base, request, []), Respond(s, base, request, tags);
            && (some.Ok? <==> all.Ok?)
            && (all.Ok? ==>
                  (item in some.value
                   <==> item in all.value && exists t :: t in tags && item.tags.Some? && t in item.tags.value))
  {
    TagsNarrowIff(s, base, request, tags);
  }

  /** Asking for several tags is asking for each in turn. */
  lemma TagsAreUnion(s: State, base: BaseUri, request: Request, tags: seq<Text>, item: EntityReference)
    requires tags != [] && Respond(s, base, request, tags).Ok?
    ensures item in Respond(s, base, request, tags).value
       <==> exists t :: t in tags && Respond(s, base, request, [t]).Ok? && item in Respond(s, base, request, [t]).value
  {
    if request.LocationOf? {
      assert tags[0] in tags && Respond(s, base, request, [tags[0]]) == Respond(s, base, request, tags);
    } else {
      TaggedAnswersAre(s, base, request, tags, item);
      forall t | t in tags
        ensures Respond(s, base, request, [t]).Ok?
        ensures item in Respond(s, base, request, [t]).value
           <==> item in Respond(s, base, request, []).value && item.tags.Some? && t in item.tags.value
      {
        TaggedAnswersAre(s, base, request, [t], item);
        assert t in [t];
      }
    }
  }

  /** A request about an entity fails, naming it, exactly when the entity, or an app's host, is not live; lists never fail. */
  lemma RequestsFailIff(s: State, base: BaseUri, id: Id, tags: seq<Text>)
    ensures (if id in s.components.entries then Respond(s, base, HostsOf(id), tags).Ok?
             else Respond(s, base, HostsOf(id), tags) == Err(id))
    ensures (if id in s.components.entries then Respond(s, base, AreaOfComponentId(id), tags).Ok?
             else Respond(s, base, AreaOfComponentId(id), tags) == Err(id))
    ensures (if id in s.apps.entries then Respond(s, base, AreaOfAppId(id), tags).Ok?
             else Respond(s, base, AreaOfAppId(id), tags) == Err(id))
    ensures (if id in s.areas.entries then Respond(s, base, ContentsOf(id), tags).Ok?
             else Respond(s, base, ContentsOf(id), tags) == Err(id))
    ensures (if id in s.apps.entries && s.apps.entries[id].hostId in s.components.entries
             then Respond(s, base, LocationOf(id), tags) == Ok([OfComponent(base, s.components.entries[s.apps.entries[id].hostId])])
             else Respond(s, base, LocationOf(id), tags) == Err(id))
    ensures Respond(s, base, ListComponents, tags).Ok? && Respond(s, base, ListApps, tags).Ok?
    ensures Respond(s, base, ListAreas, tags).Ok?
  {
  }

  /** Without tags, a component's hosts are all its apps. */
  lemma HostsAreApps(s: State, base: BaseUri, id: Id)
    requires id in s.components.entries
    ensures Respond(s, base, HostsOf(id), []) == Ok(Apps(base, AppsOfComponent(s, id)))
  {
    AppsNarrow(base, AppsOfComponent(s, id), []);
  }

  /** Without tags, an entity belongs to its live area, if any. */
  lemma BelongsToIsArea(s: State, base: BaseUri, id: Id)
    ensures forall r :: AreaOfComponent(s, id) == Ok(Some(r)) ==>
              Respond(s, base, AreaOfComponentId(id), []) == Ok([OfArea(base, r)])
    ensures forall r :: AreaOfApp(s, id) == Ok(Some(r)) ==> Respond(s, base, AreaOfAppId(id), []) == Ok([OfArea(base, r)])
    ensures AreaOfComponent(s, id) == Ok(None) ==> Respond(s, base, AreaOfComponentId(id), []) == Ok([])
    ensures AreaOfApp(s, id) == Ok(None) ==> Respond(s, base, AreaOfAppId(id), []) == Ok([])
  {
  }

  /** An app on an untagged component: its location is answered whatever tag is asked for. */
  lemma LocationIgnoresTags(base: BaseUri)
    ensures var c := Component("c", "", None, [], None);
            var s := Run(EMPTY, [AddComponent(c), AddApp(App("a", "", "c", None, [], None))]);
            && Respond(s, base, LocationOf("a"), ["t"]) == Ok([OfComponent(base, c)])
            && Narrowed(Respond(s, base, LocationOf("a"), []), ["t"]) == Ok([])
  {
    var c, a := Component("c", "", None, [], None), App("a", "", "c", None, [], None);
    RunConcat(EMPTY, [AddComponent(c)], [AddApp(a)]);
    assert [AddComponent(c)] + [AddApp(a)] == [AddComponent(c), AddApp(a)];
    RunOne(EMPTY, AddComponent(c));
    RunOne(Apply(EMPTY, AddComponent(c)), AddApp(a));
    FilterOne(OfComponent(base, c), ItemTagged(["t"]));
  }

  lemma BelongsToNarrows(area: Result<Option<Area>, EntityRef>, base: BaseUri, id: Id, tags: seq<Text>)
    ensures var all, some := BelongsTo(area, base, id, []), BelongsTo(area, base, id, tags);
            if all.Ok? then some == Ok(Filter(all.value, ItemTagged(tags))) else some == all
  {
    if area.Ok? && area.value.Some? {
      var item := OfArea(base, area.value.value);
      FilterOne(item, ItemTagged(tags));
      assert OrEmpty(item.tags) == area.value.value.tags;
    }
  }

  // ---- Following links back and forth

  lemma AppListed(base: BaseUri, apps: seq<App>, app: App)
    requires forall a :: a in apps && a.id == app.id ==> a == app
    ensures OfApp(base, app) in Apps(base, apps) <==> app in apps
  {
    if OfApp(base, app) in Apps(base, apps) {
      var i :| 0 <= i < |apps| && Apps(base, apps)[i] == OfApp(base, app);
      assert apps[i] in apps;
    }
    if app in apps {
      var i :| 0 <= i < |apps| && apps[i] == app;
      assert Apps(base, apps)[i] == OfApp(base, app);
    }
  }

  lemma ComponentListed(base: BaseUri, cs: seq<Component>, component: Component)
    requires forall c :: c in cs && c.id == component.id ==> c == component
    ensures OfComponent(base, component) in Components(base, cs) <==> component in cs
  {
    if OfComponent(base, component) in Components(base, cs) {
      var i :| 0 <= i < |cs| && Components(base, cs)[i] == OfComponent(base, component);
      assert cs[i] in cs;
    }
    if component in cs {
      var i :| 0 <= i < |cs| && cs[i] == component;
      assert Components(base, cs)[i] == OfComponent(base, component);
    }
  }

  lemma HostsListedIff(s: State, base: BaseUri, appId: Id, componentId: Id)
    requires Inv(s) && SetExact(IndexFor(s, AppHost))
    requires appId in s.apps.entries && componentId in s.components.entries
    ensures var app := s.apps.entries[appId];
            OfApp(base, app) in ComponentHosts(s, base, componentId, []).value <==> app.hostId == componentId
  {
    var app, hosted := s.apps.entries[appId], AppsOfComponent(s, componentId);
    AppsNarrow(base, hosted, []);
    AppListed(base, hosted, app);
    assert Listed(s.appsByComponent, componentId, appId) == Claims(HostClaims(s.apps.entries), appId, componentId);
  }

  /** An app is among a component's hosts exactly when its location is that component. */
  lemma HostsInverseOfLocation(s: State, base: BaseUri, appId: Id, componentId: Id)
    requires Inv(s) && SetExact(IndexFor(s, AppHost))
    requires appId in s.apps.entries && componentId in s.components.entries
    ensures var app, component := s.apps.entries[appId], s.components.entries[componentId];
            OfApp(base, app) in ComponentHosts(s, base, componentId, []).value
            <==> AppIsLocatedOn(s, base, appId) == Ok([OfComponent(base, component)])
  {
    HostsListedIff(s, base, appId, componentId);
    var hostId := s.apps.entries[appId].hostId;
    if hostId in s.components.entries {
      assert s.components.entries[hostId].id == hostId;
    }
  }

  /** Without tags, an area's contents are its components and then its apps. */
  lemma ContentsInTwoParts(s: State, base: BaseUri, areaId: Id)
    requires areaId in s.areas.entries
    ensures AreaContains(s, base, areaId, [])
         == Ok(Components(base, ComponentsOfArea(s, areaId)) + Apps(base, AppsOfArea(s, areaId)))
  {
    ComponentsNarrow(base, ComponentsOfArea(s, areaId), []);
    AppsNarrow(base, AppsOfArea(s, areaId), []);
  }

  /** A component is among an area's contents exactly when it belongs to that area. */
  lemma ContentsInverseOfComponentArea(s: State, base: BaseUri, componentId: Id, areaId: Id)
    requires Inv(s) && SetExact(IndexFor(s, ComponentArea))
    requires componentId in s.components.entries && areaId in s.areas.entries
    ensures OfComponent(base, s.components.entries[componentId]) in Components(base, ComponentsOfArea(s, areaId))
            <==> ComponentBelongsTo(s, base, componentId, []) == Ok([OfArea(base, s.areas.entries[areaId])])
  {
    var component, members := s.components.entries[componentId], ComponentsOfArea(s, areaId);
    ComponentListed(base, members, component);
    assert Listed(s.componentsByArea, areaId, componentId)
        == Claims(ComponentAreaClaims(s.components.entries), componentId, areaId);
    assert component in members <==> component.areaId == Some(areaId);
  }

  /** An app is among an area's contents exactly when it belongs to that area. */
  lemma ContentsInverseOfAppArea(s: State, base: BaseUri, appId: Id, areaId: Id)
    requires Inv(s) && SetExact(IndexFor(s, AppArea))
    requires appId in s.apps.entries && areaId in s.areas.entries
    ensures OfApp(base, s.apps.entries[appId]) in Apps(base, AppsOfArea(s, areaId))
            <==> AppBelongsTo(s, base, appId, []) == Ok([OfArea(base, s.areas.entries[areaId])])
  {
    var app, members := s.apps.entries[appId], AppsOfArea(s, areaId);
    AppListed(base, members, app);
    assert Listed(s.appsByArea, areaId, appId) == Claims(AppAreaClaims(s.apps.entries), appId, areaId);
    assert app in members <==> app.areaId == Some(areaId);
  }

  /** The item gives an entity's own details; an entity without tags has none to give. */
  ghost predicate Describes(
    item: EntityReference, id: Id, name: Text, translationId: Option<Text>, tags: seq<Text>)
  {
    item.id == id && item.name == name && item.translationId == translationId
    && OrEmpty(item.tags) == tags && item.tags != Some([])
  }

  /** Every kind of item gives its entity's details, and a link that leads back to it. */
  lemma ItemsDescribe(base: BaseUri, c: Component, a: App, r: Area)
    requires WellFormedBase(base) && c.id != [] && a.id != [] && r.id != []
    ensures var item := OfComponent(base, c);
            Describes(item, c.id, c.name, c.translationId, c.tags)
            && Route(base.path, PathOf(item.href)) == Some(EntityRef(ComponentKind, c.id))
    ensures var item := OfApp(base, a);
            Describes(item, a.id, a.name, a.translationId, a.tags)
            && Route(base.path, PathOf(item.href)) == Some(EntityRef(AppKind, a.id))
    ensures var item := OfArea(base, r);
            Describes(item, r.id, r.name, r.translationId, r.tags)
            && Route(base.path, PathOf(item.href)) == Some(EntityRef(AreaKind, r.id))
  {
    HrefRoutesIff(base, EntityRef(ComponentKind, c.id));
    HrefRoutesIff(base, EntityRef(AppKind, a.id));
    HrefRoutesIff(base, EntityRef(AreaKind, r.id));
  }

  /** Position by position, a collection lists its whole table. */
  lemma ComponentsListed(s: State, base: BaseUri)
    requires Inv(s)
    ensures var items := ComponentList(s, base, []).value;
            && |items| == |s.components.keys|
            && forall i :: 0 <= i < |items| ==> items[i] == OfComponent(base, s.components.entries[s.components.keys[i]])
  {
    ComponentsNarrow(base, Values(s.components), []);
    ResolveAll(s.components.keys, s.components.entries);
  }

  lemma AppsListed(s: State, base: BaseUri)
    requires Inv(s)
    ensures var items := AppList(s, base, []).value;
            && |items| == |s.apps.keys|
            && forall i :: 0 <= i < |items| ==> items[i] == OfApp(base, s.apps.entries[s.apps.keys[i]])
  {
    AppsNarrow(base, Values(s.apps), []);
    ResolveAll(s.apps.keys, s.apps.entries);
  }

  lemma AreasListed(s: State, base: BaseUri)
    requires Inv(s)
    ensures var items := AreaList(s, base, []).value;
            && |items| == |s.areas.keys|
            && forall i :: 0 <= i < |items| ==> items[i] == OfArea(base, s.areas.entries[s.areas.keys[i]])
  {
    AreasNarrow(base, Values(s.areas), []);
    ResolveAll(s.areas.keys, s.areas.entries);
  }
}
