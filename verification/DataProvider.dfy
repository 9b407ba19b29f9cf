/** Data providers: the trait's default queries, the builder, and the built provider's own queries. */
module DataProvider {
  import opened Sequences

  datatype DataScope = Groups(groups: seq<Text>) | Categories(categories: seq<Text>)

  datatype DataFilter = DataFilter(scope: Option<DataScope>, tags: seq<Text>)

  const NO_FILTER := DataFilter(None, [])

  datatype Metadata = Metadata(
    id: Text, name: Text, category: Text, translationId: Option<Text>, groups: seq<Text>, tags: seq<Text>,
    schema: Option<Text>, isReadable: bool, isWritable: bool)

  datatype CategoryInfo = CategoryInfo(category: Text, translationId: Option<Text>)

  datatype GroupInfo = GroupInfo(
    id: Text, category: Text, categoryTranslationId: Option<Text>, group: Option<Text>,
    groupTranslationId: Option<Text>)

  datatype TagInfo = TagInfo(id: Text, description: Option<Text>, translationId: Option<Text>)

  // ---- Keeping the first of each key

  datatype Keyed<T> = Keyed(key: Text, value: T)

  ghost function Keys<T>(ps: seq<Keyed<T>>): set<Text> {
    if ps == [] then {} else {ps[0].key} + Keys(ps[1..])
  }

  lemma {:induction false} KeysMember<T>(ps: seq<Keyed<T>>, k: Text)
    ensures k in Keys(ps) <==> exists i :: 0 <= i < |ps| && ps[i].key == k
  {
    if ps != [] {
      KeysMember(ps[1..], k);
      assert forall i :: 0 <= i < |ps| - 1 ==> ps[1..][i] == ps[i + 1];
      if i :| 0 <= i < |ps| && ps[i].key == k && i > 0 {
        assert ps[1..][i - 1].key == k;
      }
    }
  }

  /** `filter(|p| seen.insert(p.key))`, threading the set through. */
  function FilterSeen<T>(ps: seq<Keyed<T>>, seen: set<Text>): seq<Keyed<T>> {
    if ps == [] then []
    else if ps[0].key in seen then FilterSeen(ps[1..], seen)
    else [ps[0]] + FilterSeen(ps[1..], seen + {ps[0].key})
  }

  lemma {:induction false} FilterSeenLast<T>(ps: seq<Keyed<T>>, p: Keyed<T>, seen: set<Text>)
    ensures FilterSeen(ps + [p], seen)
         == FilterSeen(ps, seen) + if p.key in seen + Keys(ps) then [] else [p]
  {
    if ps == [] {
    } else {
      assert (ps + [p])[1..] == ps[1..] + [p];
      FilterSeenLast(ps[1..], p, seen);
      FilterSeenLast(ps[1..], p, seen + {ps[0].key});
      assert seen + {ps[0].key} + Keys(ps[1..]) == seen + Keys(ps);
    }
  }

  /** No earlier pair has the key of the pair at `i`. */
  ghost predicate IsFirst<T>(ps: seq<Keyed<T>>, i: nat)
    requires i < |ps|
  {
    forall j :: 0 <= j < i ==> ps[j].key != ps[i].key
  }

  /** The pairs at positions where their key occurs first, in order. */
  ghost function Firsts<T>(ps: seq<Keyed<T>>): seq<Keyed<T>> {
    if ps == [] then []
    else Firsts(ps[..|ps| - 1]) + if IsFirst(ps, |ps| - 1) then [ps[|ps| - 1]] else []
  }

  /** Threading a `seen` set keeps the first occurrence of each key. */
  lemma {:induction false} FilterSeenIsFirsts<T>(ps: seq<Keyed<T>>)
    ensures FilterSeen(ps, {}) == Firsts(ps)
  {
    if ps != [] {
      var front, last := ps[..|ps| - 1], ps[|ps| - 1];
      FilterSeenIsFirsts(front);
      FilterSeenLast(front, last, {});
      assert ps == front + [last];
      assert forall j :: 0 <= j < |front| ==> front[j] == ps[j];
      KeysMember(front, last.key);
    }
  }

  /** What is kept is in the order of first occurrence. */
  lemma {:induction false} FirstsInOrder<T>(ps: seq<Keyed<T>>, a: nat, b: nat) returns (i: nat, j: nat)
    requires a <= b < |Firsts(ps)|
    ensures i < |ps| && j < |ps| && i <= j && (a < b ==> i < j)
    ensures ps[i] == Firsts(ps)[a] && ps[j] == Firsts(ps)[b] && IsFirst(ps, i) && IsFirst(ps, j)
  {
    var n := |ps| - 1;
    var front := Firsts(ps[..n]);
    if b < |front| {
      i, j := FirstsInOrder(ps[..n], a, b);
    } else if a < |front| {
      var k;
      i, k := FirstsInOrder(ps[..n], a, a);
      j := n;
    } else {
      i, j := n, n;
    }
  }

  /** Each key is kept exactly once. */
  lemma {:induction false} FilterSeenKeys<T>(ps: seq<Keyed<T>>, seen: set<Text>)
    ensures Keys(FilterSeen(ps, seen)) == Keys(ps) - seen
    ensures forall i, j :: 0 <= i < j < |FilterSeen(ps, seen)|
                           ==> FilterSeen(ps, seen)[i].key != FilterSeen(ps, seen)[j].key
    ensures forall p :: p in FilterSeen(ps, seen) ==> p in ps
  {
    if ps != [] {
      if ps[0].key in seen {
        FilterSeenKeys(ps[1..], seen);
      } else {
        var rest := FilterSeen(ps[1..], seen + {ps[0].key});
        FilterSeenKeys(ps[1..], seen + {ps[0].key});
        assert FilterSeen(ps, seen)[1..] == rest;
        assert Keys(ps) - seen == {ps[0].key} + (Keys(ps[1..]) - (seen + {ps[0].key}));
        forall j | 0 <= j < |rest| ensures rest[j].key != ps[0].key {
          KeysMember(rest, rest[j].key);
        }
      }
    }
  }

  function Payload<T>(ps: seq<Keyed<T>>): (r: seq<T>)
    ensures |r| == |ps| && forall i :: 0 <= i < |r| ==> r[i] == ps[i].value
  {
    seq(|ps|, i requires 0 <= i < |ps| => ps[i].value)
  }

  // ---- The trait's defaults, computed from `list`

  function CategoryPairs(all: seq<Metadata>): seq<Keyed<CategoryInfo>> {
    seq(|all|, i requires 0 <= i < |all| => Keyed(all[i].category, CategoryInfo(all[i].category, all[i].translationId)))
  }

  predicate InCategory(m: Metadata, filter: Option<Text>) {
    filter.None? || m.category == filter.value
  }

  function GroupsOf(m: Metadata): seq<Keyed<GroupInfo>> {
    seq(|m.groups|, i requires 0 <= i < |m.groups| =>
      Keyed(m.groups[i], GroupInfo(m.groups[i], m.category, None, None, None)))
  }

  function GroupPairs(all: seq<Metadata>, filter: Option<Text>): seq<Keyed<GroupInfo>> {
    if all == [] then []
    else (if InCategory(all[0], filter) then GroupsOf(all[0]) else []) + GroupPairs(all[1..], filter)
  }

  function TagsOf(m: Metadata): seq<Keyed<TagInfo>> {
    seq(|m.tags|, i requires 0 <= i < |m.tags| => Keyed(m.tags[i], TagInfo(m.tags[i], None, None)))
  }

  function TagPairs(all: seq<Metadata>): seq<Keyed<TagInfo>> {
    if all == [] then [] else TagsOf(all[0]) + TagPairs(all[1..])
  }

  function DefaultCategories(all: seq<Metadata>): seq<CategoryInfo> {
    Payload(FilterSeen(CategoryPairs(all), {}))
  }

  function DefaultGroups(all: seq<Metadata>, filter: Option<Text>): seq<GroupInfo> {
    Payload(FilterSeen(GroupPairs(all, filter), {}))
  }

  function DefaultTags(all: seq<Metadata>): seq<TagInfo> {
    Payload(FilterSeen(TagPairs(all), {}))
  }

  /** Each default query lists the first occurrence of each category, group or tag, in `list` order. */
  lemma DefaultsKeepFirsts(all: seq<Metadata>, filter: Option<Text>)
    ensures DefaultCategories(all) == Payload(Firsts(CategoryPairs(all)))
    ensures DefaultGroups(all, filter) == Payload(Firsts(GroupPairs(all, filter)))
    ensures DefaultTags(all) == Payload(Firsts(TagPairs(all)))
  {
    FilterSeenIsFirsts(CategoryPairs(all));
    FilterSeenIsFirsts(GroupPairs(all, filter));
    FilterSeenIsFirsts(TagPairs(all));
  }

  /** Resource `i` is the first of its category. */
  ghost predicate FirstOfCategory(all: seq<Metadata>, i: nat) {
    i < |all| && forall j :: 0 <= j < i ==> all[j].category != all[i].category
  }

  /** The entry at `a` is for the category of resource `i`, the first of that category, and has its translation. */
  lemma CategoryEntryIs(all: seq<Metadata>, a: nat, b: nat) returns (i: nat, j: nat)
    requires a <= b < |DefaultCategories(all)|
    ensures FirstOfCategory(all, i) && DefaultCategories(all)[a] == CategoryInfo(all[i].category, all[i].translationId)
    ensures FirstOfCategory(all, j) && DefaultCategories(all)[b] == CategoryInfo(all[j].category, all[j].translationId)
    ensures a < b ==> i < j
  {
    DefaultsKeepFirsts(all, None);
    i, j := FirstsInOrder(CategoryPairs(all), a, b);
    assert forall k :: 0 <= k < |all| ==> CategoryPairs(all)[k].key == all[k].category;
  }

  /** Every category of a resource has an entry. */
  lemma CategoriesAreListed(all: seq<Metadata>, category: Text)
    ensures (exists a :: 0 <= a < |DefaultCategories(all)| && DefaultCategories(all)[a].category == category)
       <==> exists m :: m in all && m.category == category
  {
    var ps := CategoryPairs(all);
    var kept := FilterSeen(ps, {});
    FilterSeenKeys(ps, {});
    KeysMember(ps, category);
    KeysMember(kept, category);
    forall a | 0 <= a < |kept| ensures kept[a].value.category == kept[a].key {
      assert kept[a] in ps;
    }
    if m :| m in all && m.category == category {
      var i :| 0 <= i < |all| && all[i] == m;
      assert ps[i].key == category;
      var a :| 0 <= a < |kept| && kept[a].key == category;
      assert DefaultCategories(all)[a].category == category;
    }
    if a :| 0 <= a < |DefaultCategories(all)| && DefaultCategories(all)[a].category == category {
      assert kept[a].key == category;
      var i :| 0 <= i < |ps| && ps[i].key == category;
      assert all[i] in all;
    }
  }

  lemma {:induction false} GroupPairsPlus(all: seq<Metadata>, m: Metadata, filter: Option<Text>)
    ensures GroupPairs(all + [m], filter)
         == GroupPairs(all, filter) + if InCategory(m, filter) then GroupsOf(m) else []
  {
    if all == [] {
      assert [m][1..] == [];
    } else {
      var head: seq<Keyed<GroupInfo>> := if InCategory(all[0], filter) then GroupsOf(all[0]) else [];
      var last: seq<Keyed<GroupInfo>> := if InCategory(m, filter) then GroupsOf(m) else [];
      GroupPairsPlus(all[1..], m, filter);
      assert (all + [m])[0] == all[0] && (all + [m])[1..] == all[1..] + [m];
      assert head + GroupPairs(all[1..], filter) + last == head + (GroupPairs(all[1..], filter) + last);
    }
  }

  /** The groups of one more resource, if it fits the filter, come after those of the others, in its own order. */
  lemma GroupsOfOneMore(all: seq<Metadata>, m: Metadata, filter: Option<Text>)
    ensures GroupPairs(all + [m], filter)
         == GroupPairs(all, filter)
            + if filter == None || filter == Some(m.category)
              then seq(|m.groups|, i requires 0 <= i < |m.groups| =>
                     Keyed(m.groups[i], GroupInfo(m.groups[i], m.category, None, None, None)))
              else []
  {
    GroupPairsPlus(all, m, filter);
  }

  /** The tags of one more resource come after those of the others, in its own order. */
  lemma {:induction false} TagsOfOneMore(all: seq<Metadata>, m: Metadata)
    ensures TagPairs(all + [m])
         == TagPairs(all)
            + seq(|m.tags|, i requires 0 <= i < |m.tags| => Keyed(m.tags[i], TagInfo(m.tags[i], None, None)))
  {
    if all == [] {
      assert [m][1..] == [];
    } else {
      TagsOfOneMore(all[1..], m);
      assert (all + [m])[1..] == all[1..] + [m];
    }
  }

  /** A group listed by some resource of the category, if one is given. */
  ghost predicate HasGroup(all: seq<Metadata>, filter: Option<Text>, g: Text, category: Text) {
    exists m :: m in all && InCategory(m, filter) && g in m.groups && m.category == category
  }

  lemma {:induction false} GroupPairsAre(all: seq<Metadata>, filter: Option<Text>, p: Keyed<GroupInfo>)
    ensures p in GroupPairs(all, filter)
       <==> HasGroup(all, filter, p.key, p.value.category)
            && p.value == GroupInfo(p.key, p.value.category, None, None, None)
  {
    if all != [] {
      var first, rest := all[0], all[1..];
      assert all == [first] + rest;
      GroupPairsAre(rest, filter, p);
      if p.key in first.groups && p.value == GroupInfo(p.key, first.category, None, None, None) {
        var i :| 0 <= i < |first.groups| && first.groups[i] == p.key;
        assert GroupsOf(first)[i] == p;
      }
      assert HasGroup(all, filter, p.key, p.value.category)
        <==> HasGroup(rest, filter, p.key, p.value.category)
             || (InCategory(first, filter) && p.key in first.groups && first.category == p.value.category);
    }
  }

  lemma {:induction false} TagPairsAre(all: seq<Metadata>, id: Text)
    ensures id in Keys(TagPairs(all)) <==> exists m :: m in all && id in m.tags
    ensures forall p :: p in TagPairs(all) ==> p.value == TagInfo(p.key, None, None)
  {
    if all != [] {
      var first, rest := all[0], all[1..];
      assert all == [first] + rest;
      TagPairsAre(rest, id);
      KeysMember(TagPairs(all), id);
      KeysMember(TagPairs(rest), id);
      if id in first.tags {
        var i :| 0 <= i < |first.tags| && first.tags[i] == id;
        assert TagPairs(all)[i].key == id;
      }
      if i :| 0 <= i < |TagPairs(rest)| && TagPairs(rest)[i].key == id {
        assert TagPairs(all)[|first.tags| + i].key == id;
      }
    }
  }

  /** The tags listed are exactly the tags of some resource, each once. */
  lemma TagsAreDistinct(all: seq<Metadata>, id: Text)
    ensures TagInfo(id, None, None) in DefaultTags(all) <==> exists m :: m in all && id in m.tags
    ensures var ts := DefaultTags(all); forall i, j :: 0 <= i < j < |ts| ==> ts[i].id != ts[j].id
  {
    var kept := FilterSeen(TagPairs(all), {});
    TagPairsAre(all, id);
    FilterSeenKeys(TagPairs(all), {});
    KeysMember(kept, id);
    forall i | 0 <= i < |kept| ensures kept[i].value == TagInfo(kept[i].key, None, None) {
      assert kept[i] in TagPairs(all);
    }
    if k :| 0 <= k < |kept| && kept[k].key == id {
      assert DefaultTags(all)[k] == TagInfo(id, None, None);
    }
  }

  ghost function GroupIds(all: seq<Metadata>, filter: Option<Text>): set<Text> {
    set g | g in DefaultGroups(all, filter) :: g.id
  }

  /** Group ids are distinct, and each entry is a group of a resource asked about, with its category. */
  lemma GroupsAreDistinct(all: seq<Metadata>, filter: Option<Text>)
    ensures var gs := DefaultGroups(all, filter);
            && (forall i, j :: 0 <= i < j < |gs| ==> gs[i].id != gs[j].id)
            && (forall i :: 0 <= i < |gs| ==> HasGroup(all, filter, gs[i].id, gs[i].category))
            && (forall i :: 0 <= i < |gs| ==> gs[i] == GroupInfo(gs[i].id, gs[i].category, None, None, None))
  {
    var kept := FilterSeen(GroupPairs(all, filter), {});
    FilterSeenKeys(GroupPairs(all, filter), {});
    forall i | 0 <= i < |kept|
      ensures HasGroup(all, filter, kept[i].key, kept[i].value.category)
      ensures kept[i].value == GroupInfo(kept[i].key, kept[i].value.category, None, None, None)
    {
      assert kept[i] in kept;
      GroupPairsAre(all, filter, kept[i]);
    }
  }

  lemma GroupIdsAre(all: seq<Metadata>, filter: Option<Text>, id: Text)
    ensures id in GroupIds(all, filter) <==> exists category :: HasGroup(all, filter, id, category)
  {
    var ps := GroupPairs(all, filter);
    var gs := DefaultGroups(all, filter);
    if id in GroupIds(all, filter) {
      var i :| 0 <= i < |gs| && gs[i].id == id;
      GroupsAreDistinct(all, filter);
    }
    if category :| HasGroup(all, filter, id, category) {
      var p := Keyed(id, GroupInfo(id, category, None, None, None));
      GroupPairsAre(all, filter, p);
      var i :| 0 <= i < |ps| && ps[i] == p;
      KeysMember(ps, id);
      GroupKept(all, filter, id);
    }
  }

  lemma GroupKept(all: seq<Metadata>, filter: Option<Text>, id: Text)
    requires id in Keys(GroupPairs(all, filter))
    ensures id in GroupIds(all, filter)
  {
    var ps := GroupPairs(all, filter);
    var kept := FilterSeen(ps, {});
    FilterSeenKeys(ps, {});
    KeysMember(kept, id);
    var k :| 0 <= k < |kept| && kept[k].key == id;
    assert kept[k] in ps;
    GroupPairsAre(all, filter, kept[k]);
    assert DefaultGroups(all, filter)[k].id == id;
  }

  /** Unfiltered groups are exactly the union over categories of that category's groups. */
  lemma GroupsAreUnionOverCategories(all: seq<Metadata>, id: Text)
    ensures id in GroupIds(all, None) <==> exists c :: id in GroupIds(all, Some(c))
    ensures forall c, i :: 0 <= i < |DefaultGroups(all, Some(c))| ==> DefaultGroups(all, Some(c))[i].category == c
  {
    GroupIdsAre(all, None, id);
    forall c
      ensures id in GroupIds(all, Some(c)) <==> exists category :: HasGroup(all, Some(c), id, category)
      ensures forall i :: 0 <= i < |DefaultGroups(all, Some(c))| ==> DefaultGroups(all, Some(c))[i].category == c
    {
      GroupIdsAre(all, Some(c), id);
      GroupsAreDistinct(all, Some(c));
    }
    if category :| HasGroup(all, None, id, category) {
      assert HasGroup(all, Some(category), id, category);
      assert id in GroupIds(all, Some(category));
    }
    if c :| id in GroupIds(all, Some(c)) {
      var category :| HasGroup(all, Some(c), id, category);
      assert HasGroup(all, None, id, category);
    }
  }
}
