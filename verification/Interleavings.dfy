/**
 Several discovery providers at once: what does not depend on how their streams
 interleave, and exactly when the reverse indexes do not either.
 */
module Interleavings {
  import opened Sequences
  import opened IndexMaps
  import opened Entities
  import opened ReverseIndex
  import opened TopologyModel
  import opened TopologyRuns
  import opened Discovery

  /** One item of the merged stream and the provider it came from. */
  datatype Arrival = Arrival(provider: nat, item: Item)

  function RunArrivals(s: State, merged: seq<Arrival>): State {
    if merged == [] then s
    else ApplyItem(RunArrivals(s, merged[..|merged| - 1]), merged[|merged| - 1].item)
  }

  /** One provider's items, in its own order. */
  function From(merged: seq<Arrival>, provider: nat): seq<Item> {
    if merged == [] then []
    else
      var front, last := From(merged[..|merged| - 1], provider), merged[|merged| - 1];
      if last.provider == provider then front + [last.item] else front
  }

  /** Two interleavings of the same streams. */
  ghost predicate SameStreams(one: seq<Arrival>, two: seq<Arrival>) {
    forall p :: From(one, p) == From(two, p)
  }

  /** Every diff only mentions refs that its provider owns. */
  ghost predicate Disjoint(merged: seq<Arrival>, owner: EntityRef -> nat) {
    forall a :: a in merged && a.item.Ok? ==> forall op :: op in DiffOps(a.item.value) ==> owner(RefOf(op)) == a.provider
  }

  // ---- Streams as operations

  function OpsOfItem(item: Item): seq<Op> {
    if item.Ok? then DiffOps(item.value) else []
  }

  function OpsOfItems(items: seq<Item>): seq<Op> {
    if items == [] then [] else OpsOfItems(items[..|items| - 1]) + OpsOfItem(items[|items| - 1])
  }

  function ItemOf(): Arrival -> Item {
    (a: Arrival) => a.item
  }

  function OpsOfArrivals(merged: seq<Arrival>): seq<Op> {
    OpsOfItems(Each(merged, ItemOf()))
  }

  lemma OpsOfOneMore(merged: seq<Arrival>)
    requires merged != []
    ensures OpsOfArrivals(merged)
         == OpsOfArrivals(merged[..|merged| - 1]) + OpsOfItem(merged[|merged| - 1].item)
  {
    assert Each(merged, ItemOf())[..|merged| - 1] == Each(merged[..|merged| - 1], ItemOf());
  }

  lemma {:induction false} ArrivalsAreOps(s: State, merged: seq<Arrival>)
    ensures RunArrivals(s, merged) == Run(s, OpsOfArrivals(merged))
  {
    if merged != [] {
      var front, last := merged[..|merged| - 1], merged[|merged| - 1];
      ArrivalsAreOps(s, front);
      OpsOfOneMore(merged);
      RunConcat(s, OpsOfArrivals(front), OpsOfItem(last.item));
    }
  }

  lemma {:induction false} ItemsAreOps(s: State, items: seq<Item>)
    ensures RunItems(s, items) == Run(s, OpsOfItems(items))
  {
    if items != [] {
      var front, last := items[..|items| - 1], items[|items| - 1];
      ItemsAreOps(s, front);
      RunConcat(s, OpsOfItems(front), OpsOfItem(last));
    }
  }

  function OwnedBy(owner: EntityRef -> nat, provider: nat): Op -> bool {
    (op: Op) => owner(RefOf(op)) == provider
  }

  /** The operations on one provider's refs. */
  function Owned(ops: seq<Op>, owner: EntityRef -> nat, provider: nat): seq<Op> {
    Filter(ops, OwnedBy(owner, provider))
  }

  /** With disjoint owners, those are the operations of that provider's stream. */
  lemma {:induction false} OwnedIsStream(merged: seq<Arrival>, owner: EntityRef -> nat, provider: nat)
    requires Disjoint(merged, owner)
    ensures Owned(OpsOfArrivals(merged), owner, provider) == OpsOfItems(From(merged, provider))
  {
    if merged != [] {
      var front, last := merged[..|merged| - 1], merged[|merged| - 1];
      assert last in merged && forall a :: a in front ==> a in merged;
      OwnedIsStream(front, owner, provider);
      OpsOfOneMore(merged);
      var ops := OpsOfItem(last.item);
      FilterConcat(OpsOfArrivals(front), ops, OwnedBy(owner, provider));
      if last.provider == provider {
        FilterAll(ops, OwnedBy(owner, provider));
        assert (From(front, provider) + [last.item])[..|From(front, provider)|] == From(front, provider);
      } else {
        FilterNone(ops, OwnedBy(owner, provider));
      }
    }
  }

  lemma {:induction false} FromMember(merged: seq<Arrival>, provider: nat, item: Item)
    ensures item in From(merged, provider) <==> Arrival(provider, item) in merged
  {
    if merged != [] {
      var front, last := merged[..|merged| - 1], merged[|merged| - 1];
      assert merged == front + [last];
      FromMember(front, provider, item);
    }
  }

  lemma DisjointStays(one: seq<Arrival>, two: seq<Arrival>, owner: EntityRef -> nat)
    requires Disjoint(one, owner) && SameStreams(one, two)
    ensures Disjoint(two, owner)
  {
    forall a | a in two && a.item.Ok? ensures a in one {
      FromMember(one, a.provider, a.item);
      FromMember(two, a.provider, a.item);
      assert From(one, a.provider) == From(two, a.provider);
    }
  }

  // ---- The tables

  /** What ends up under a ref depends on what was there and on its owner's operations alone. */
  lemma {:induction false} LookupIsLocal(s: State, t: State, ops: seq<Op>, owner: EntityRef -> nat, ref: EntityRef)
    requires Lookup(s, ref) == Lookup(t, ref)
    ensures Lookup(Run(s, ops), ref) == Lookup(Run(t, Owned(ops, owner, owner(ref))), ref)
  {
    if ops != [] {
      var front, last := ops[..|ops| - 1], ops[|ops| - 1];
      var mine := Owned(front, owner, owner(ref));
      LookupIsLocal(s, t, front, owner, ref);
      LookupAfterOne(Run(s, front), last, ref);
      LookupAfterOne(Run(t, mine), last, ref);
      assert (mine + [last])[..|mine|] == mine;
    }
  }

  /** What ends up under a ref depends on its owner's stream alone. */
  lemma OwnerDecides(s: State, merged: seq<Arrival>, owner: EntityRef -> nat, ref: EntityRef)
    requires Disjoint(merged, owner)
    ensures Lookup(RunArrivals(s, merged), ref) == Lookup(RunItems(s, From(merged, owner(ref))), ref)
  {
    ArrivalsAreOps(s, merged);
    ItemsAreOps(s, From(merged, owner(ref)));
    OwnedIsStream(merged, owner, owner(ref));
    LookupIsLocal(s, s, OpsOfArrivals(merged), owner, ref);
  }

  ghost predicate SameTables(a: State, b: State) {
    a.components.entries == b.components.entries
    && a.apps.entries == b.apps.entries
    && a.areas.entries == b.areas.entries
  }

  lemma SameLookups(a: State, b: State)
    requires forall ref :: Lookup(a, ref) == Lookup(b, ref)
    ensures SameTables(a, b)
  {
    forall id
      ensures id in a.components.entries <==> id in b.components.entries
      ensures id in a.components.entries ==> a.components.entries[id] == b.components.entries[id]
      ensures id in a.apps.entries <==> id in b.apps.entries
      ensures id in a.apps.entries ==> a.apps.entries[id] == b.apps.entries[id]
      ensures id in a.areas.entries <==> id in b.areas.entries
      ensures id in a.areas.entries ==> a.areas.entries[id] == b.areas.entries[id]
    {
      assert Lookup(a, EntityRef(ComponentKind, id)) == Lookup(b, EntityRef(ComponentKind, id));
      assert Lookup(a, EntityRef(AppKind, id)) == Lookup(b, EntityRef(AppKind, id));
      assert Lookup(a, EntityRef(AreaKind, id)) == Lookup(b, EntityRef(AreaKind, id));
    }
  }

  /** Any two interleavings of streams over disjoint refs end with the same tables. */
  lemma InterleavingsConfluent(s: State, one: seq<Arrival>, two: seq<Arrival>, owner: EntityRef -> nat)
    requires Disjoint(one, owner) && SameStreams(one, two)
    ensures SameTables(RunArrivals(s, one), RunArrivals(s, two))
  {
    DisjointStays(one, two, owner);
    forall ref ensures Lookup(RunArrivals(s, one), ref) == Lookup(RunArrivals(s, two), ref) {
      OwnerDecides(s, one, owner, ref);
      OwnerDecides(s, two, owner, ref);
      assert From(one, owner(ref)) == From(two, owner(ref));
    }
    SameLookups(RunArrivals(s, one), RunArrivals(s, two));
  }

  // ---- The indexes: one key and one id

  /** Bucket `key` of an index lists `id`. */
  ghost predicate Lists(s: State, rel: Relation, key: Id, id: Id) {
    Listed(IndexFor(s, rel).buckets, key, id)
  }

  predicate Joins(s: State, rel: Relation, op: Op, key: Id, id: Id) {
    IndexOpOf(s, rel, op) == Put(id, Some(key))
  }

  /** A delete only visits the bucket its id claims. */
  ghost predicate Leaves(s: State, rel: Relation, op: Op, key: Id, id: Id) {
    IndexOpOf(s, rel, op) == Delete(id) && Claims(IndexFor(s, rel).claims, id, key)
  }

  predicate Clears(s: State, rel: Relation, op: Op, key: Id) {
    IndexOpOf(s, rel, op) == Clear(key)
  }

  lemma ListsAfterOne(s: State, rel: Relation, op: Op, key: Id, id: Id)
    requires Inv(s)
    ensures Lists(Apply(s, op), rel, key, id)
       <==> Joins(s, rel, op, key, id)
            || (Lists(s, rel, key, id) && !Leaves(s, rel, op, key, id) && !Clears(s, rel, op, key))
  {
    ApplyOnIndex(s, rel, op);
    match IndexOpOf(s, rel, op)
    case Put(x, claim) => PutListed(IndexFor(s, rel), x, claim, key, id);
    case Delete(x) => DeleteListed(IndexFor(s, rel), x, key, id);
    case _ =>
  }

  /** The last thing a run did about `id` in bucket `key`, clears aside. */
  datatype Mark = Untouched | Joined | Left

  ghost function LastMark(s: State, ops: seq<Op>, rel: Relation, key: Id, id: Id): Mark {
    if ops == [] then Untouched
    else
      var front, last := ops[..|ops| - 1], ops[|ops| - 1];
      if Joins(Run(s, front), rel, last, key, id) then Joined
      else if Leaves(Run(s, front), rel, last, key, id) then Left
      else LastMark(s, front, rel, key, id)
  }

  /** Some operation of the run empties bucket `key`. */
  ghost predicate EverClears(s: State, ops: seq<Op>, rel: Relation, key: Id) {
    ops != []
    && (Clears(Run(s, ops[..|ops| - 1]), rel, ops[|ops| - 1], key) || EverClears(s, ops[..|ops| - 1], rel, key))
  }

  /** Unless the run both joined last and cleared, mark and clears say whether the bucket lists the id. */
  lemma {:induction false} ListsByMark(s: State, ops: seq<Op>, rel: Relation, key: Id, id: Id)
    requires Inv(s)
    ensures var mark, now := LastMark(s, ops, rel, key, id), Lists(Run(s, ops), rel, key, id);
            && (mark.Left? ==> !now)
            && (mark.Untouched? ==> (now <==> Lists(s, rel, key, id) && !EverClears(s, ops, rel, key)))
            && (mark.Joined? && !EverClears(s, ops, rel, key) ==> now)
  {
    if ops != [] {
      var front, last := ops[..|ops| - 1], ops[|ops| - 1];
      ListsByMark(s, front, rel, key, id);
      RunKeepsInv(s, front);
      ListsAfterOne(Run(s, front), rel, last, key, id);
    }
  }

  function MemberRef(rel: Relation, id: Id): EntityRef {
    EntityRef(MemberKind(rel), id)
  }

  function AreaRef(key: Id): EntityRef {
    EntityRef(AreaKind, key)
  }

  /** Joining and leaving are operations on the id, and depend on what is under the id. */
  lemma MarksAreLocal(s: State, t: State, rel: Relation, op: Op, key: Id, id: Id)
    ensures RefOf(op) != MemberRef(rel, id) ==> !Joins(s, rel, op, key, id) && !Leaves(s, rel, op, key, id)
    ensures Joins(s, rel, op, key, id) == Joins(t, rel, op, key, id)
    ensures Lookup(s, MemberRef(rel, id)) == Lookup(t, MemberRef(rel, id)) ==>
              Leaves(s, rel, op, key, id) == Leaves(t, rel, op, key, id)
  {
  }

  /** Clearing is an operation on the area, and depends on whether it is live. */
  lemma ClearsAreLocal(s: State, t: State, rel: Relation, op: Op, key: Id)
    ensures RefOf(op) != AreaRef(key) ==> !Clears(s, rel, op, key)
    ensures Lookup(s, AreaRef(key)) == Lookup(t, AreaRef(key)) ==> Clears(s, rel, op, key) == Clears(t, rel, op, key)
  {
  }

  lemma {:induction false} LastMarkIsLocal(
    s: State, t: State, ops: seq<Op>, owner: EntityRef -> nat, rel: Relation, key: Id, id: Id)
    requires Lookup(s, MemberRef(rel, id)) == Lookup(t, MemberRef(rel, id))
    ensures LastMark(s, ops, rel, key, id)
         == LastMark(t, Owned(ops, owner, owner(MemberRef(rel, id))), rel, key, id)
  {
    if ops != [] {
      var front, last := ops[..|ops| - 1], ops[|ops| - 1];
      var mine := Owned(front, owner, owner(MemberRef(rel, id)));
      LastMarkIsLocal(s, t, front, owner, rel, key, id);
      LookupIsLocal(s, t, front, owner, MemberRef(rel, id));
      MarksAreLocal(Run(s, front), Run(t, mine), rel, last, key, id);
      assert (mine + [last])[..|mine|] == mine;
    }
  }

  lemma {:induction false} EverClearsIsLocal(
    s: State, t: State, ops: seq<Op>, owner: EntityRef -> nat, rel: Relation, key: Id)
    requires Lookup(s, AreaRef(key)) == Lookup(t, AreaRef(key))
    ensures EverClears(s, ops, rel, key) == EverClears(t, Owned(ops, owner, owner(AreaRef(key))), rel, key)
  {
    if ops != [] {
      var front, last := ops[..|ops| - 1], ops[|ops| - 1];
      var theirs := Owned(front, owner, owner(AreaRef(key)));
      EverClearsIsLocal(s, t, front, owner, rel, key);
      LookupIsLocal(s, t, front, owner, AreaRef(key));
      ClearsAreLocal(Run(s, front), Run(t, theirs), rel, last, key);
      assert (theirs + [last])[..|theirs|] == theirs;
    }
  }

  /** When id and area have one owner, its operations alone decide. */
  lemma {:induction false} OneOwnerDecides(
    s: State, ops: seq<Op>, owner: EntityRef -> nat, rel: Relation, key: Id, id: Id)
    requires Inv(s) && owner(MemberRef(rel, id)) == owner(AreaRef(key))
    ensures Lists(Run(s, ops), rel, key, id)
         == Lists(Run(s, Owned(ops, owner, owner(AreaRef(key)))), rel, key, id)
  {
    if ops != [] {
      var front, last := ops[..|ops| - 1], ops[|ops| - 1];
      var mine := Owned(front, owner, owner(AreaRef(key)));
      OneOwnerDecides(s, front, owner, rel, key, id);
      LookupIsLocal(s, s, front, owner, MemberRef(rel, id));
      LookupIsLocal(s, s, front, owner, AreaRef(key));
      MarksAreLocal(Run(s, front), Run(s, mine), rel, last, key, id);
      ClearsAreLocal(Run(s, front), Run(s, mine), rel, last, key);
      RunKeepsInv(s, front);
      RunKeepsInv(s, mine);
      ListsAfterOne(Run(s, front), rel, last, key, id);
      ListsAfterOne(Run(s, mine), rel, last, key, id);
      assert (mine + [last])[..|mine|] == mine;
    }
  }

  // ---- When all interleavings leave the same members

  /**
   Two providers race for a place in a bucket: the area's owner, run alone, would
   remove the live area, and the id's owner, run alone, would put the id under it
   and not delete it afterwards while it is there.
   */
  ghost predicate Races(s: State, merged: seq<Arrival>, owner: EntityRef -> nat, rel: Relation, key: Id, id: Id) {
    var mine, theirs := owner(MemberRef(rel, id)), owner(AreaRef(key));
    && mine != theirs
    && LastMark(s, OpsOfItems(From(merged, mine)), rel, key, id).Joined?
    && EverClears(s, OpsOfItems(From(merged, theirs)), rel, key)
  }

  ghost predicate RaceFree(s: State, merged: seq<Arrival>, owner: EntityRef -> nat, rel: Relation) {
    forall key, id :: !Races(s, merged, owner, rel, key, id)
  }

  ghost predicate SameMembers(a: State, b: State, rel: Relation) {
    forall key, id :: Lists(a, rel, key, id) == Lists(b, rel, key, id)
  }

  ghost predicate AllEndAlike(s: State, merged: seq<Arrival>, rel: Relation) {
    forall other :: SameStreams(merged, other) ==> SameMembers(RunArrivals(s, merged), RunArrivals(s, other), rel)
  }

  lemma ListsWithoutRace(
    s: State, one: seq<Arrival>, two: seq<Arrival>, owner: EntityRef -> nat, rel: Relation, key: Id, id: Id)
    requires Inv(s) && Disjoint(one, owner) && Disjoint(two, owner) && SameStreams(one, two)
    requires !Races(s, one, owner, rel, key, id)
    ensures Lists(RunArrivals(s, one), rel, key, id) == Lists(RunArrivals(s, two), rel, key, id)
  {
    var mine, theirs := owner(MemberRef(rel, id)), owner(AreaRef(key));
    assert From(one, mine) == From(two, mine) && From(one, theirs) == From(two, theirs);
    StreamsDecide(s, one, owner, rel, key, id);
    StreamsDecide(s, two, owner, rel, key, id);
  }

  /** The owners' streams, run alone, decide everything but a race. */
  lemma StreamsDecide(s: State, merged: seq<Arrival>, owner: EntityRef -> nat, rel: Relation, key: Id, id: Id)
    requires Inv(s) && Disjoint(merged, owner) && !Races(s, merged, owner, rel, key, id)
    ensures var mine := OpsOfItems(From(merged, owner(MemberRef(rel, id))));
            var theirs := OpsOfItems(From(merged, owner(AreaRef(key))));
            Lists(RunArrivals(s, merged), rel, key, id)
            == if owner(MemberRef(rel, id)) == owner(AreaRef(key)) then Lists(Run(s, mine), rel, key, id)
               else match LastMark(s, mine, rel, key, id)
                 case Left => false
                 case Joined => true
                 case Untouched => Lists(s, rel, key, id) && !EverClears(s, theirs, rel, key)
  {
    var ops := OpsOfArrivals(merged);
    ArrivalsAreOps(s, merged);
    OwnedIsStream(merged, owner, owner(MemberRef(rel, id)));
    OwnedIsStream(merged, owner, owner(AreaRef(key)));
    if owner(MemberRef(rel, id)) == owner(AreaRef(key)) {
      OneOwnerDecides(s, ops, owner, rel, key, id);
    } else {
      ListsByMark(s, ops, rel, key, id);
      LastMarkIsLocal(s, s, ops, owner, rel, key, id);
      EverClearsIsLocal(s, s, ops, owner, rel, key);
    }
  }

  // ---- The two orders of a race

  function By(provider: nat): Arrival -> bool {
    (a: Arrival) => a.provider == provider
  }

  function NotBy(provider: nat): Arrival -> bool {
    (a: Arrival) => a.provider != provider
  }

  /** One provider before all others, and after them. */
  function First(merged: seq<Arrival>, provider: nat): seq<Arrival> {
    Filter(merged, By(provider)) + Filter(merged, NotBy(provider))
  }

  function Last(merged: seq<Arrival>, provider: nat): seq<Arrival> {
    Filter(merged, NotBy(provider)) + Filter(merged, By(provider))
  }

  lemma {:induction false} FromConcat(a: seq<Arrival>, b: seq<Arrival>, provider: nat)
    ensures From(a + b, provider) == From(a, provider) + From(b, provider)
  {
    if b == [] {
      assert a + b == a;
    } else {
      FromConcat(a, b[..|b| - 1], provider);
      assert (a + b)[..|a + b| - 1] == a + b[..|b| - 1];
    }
  }

  lemma {:induction false} FromPart(merged: seq<Arrival>, provider: nat, p: nat)
    ensures From(Filter(merged, By(provider)), p) == if p == provider then From(merged, p) else []
    ensures From(Filter(merged, NotBy(provider)), p) == if p == provider then [] else From(merged, p)
  {
    if merged != [] {
      var front, last := merged[..|merged| - 1], merged[|merged| - 1];
      FromPart(front, provider, p);
      var own, others := Filter(front, By(provider)), Filter(front, NotBy(provider));
      assert (own + [last])[..|own|] == own && (others + [last])[..|others|] == others;
    }
  }

  lemma Rearranged(merged: seq<Arrival>, provider: nat)
    ensures SameStreams(merged, First(merged, provider)) && SameStreams(merged, Last(merged, provider))
  {
    var own, others := Filter(merged, By(provider)), Filter(merged, NotBy(provider));
    forall p
      ensures From(merged, p) == From(First(merged, provider), p)
      ensures From(merged, p) == From(Last(merged, provider), p)
    {
      FromPart(merged, provider, p);
      FromConcat(own, others, p);
      FromConcat(others, own, p);
    }
  }

  lemma {:induction false} RunArrivalsConcat(s: State, a: seq<Arrival>, b: seq<Arrival>)
    ensures RunArrivals(s, a + b) == RunArrivals(RunArrivals(s, a), b)
  {
    if b == [] {
      assert a + b == a;
    } else {
      RunArrivalsConcat(s, a, b[..|b| - 1]);
      assert (a + b)[..|a + b| - 1] == a + b[..|b| - 1];
    }
  }

  /** A part of the streams that says nothing about a ref leaves it alone. */
  lemma OthersLeaveAlone(s: State, merged: seq<Arrival>, owner: EntityRef -> nat, ref: EntityRef)
    requires Disjoint(merged, owner) && From(merged, owner(ref)) == []
    ensures Lookup(RunArrivals(s, merged), ref) == Lookup(s, ref)
  {
    OwnerDecides(s, merged, owner, ref);
  }

  /** The id's owner last: the area lists the id. */
  lemma RaceWon(s: State, merged: seq<Arrival>, owner: EntityRef -> nat, rel: Relation, key: Id, id: Id)
    requires Inv(s) && Disjoint(merged, owner) && Races(s, merged, owner, rel, key, id)
    ensures Lists(RunArrivals(s, Last(merged, owner(MemberRef(rel, id)))), rel, key, id)
  {
    var mine, theirs := owner(MemberRef(rel, id)), owner(AreaRef(key));
    var own, others := Filter(merged, By(mine)), Filter(merged, NotBy(mine));
    var before := RunArrivals(s, others);
    RunArrivalsConcat(s, others, own);
    PartsAreDisjoint(merged, owner, mine);
    FromPart(merged, mine, mine);
    FromPart(merged, mine, theirs);
    OthersLeaveAlone(s, others, owner, MemberRef(rel, id));
    ArrivalsKeepInv(s, others);
    ArrivalsAreOps(before, own);
    OwnedIsStream(own, owner, mine);
    OwnedIsStream(own, owner, theirs);
    LastMarkIsLocal(before, s, OpsOfArrivals(own), owner, rel, key, id);
    EverClearsIsLocal(before, before, OpsOfArrivals(own), owner, rel, key);
    ListsByMark(before, OpsOfArrivals(own), rel, key, id);
  }

  /** The id's owner first: the area does not. */
  lemma RaceLost(s: State, merged: seq<Arrival>, owner: EntityRef -> nat, rel: Relation, key: Id, id: Id)
    requires Inv(s) && Disjoint(merged, owner) && Races(s, merged, owner, rel, key, id)
    ensures !Lists(RunArrivals(s, First(merged, owner(MemberRef(rel, id)))), rel, key, id)
  {
    var mine, theirs := owner(MemberRef(rel, id)), owner(AreaRef(key));
    var own, others := Filter(merged, By(mine)), Filter(merged, NotBy(mine));
    var before := RunArrivals(s, own);
    RunArrivalsConcat(s, own, others);
    PartsAreDisjoint(merged, owner, mine);
    FromPart(merged, mine, mine);
    FromPart(merged, mine, theirs);
    OthersLeaveAlone(s, own, owner, AreaRef(key));
    ArrivalsKeepInv(s, own);
    ArrivalsAreOps(before, others);
    OwnedIsStream(others, owner, mine);
    OwnedIsStream(others, owner, theirs);
    LastMarkIsLocal(before, before, OpsOfArrivals(others), owner, rel, key, id);
    EverClearsIsLocal(before, s, OpsOfArrivals(others), owner, rel, key);
    ListsByMark(before, OpsOfArrivals(others), rel, key, id);
  }

  lemma PartsAreDisjoint(merged: seq<Arrival>, owner: EntityRef -> nat, provider: nat)
    requires Disjoint(merged, owner)
    ensures Disjoint(Filter(merged, By(provider)), owner) && Disjoint(Filter(merged, NotBy(provider)), owner)
  {
  }

  lemma ArrivalsKeepInv(s: State, merged: seq<Arrival>)
    requires Inv(s)
    ensures Inv(RunArrivals(s, merged))
  {
    ArrivalsAreOps(s, merged);
    RunKeepsInv(s, OpsOfArrivals(merged));
  }

  /**
   All interleavings of streams over disjoint refs leave the same ids in the
   same buckets exactly when no two providers race.
   */
  lemma BucketsConfluentIff(s: State, merged: seq<Arrival>, owner: EntityRef -> nat, rel: Relation)
    requires Inv(s) && Disjoint(merged, owner)
    ensures AllEndAlike(s, merged, rel) <==> RaceFree(s, merged, owner, rel)
  {
    if RaceFree(s, merged, owner, rel) {
      forall other, key, id | SameStreams(merged, other)
        ensures Lists(RunArrivals(s, merged), rel, key, id) == Lists(RunArrivals(s, other), rel, key, id)
      {
        DisjointStays(merged, other, owner);
        ListsWithoutRace(s, merged, other, owner, rel, key, id);
      }
    } else {
      var key, id :| Races(s, merged, owner, rel, key, id);
      RacesDoNotEndAlike(s, merged, owner, rel, key, id);
    }
  }

  lemma RacesDoNotEndAlike(s: State, merged: seq<Arrival>, owner: EntityRef -> nat, rel: Relation, key: Id, id: Id)
    requires Inv(s) && Disjoint(merged, owner) && Races(s, merged, owner, rel, key, id)
    ensures !AllEndAlike(s, merged, rel)
  {
    var mine := owner(MemberRef(rel, id));
    Rearranged(merged, mine);
    RaceWon(s, merged, owner, rel, key, id);
    RaceLost(s, merged, owner, rel, key, id);
  }

  lemma {:induction false} HostBucketsAreNeverCleared(s: State, ops: seq<Op>, key: Id)
    ensures !EverClears(s, ops, AppHost, key)
  {
    if ops != [] {
      HostBucketsAreNeverCleared(s, ops[..|ops| - 1], key);
    }
  }

  /** Nothing races for a host: disjoint owners are enough for the host queries to end alike. */
  lemma HostQueriesConfluent(s: State, one: seq<Arrival>, two: seq<Arrival>, owner: EntityRef -> nat, componentId: Id)
    requires Inv(s) && Disjoint(one, owner) && SameStreams(one, two)
    ensures SameMembers(RunArrivals(s, one), RunArrivals(s, two), AppHost)
    ensures ToSet(AppsOfComponent(RunArrivals(s, one), componentId))
         == ToSet(AppsOfComponent(RunArrivals(s, two), componentId))
  {
    forall key, id ensures !Races(s, one, owner, AppHost, key, id) {
      HostBucketsAreNeverCleared(s, OpsOfItems(From(one, owner(AreaRef(key)))), key);
    }
    BucketsConfluentIff(s, one, owner, AppHost);
    InterleavingsConfluent(s, one, two, owner);
    SameMembersResolve(RunArrivals(s, one), RunArrivals(s, two), componentId);
  }

  lemma SameMembersResolve(a: State, b: State, componentId: Id)
    requires SameTables(a, b) && SameMembers(a, b, AppHost)
    ensures ToSet(AppsOfComponent(a, componentId)) == ToSet(AppsOfComponent(b, componentId))
  {
    forall id ensures id in Bucket(a.appsByComponent, componentId) <==> id in Bucket(b.appsByComponent, componentId) {
      assert Lists(a, AppHost, componentId, id) == Lists(b, AppHost, componentId, id);
    }
  }

  /** An owner for each ref: areas belong to one provider, all else to another. */
  function AreasApart(): EntityRef -> nat {
    (ref: EntityRef) => if ref.kind.AreaKind? then 0 else 1
  }

  /**
   A race: one provider removes an area while another adds a member to it, and
   the order decides whether the area lists it.
   */
  lemma IndexesAreNotConfluent()
    ensures var r, c := Area("r", "", [], None), Component("c", "", Some("r"), [], None);
            var s := Apply(EMPTY, AddArea(r));
            var a := Arrival(0, Ok(Diff([EntityRef(AreaKind, "r")], [], [], [])));
            var b := Arrival(1, Ok(Diff([], [c], [], [])));
            && Disjoint([a, b], AreasApart()) && SameStreams([a, b], [b, a])
            && ComponentsOfArea(RunArrivals(s, [a, b]), "r") == [c]
            && ComponentsOfArea(RunArrivals(s, [b, a]), "r") == []
  {
    var r, c := Area("r", "", [], None), Component("c", "", Some("r"), [], None);
    var s := Apply(EMPTY, AddArea(r));
    var remove, add := Diff([EntityRef(AreaKind, "r")], [], [], []), Diff([], [c], [], []);
    var a, b := Arrival(0, Ok(remove)), Arrival(1, Ok(add));
    RemovalApart(a, b, "r", c);
    PairOfArrivals(s, a, b);
    PairOfArrivals(s, b, a);
    SingleDiffs(s, "r", c);
    SingleDiffs(Apply(s, RemoveArea("r")), "r", c);
    SingleDiffs(Apply(s, AddComponent(c)), "r", c);
    OrderDecides(s, "r", c);
  }

  lemma RemovalApart(a: Arrival, b: Arrival, areaId: Id, c: Component)
    requires a == Arrival(0, Ok(Diff([AreaRef(areaId)], [], [], [])))
    requires b == Arrival(1, Ok(Diff([], [c], [], [])))
    ensures Disjoint([a, b], AreasApart())
  {
    assert DiffOps(a.item.value) == [RemoveArea(areaId)];
    assert DiffOps(b.item.value) == [AddComponent(c)];
  }

  lemma OrderDecides(s: State, areaId: Id, c: Component)
    requires areaId in s.areas.entries && areaId !in s.componentsByArea && c.areaId == Some(areaId)
    ensures ComponentsOfArea(Apply(Apply(s, RemoveArea(areaId)), AddComponent(c)), areaId) == [c]
    ensures ComponentsOfArea(Apply(Apply(s, AddComponent(c)), RemoveArea(areaId)), areaId) == []
  {
    var removed := Apply(s, RemoveArea(areaId));
    assert Bucket(Apply(removed, AddComponent(c)).componentsByArea, areaId) == [c.id];
    ResolveOne(c.id, Apply(removed, AddComponent(c)).components.entries);
  }

  lemma ResolveOne<V>(id: Id, m: map<Id, V>)
    requires id in m
    ensures Resolve([id], m) == [m[id]]
  {
    assert [id][..0] == [];
  }

  lemma SingleDiffs(s: State, areaId: Id, c: Component)
    ensures ApplyDiff(s, Diff([EntityRef(AreaKind, areaId)], [], [], [])) == Apply(s, RemoveArea(areaId))
    ensures ApplyDiff(s, Diff([], [c], [], [])) == Apply(s, AddComponent(c))
  {
    assert DiffOps(Diff([EntityRef(AreaKind, areaId)], [], [], [])) == [RemoveArea(areaId)];
    assert DiffOps(Diff([], [c], [], [])) == [AddComponent(c)];
    RunOne(s, RemoveArea(areaId));
    RunOne(s, AddComponent(c));
  }

  lemma PairOfArrivals(s: State, a: Arrival, b: Arrival)
    requires a.provider != b.provider
    ensures RunArrivals(s, [a, b]) == ApplyItem(ApplyItem(s, a.item), b.item)
    ensures forall p :: From([a, b], p) == if p == a.provider then [a.item] else if p == b.provider then [b.item] else []
  {
    assert [a, b][..1] == [a] && [a][..0] == [];
    assert RunArrivals(s, [a]) == ApplyItem(s, a.item);
    forall p ensures From([a, b], p) == if p == a.provider then [a.item] else if p == b.provider then [b.item] else [] {
      assert From([a], p) == if p == a.provider then [a.item] else [];
    }
  }
}
