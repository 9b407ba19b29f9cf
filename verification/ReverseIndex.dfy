/**
 A reverse index of the topology on its own: an insertion-ordered table of live
 ids, the key each id currently claims, and the hand-maintained buckets
 `key -> ids` that should agree with a scan of the table.
 */
module ReverseIndex {
  import opened Sequences
  import opened Entities

  type Buckets = map<Id, seq<Id>>

  /** `claims` has no entry for a live id that claims nothing. */
  datatype Index = Index(ids: seq<Id>, claims: map<Id, Id>, buckets: Buckets)

  /** What one topology operation does to one index. */
  datatype IndexOp =
    | Put(id: Id, claim: Option<Id>)
    | Delete(id: Id)
    | Clear(key: Id)
    | Skip

  function Bucket(b: Buckets, key: Id): seq<Id> {
    if key in b then b[key] else []
  }

  predicate Listed(b: Buckets, key: Id, id: Id) {
    id in Bucket(b, key)
  }

  predicate Claims(claims: map<Id, Id>, id: Id, key: Id) {
    id in claims && claims[id] == key
  }

  /** `entry(key).or_default().insert(id)` */
  function BucketInsert(b: Buckets, key: Id, id: Id): Buckets {
    b[key := Insert(Bucket(b, key), id)]
  }

  /** `get_mut(key)`, `shift_remove(id)`, and drop the bucket once it is empty. */
  function BucketRemove(b: Buckets, key: Id, id: Id): Buckets {
    if key !in b then b
    else if Without(b[key], id) == [] then b - {key}
    else b[key := Without(b[key], id)]
  }

  function Step(ix: Index, op: IndexOp): Index {
    match op
    case Put(id, claim) =>
      Index(
        Insert(ix.ids, id),
        if claim.Some? then ix.claims[id := claim.value] else ix.claims - {id},
        if claim.Some? then BucketInsert(ix.buckets, claim.value, id) else ix.buckets)
    case Delete(id) =>
      Index(
        Without(ix.ids, id),
        ix.claims - {id},
        if id in ix.claims then BucketRemove(ix.buckets, ix.claims[id], id) else ix.buckets)
    case Clear(key) => ix.(buckets := ix.buckets - {key})
    case Skip => ix
  }

  ghost function Claimant(claims: map<Id, Id>, key: Id): Id -> bool {
    id => Claims(claims, id, key)
  }

  /** The plain scan: live ids that claim `key`, in table order. */
  ghost function Scan(ix: Index, key: Id): (r: seq<Id>)
    ensures forall id :: id in r <==> id in ix.ids && Claims(ix.claims, id, key)
  {
    Filter(ix.ids, Claimant(ix.claims, key))
  }

  ghost predicate WellFormed(ix: Index) {
    && NoDup(ix.ids)
    && (forall id :: id in ix.claims ==> id in ix.ids)
    && (forall key :: key in ix.buckets ==> ix.buckets[key] != [] && NoDup(ix.buckets[key]))
  }

  /** Every claim is recorded. */
  ghost predicate Covers(ix: Index) {
    forall key, id :: Claims(ix.claims, id, key) ==> Listed(ix.buckets, key, id)
  }

  /** Nothing else is recorded. */
  ghost predicate Sound(ix: Index) {
    forall key, id :: Listed(ix.buckets, key, id) ==> Claims(ix.claims, id, key)
  }

  ghost predicate SetExact(ix: Index) {
    Covers(ix) && Sound(ix)
  }

  /** Every bucket is the scan, in the same order. */
  ghost predicate Exact(ix: Index) {
    forall key :: Bucket(ix.buckets, key) == Scan(ix, key)
  }

  /** A live id is put under something else than it claims now. */
  predicate Rehomes(ix: Index, id: Id, claim: Option<Id>) {
    id in ix.claims && claim != Some(ix.claims[id])
  }

  lemma StepWellFormed(ix: Index, op: IndexOp)
    requires WellFormed(ix)
    ensures WellFormed(Step(ix, op))
  {
    match op
    case Delete(id) =>
      FilterNoDup(ix.ids, Other(id));
      if id in ix.claims && ix.claims[id] in ix.buckets {
        FilterNoDup(ix.buckets[ix.claims[id]], Other(id));
      }
    case _ =>
  }

  lemma ExactIsSetExact(ix: Index)
    requires WellFormed(ix) && Exact(ix)
    ensures SetExact(ix)
  {
    forall key, id ensures Listed(ix.buckets, key, id) <==> Claims(ix.claims, id, key) {
      assert id in Bucket(ix.buckets, key) <==> id in Scan(ix, key);
    }
  }

  // ---- Membership after each step

  lemma PutListed(ix: Index, id: Id, claim: Option<Id>, key: Id, x: Id)
    ensures Listed(Step(ix, Put(id, claim)).buckets, key, x)
       <==> Listed(ix.buckets, key, x) || (x == id && claim == Some(key))
  {
  }

  lemma DeleteListed(ix: Index, id: Id, key: Id, x: Id)
    ensures Listed(Step(ix, Delete(id)).buckets, key, x)
       <==> Listed(ix.buckets, key, x) && !(x == id && Claims(ix.claims, id, key))
  {
  }

  // ---- Put

  /** Putting an id keeps the index exact as sets exactly when it does not re-home the id. */
  lemma PutKeepsSetExactIff(ix: Index, id: Id, claim: Option<Id>)
    requires WellFormed(ix) && SetExact(ix)
    ensures SetExact(Step(ix, Put(id, claim))) <==> !Rehomes(ix, id, claim)
  {
    var after := Step(ix, Put(id, claim));
    forall key, x ensures Listed(after.buckets, key, x)
                     <==> Listed(ix.buckets, key, x) || (x == id && claim == Some(key))
    {
      PutListed(ix, id, claim, key, x);
    }
    if Rehomes(ix, id, claim) {
      assert Claims(ix.claims, id, ix.claims[id]);
      assert Listed(after.buckets, ix.claims[id], id);
      assert !Claims(after.claims, id, ix.claims[id]);
    } else {
      forall key, x ensures Claims(after.claims, x, key)
                       <==> Claims(ix.claims, x, key) || (x == id && claim == Some(key)) {
      }
    }
  }

  /** Some id later in the table than `id` already claims `key`. */
  ghost predicate ClaimedLater(ix: Index, id: Id, key: Id) {
    exists i, j :: 0 <= i < j < |ix.ids| && ix.ids[i] == id && Claims(ix.claims, ix.ids[j], key)
  }

  /** The bucket's new last entry is also the scan's last. */
  ghost predicate KeepsOrder(ix: Index, id: Id, claim: Option<Id>) {
    id in ix.ids && id !in ix.claims && claim.Some? ==> !ClaimedLater(ix, id, claim.value)
  }

  /**
   Putting an id keeps every bucket equal to the ordered scan exactly when it
   does not re-home the id and, for a live id that claimed nothing before, no
   later id of the table claims the same key.
   */
  lemma PutKeepsExactIff(ix: Index, id: Id, claim: Option<Id>)
    requires WellFormed(ix) && Exact(ix)
    ensures Exact(Step(ix, Put(id, claim))) <==> !Rehomes(ix, id, claim) && KeepsOrder(ix, id, claim)
  {
    if Rehomes(ix, id, claim) {
      PutRehomedNotExact(ix, id, claim);
    } else {
      PutSettledExactIff(ix, id, claim);
    }
  }

  lemma PutRehomedNotExact(ix: Index, id: Id, claim: Option<Id>)
    requires WellFormed(ix) && Exact(ix) && Rehomes(ix, id, claim)
    ensures !Exact(Step(ix, Put(id, claim)))
  {
    ExactIsSetExact(ix);
    PutKeepsSetExactIff(ix, id, claim);
    StepWellFormed(ix, Put(id, claim));
    if Exact(Step(ix, Put(id, claim))) {
      ExactIsSetExact(Step(ix, Put(id, claim)));
    }
  }

  lemma PutSettledExactIff(ix: Index, id: Id, claim: Option<Id>)
    requires WellFormed(ix) && Exact(ix) && !Rehomes(ix, id, claim)
    ensures Exact(Step(ix, Put(id, claim))) <==> KeepsOrder(ix, id, claim)
  {
    var after := Step(ix, Put(id, claim));
    forall key | claim != Some(key) ensures Bucket(after.buckets, key) == Scan(after, key) {
      PutOtherScan(ix, id, claim, key);
    }
    if claim.Some? {
      if id in ix.ids && id !in ix.claims {
        PutFirstClaimScan(ix, id, claim.value);
      } else if id in ix.ids {
        ExactIsSetExact(ix);
        PutAgain(ix, id, claim.value);
      } else {
        PutNewScan(ix, id, claim.value);
        assert id !in Scan(ix, claim.value);
      }
    }
  }

  lemma PutOtherScan(ix: Index, id: Id, claim: Option<Id>, key: Id)
    requires WellFormed(ix) && !Rehomes(ix, id, claim) && claim != Some(key)
    ensures Scan(Step(ix, Put(id, claim)), key) == Scan(ix, key)
  {
    var p := Claimant(Step(ix, Put(id, claim)).claims, key);
    if id !in ix.ids {
      FilterConcat(ix.ids, [id], p);
      FilterNone([id], p);
    }
    FilterSame(ix.ids, p, Claimant(ix.claims, key));
  }

  lemma PutNewScan(ix: Index, id: Id, key: Id)
    requires WellFormed(ix) && id !in ix.ids
    ensures Scan(Step(ix, Put(id, Some(key))), key) == Scan(ix, key) + [id]
  {
    var p := Claimant(ix.claims[id := key], key);
    FilterConcat(ix.ids, [id], p);
    FilterOne(id, p);
    OldClaimsStay(ix, id, key);
  }

  lemma OldClaimsStay(ix: Index, id: Id, key: Id)
    requires id !in ix.ids
    ensures Filter(ix.ids, Claimant(ix.claims[id := key], key)) == Scan(ix, key)
  {
    FilterSame(ix.ids, Claimant(ix.claims[id := key], key), Claimant(ix.claims, key));
  }

  /** Repeating a recorded claim changes nothing. */
  lemma PutAgain(ix: Index, id: Id, key: Id)
    requires WellFormed(ix) && SetExact(ix) && Claims(ix.claims, id, key)
    ensures Step(ix, Put(id, Some(key))) == ix
  {
    assert Listed(ix.buckets, key, id);
  }

  /** A live id that claimed nothing: the bucket gets it last, the scan finds it in place. */
  lemma PutFirstClaimScan(ix: Index, id: Id, key: Id)
    requires WellFormed(ix) && Exact(ix) && id in ix.ids && id !in ix.claims
    ensures var after := Step(ix, Put(id, Some(key)));
            Bucket(after.buckets, key) == Scan(after, key) <==> !ClaimedLater(ix, id, key)
  {
    var i :| 0 <= i < |ix.ids| && ix.ids[i] == id;
    var before, later := ix.ids[..i], ix.ids[i + 1..];
    var q := Claimant(ix.claims, key);
    assert ix.ids == before + [id] + later;
    SplitScans(ix, id, key, before, later);
    ClaimedLaterSplit(ix, id, key, before, later);
    assert id !in Scan(ix, key);
    assert Bucket(Step(ix, Put(id, Some(key))).buckets, key) == Scan(ix, key) + [id];
    EndsWith(Filter(before, q), id, Filter(later, q));
  }

  lemma EndsWith(a: seq<Id>, x: Id, b: seq<Id>)
    requires x !in b
    ensures a + b + [x] == a + [x] + b <==> b == []
  {
    if b != [] {
      assert (a + [x] + b)[|a| + |b|] == b[|b| - 1];
      assert (a + b + [x])[|a| + |b|] == x;
    } else {
      assert a + b == a;
    }
  }

  lemma ClaimedLaterSplit(ix: Index, id: Id, key: Id, before: seq<Id>, later: seq<Id>)
    requires NoDup(ix.ids) && ix.ids == before + [id] + later
    ensures ClaimedLater(ix, id, key) <==> Filter(later, Claimant(ix.claims, key)) != []
  {
    var q := Claimant(ix.claims, key);
    if ClaimedLater(ix, id, key) {
      var i, j :| 0 <= i < j < |ix.ids| && ix.ids[i] == id && Claims(ix.claims, ix.ids[j], key);
      assert ix.ids[|before|] == id;
      assert later[j - i - 1] == ix.ids[j];
      assert ix.ids[j] in Filter(later, q);
    }
    if Filter(later, q) != [] {
      var x := Filter(later, q)[0];
      assert x in Filter(later, q);
      var j :| 0 <= j < |later| && later[j] == x;
      assert ix.ids[|before|] == id && Claims(ix.claims, ix.ids[|before| + 1 + j], key);
    }
  }

  lemma SplitScans(ix: Index, id: Id, key: Id, before: seq<Id>, later: seq<Id>)
    requires id !in ix.claims && ix.ids == before + [id] + later
    requires id !in before && id !in later
    ensures var q := Claimant(ix.claims, key);
            && Scan(ix, key) == Filter(before, q) + Filter(later, q)
            && Scan(Step(ix, Put(id, Some(key))), key) == Filter(before, q) + [id] + Filter(later, q)
  {
    var p, q := Claimant(ix.claims[id := key], key), Claimant(ix.claims, key);
    FilterSplit(before, id, later, p);
    FilterSplit(before, id, later, q);
    FilterSame(before, p, q);
    FilterSame(later, p, q);
    assert Insert(ix.ids, id) == ix.ids;
    assert Filter(before, q) + [] == Filter(before, q);
  }

  // ---- Delete

  lemma DeleteScan(ix: Index, id: Id, key: Id)
    ensures Scan(Step(ix, Delete(id)), key) == Without(Scan(ix, key), id)
  {
    var p, q := Claimant(ix.claims - {id}, key), Claimant(ix.claims, key);
    FilterFilter(ix.ids, Other(id), p);
    FilterFilter(ix.ids, q, Other(id));
    FilterSame(ix.ids, Both(Other(id), p), Both(q, Other(id)));
  }

  lemma DeleteKeepsExact(ix: Index, id: Id)
    requires WellFormed(ix) && Exact(ix)
    ensures Exact(Step(ix, Delete(id)))
  {
    var after := Step(ix, Delete(id));
    forall key ensures Bucket(after.buckets, key) == Scan(after, key) {
      DeleteScan(ix, id, key);
      if !Claims(ix.claims, id, key) {
        assert id !in Scan(ix, key);
        FilterAll(Scan(ix, key), Other(id));
      }
    }
  }

  lemma DeleteKeeps(ix: Index, id: Id)
    ensures Covers(ix) ==> Covers(Step(ix, Delete(id)))
    ensures Sound(ix) ==> Sound(Step(ix, Delete(id)))
  {
    var after := Step(ix, Delete(id));
    forall key, x ensures Listed(after.buckets, key, x)
                     <==> Listed(ix.buckets, key, x) && !(x == id && Claims(ix.claims, id, key))
    {
      DeleteListed(ix, id, key, x);
    }
  }

  // ---- Clear

  lemma ClearKeepsSound(ix: Index, key: Id)
    requires Sound(ix)
    ensures Sound(Step(ix, Clear(key)))
  {
    forall k, x | Listed((ix.buckets - {key}), k, x) ensures Listed(ix.buckets, k, x) {
    }
  }

  /** Dropping a bucket keeps the index exact exactly when nothing claims its key. */
  lemma ClearKeepsExactIff(ix: Index, key: Id)
    requires WellFormed(ix) && Exact(ix)
    ensures Exact(Step(ix, Clear(key))) <==> forall id :: !Claims(ix.claims, id, key)
  {
    var after := Step(ix, Clear(key));
    assert forall k :: Scan(after, k) == Scan(ix, k);
    if id :| Claims(ix.claims, id, key) {
      assert id in Scan(after, key);
      assert Bucket(after.buckets, key) == [];
    } else {
      FilterNone(ix.ids, Claimant(ix.claims, key));
    }
  }
}
