/** What one discovery diff, removes first and then adds, does to one reverse index. */
module IndexDiff {
  import opened Sequences
  import opened Entities
  import opened ReverseIndex

  /** An add, as one index sees it. */
  datatype Entry = Entry(id: Id, claim: Option<Id>)

  ghost function NotIn(out: set<Id>): Id -> bool {
    id => id !in out
  }

  /** Members of bucket `key` that survive the deletions: a delete only visits the bucket its id claims. */
  ghost function Stays(claims: map<Id, Id>, deleted: set<Id>, key: Id): Id -> bool {
    id => !(id in deleted && Claims(claims, id, key))
  }

  ghost function KeptBucket(ix: Index, deleted: set<Id>, cleared: set<Id>, key: Id): seq<Id> {
    if key in cleared then [] else Filter(Bucket(ix.buckets, key), Stays(ix.claims, deleted, key))
  }

  /** All deletions and clears of a batch at once, in no particular order. */
  ghost function RemoveAll(ix: Index, deleted: set<Id>, cleared: set<Id>): Index {
    Index(
      Filter(ix.ids, NotIn(deleted)),
      ix.claims - deleted,
      map key | key in ix.buckets && KeptBucket(ix, deleted, cleared, key) != []
        :: KeptBucket(ix, deleted, cleared, key))
  }

  ghost function PutAll(ix: Index, puts: seq<Entry>): Index {
    if puts == [] then ix
    else
      var last := puts[|puts| - 1];
      Step(PutAll(ix, puts[..|puts| - 1]), Put(last.id, last.claim))
  }

  /** What the last add of `id` claims, if the batch adds it at all. */
  ghost function FinalClaim(puts: seq<Entry>, id: Id): Option<Option<Id>> {
    if puts == [] then None
    else if puts[|puts| - 1].id == id then Some(puts[|puts| - 1].claim)
    else FinalClaim(puts[..|puts| - 1], id)
  }

  // ---- The order of the removes does not matter

  lemma RemoveAllNone(ix: Index)
    requires WellFormed(ix)
    ensures RemoveAll(ix, {}, {}) == ix
  {
    FilterAll(ix.ids, NotIn({}));
    assert ix.claims - {} == ix.claims;
    forall key ensures Bucket(RemoveAll(ix, {}, {}).buckets, key) == Bucket(ix.buckets, key) {
      RemoveAllBucket(ix, {}, {}, key);
      FilterAll(Bucket(ix.buckets, key), Stays(ix.claims, {}, key));
    }
    SameBuckets(RemoveAll(ix, {}, {}).buckets, ix.buckets);
  }

  lemma RemoveAllBucket(ix: Index, deleted: set<Id>, cleared: set<Id>, key: Id)
    ensures Bucket(RemoveAll(ix, deleted, cleared).buckets, key) == KeptBucket(ix, deleted, cleared, key)
  {
  }

  lemma RemoveAllDelete(ix: Index, deleted: set<Id>, cleared: set<Id>, id: Id)
    ensures Step(RemoveAll(ix, deleted, cleared), Delete(id)) == RemoveAll(ix, deleted + {id}, cleared)
  {
    FilterFilter(ix.ids, NotIn(deleted), Other(id));
    FilterSame(ix.ids, Both(NotIn(deleted), Other(id)), NotIn(deleted + {id}));
    assert ix.claims - deleted - {id} == ix.claims - (deleted + {id});
    RemoveAllDeleteBuckets(ix, deleted, cleared, id);
  }

  lemma RemoveAllDeleteBuckets(ix: Index, deleted: set<Id>, cleared: set<Id>, id: Id)
    ensures Step(RemoveAll(ix, deleted, cleared), Delete(id)).buckets
         == RemoveAll(ix, deleted + {id}, cleared).buckets
  {
    var before, after := RemoveAll(ix, deleted, cleared), RemoveAll(ix, deleted + {id}, cleared);
    var stepped := Step(before, Delete(id));
    forall key ensures Bucket(stepped.buckets, key) == Bucket(after.buckets, key) {
      RemoveAllBucket(ix, deleted, cleared, key);
      RemoveAllBucket(ix, deleted + {id}, cleared, key);
      KeptBucketDelete(ix, deleted, cleared, id, key);
      DeleteBucket(before, id, key);
    }
    SameBuckets(stepped.buckets, after.buckets);
  }

  ghost predicate NoEmpty(b: Buckets) {
    forall key :: key in b ==> b[key] != []
  }

  lemma SameBuckets(a: Buckets, b: Buckets)
    requires NoEmpty(a) && NoEmpty(b)
    requires forall key :: Bucket(a, key) == Bucket(b, key)
    ensures a == b
  {
    forall key ensures key in a <==> key in b {
      assert Bucket(a, key) == Bucket(b, key);
    }
    forall key | key in a ensures a[key] == b[key] {
      assert Bucket(a, key) == Bucket(b, key);
    }
  }

  lemma DeleteBucket(ix: Index, id: Id, key: Id)
    ensures Bucket(Step(ix, Delete(id)).buckets, key)
         == if Claims(ix.claims, id, key) then Without(Bucket(ix.buckets, key), id) else Bucket(ix.buckets, key)
  {
  }

  lemma KeptBucketDelete(ix: Index, deleted: set<Id>, cleared: set<Id>, id: Id, key: Id)
    ensures KeptBucket(ix, deleted + {id}, cleared, key)
         == if Claims(ix.claims - deleted, id, key) then Without(KeptBucket(ix, deleted, cleared, key), id)
            else KeptBucket(ix, deleted, cleared, key)
  {
    var b := Bucket(ix.buckets, key);
    var before, after := Stays(ix.claims, deleted, key), Stays(ix.claims, deleted + {id}, key);
    if key in cleared {
    } else if Claims(ix.claims - deleted, id, key) {
      FilterFilter(b, before, Other(id));
      FilterSame(b, Both(before, Other(id)), after);
    } else {
      FilterSame(b, before, after);
    }
  }

  lemma RemoveAllClear(ix: Index, deleted: set<Id>, cleared: set<Id>, key: Id)
    ensures Step(RemoveAll(ix, deleted, cleared), Clear(key)) == RemoveAll(ix, deleted, cleared + {key})
  {
    var stepped, all := Step(RemoveAll(ix, deleted, cleared), Clear(key)), RemoveAll(ix, deleted, cleared + {key});
    forall k ensures Bucket(stepped.buckets, k) == Bucket(all.buckets, k) {
      RemoveAllBucket(ix, deleted, cleared, k);
      RemoveAllBucket(ix, deleted, cleared + {key}, k);
    }
    SameBuckets(stepped.buckets, all.buckets);
  }

  lemma RemoveAllListed(ix: Index, deleted: set<Id>, cleared: set<Id>, key: Id, id: Id)
    ensures Listed(RemoveAll(ix, deleted, cleared).buckets, key, id)
       <==> Listed(ix.buckets, key, id) && key !in cleared && !(id in deleted && Claims(ix.claims, id, key))
  {
    RemoveAllBucket(ix, deleted, cleared, key);
  }

  // ---- The adds

  lemma {:induction false} PutAllListed(ix: Index, puts: seq<Entry>, key: Id, id: Id)
    ensures Listed(PutAll(ix, puts).buckets, key, id)
       <==> Listed(ix.buckets, key, id) || Entry(id, Some(key)) in puts
  {
    if puts != [] {
      var front, last := puts[..|puts| - 1], puts[|puts| - 1];
      PutAllListed(ix, front, key, id);
      PutListed(PutAll(ix, front), last.id, last.claim, key, id);
      assert puts == front + [last];
    }
  }

  lemma {:induction false} PutAllClaims(ix: Index, puts: seq<Entry>, key: Id, id: Id)
    ensures Claims(PutAll(ix, puts).claims, id, key)
       <==> if FinalClaim(puts, id).Some? then FinalClaim(puts, id).value == Some(key) else Claims(ix.claims, id, key)
  {
    if puts != [] {
      PutAllClaims(ix, puts[..|puts| - 1], key, id);
    }
  }

  lemma {:induction false} FinalClaimWasPut(puts: seq<Entry>, id: Id)
    ensures FinalClaim(puts, id).Some? ==> Entry(id, FinalClaim(puts, id).value) in puts
    ensures FinalClaim(puts, id).None? ==> forall e :: e in puts ==> e.id != id
  {
    if puts != [] {
      var front, last := puts[..|puts| - 1], puts[|puts| - 1];
      assert puts == front + [last];
      FinalClaimWasPut(front, id);
    }
  }

  // ---- When the batch as a whole keeps the index exact

  /** No add names a key that a later add of the same id takes back. */
  ghost predicate AddsAgree(puts: seq<Entry>) {
    forall e :: e in puts && e.claim.Some? ==> FinalClaim(puts, e.id) == Some(e.claim)
  }

  /** An id that stays live and whose bucket is not cleared is re-added, if at all, under the key it claims. */
  ghost predicate NoRehoming(ix: Index, deleted: set<Id>, cleared: set<Id>, puts: seq<Entry>) {
    forall id, key :: Claims(ix.claims, id, key) && id !in deleted && key !in cleared && FinalClaim(puts, id).Some?
                   ==> FinalClaim(puts, id).value == Some(key)
  }

  /** Every member of a cleared bucket is itself deleted or re-added. */
  ghost predicate ClearedReadded(ix: Index, deleted: set<Id>, cleared: set<Id>, puts: seq<Entry>) {
    forall id, key :: Claims(ix.claims, id, key) && id !in deleted && key in cleared ==> FinalClaim(puts, id).Some?
  }

  ghost predicate Coherent(ix: Index, deleted: set<Id>, cleared: set<Id>, puts: seq<Entry>) {
    && AddsAgree(puts)
    && NoRehoming(ix, deleted, cleared, puts)
    && ClearedReadded(ix, deleted, cleared, puts)
  }

  ghost function AfterDiff(ix: Index, deleted: set<Id>, cleared: set<Id>, puts: seq<Entry>): Index {
    PutAll(RemoveAll(ix, deleted, cleared), puts)
  }

  ghost predicate ListedAfter(
    ix: Index, deleted: set<Id>, cleared: set<Id>, puts: seq<Entry>, key: Id, id: Id)
  {
    || (Listed(ix.buckets, key, id) && key !in cleared && !(id in deleted && Claims(ix.claims, id, key)))
    || Entry(id, Some(key)) in puts
  }

  ghost predicate ClaimsAfter(ix: Index, deleted: set<Id>, puts: seq<Entry>, key: Id, id: Id) {
    if FinalClaim(puts, id).Some? then FinalClaim(puts, id).value == Some(key)
    else Claims(ix.claims, id, key) && id !in deleted
  }

  /** Bucket membership and claims at the end of the batch. */
  lemma AfterDiffFacts(ix: Index, deleted: set<Id>, cleared: set<Id>, puts: seq<Entry>)
    ensures forall key, id ::
              Listed(AfterDiff(ix, deleted, cleared, puts).buckets, key, id)
              == ListedAfter(ix, deleted, cleared, puts, key, id)
    ensures forall key, id ::
              Claims(AfterDiff(ix, deleted, cleared, puts).claims, id, key)
              == ClaimsAfter(ix, deleted, puts, key, id)
  {
    var removed := RemoveAll(ix, deleted, cleared);
    forall key, id
      ensures Listed(PutAll(removed, puts).buckets, key, id) == ListedAfter(ix, deleted, cleared, puts, key, id)
      ensures Claims(PutAll(removed, puts).claims, id, key) == ClaimsAfter(ix, deleted, puts, key, id)
    {
      PutAllListed(removed, puts, key, id);
      RemoveAllListed(ix, deleted, cleared, key, id);
      PutAllClaims(removed, puts, key, id);
    }
  }

  lemma CoherentIsExact(ix: Index, deleted: set<Id>, cleared: set<Id>, puts: seq<Entry>)
    requires SetExact(ix) && Coherent(ix, deleted, cleared, puts)
    ensures SetExact(AfterDiff(ix, deleted, cleared, puts))
  {
    var after := AfterDiff(ix, deleted, cleared, puts);
    AfterDiffFacts(ix, deleted, cleared, puts);
    forall key, id ensures Listed(after.buckets, key, id) <==> Claims(after.claims, id, key) {
      FinalClaimWasPut(puts, id);
      assert Listed(ix.buckets, key, id) <==> Claims(ix.claims, id, key);
      if Entry(id, Some(key)) in puts {
        assert FinalClaim(puts, id) == Some(Entry(id, Some(key)).claim);
      }
    }
  }

  lemma ExactIsCoherent(ix: Index, deleted: set<Id>, cleared: set<Id>, puts: seq<Entry>)
    requires SetExact(ix) && SetExact(AfterDiff(ix, deleted, cleared, puts))
    ensures Coherent(ix, deleted, cleared, puts)
  {
    var after := AfterDiff(ix, deleted, cleared, puts);
    AfterDiffFacts(ix, deleted, cleared, puts);
    forall e | e in puts && e.claim.Some? ensures FinalClaim(puts, e.id) == Some(e.claim) {
      assert e == Entry(e.id, Some(e.claim.value));
      FinalClaimWasPut(puts, e.id);
      assert Listed(after.buckets, e.claim.value, e.id);
    }
    forall id, key | Claims(ix.claims, id, key) && id !in deleted
      ensures key !in cleared && FinalClaim(puts, id).Some? ==> FinalClaim(puts, id).value == Some(key)
      ensures key in cleared ==> FinalClaim(puts, id).Some?
    {
      FinalClaimWasPut(puts, id);
      assert Listed(ix.buckets, key, id);
      assert Claims(after.claims, id, key) == Listed(after.buckets, key, id);
    }
  }
}
