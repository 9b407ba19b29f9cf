/** Insertion-ordered maps. */
module IndexMaps {
  import opened Sequences

  /** `keys` is the iteration order. */
  datatype IndexMap<V> = IndexMap(keys: seq<Text>, entries: map<Text, V>)

  /** `insert`: overwriting keeps the position. */
  function MapInsert<V>(m: IndexMap<V>, id: Text, v: V): IndexMap<V> {
    IndexMap(Insert(m.keys, id), m.entries[id := v])
  }

  /** `shift_remove`. */
  function MapRemove<V>(m: IndexMap<V>, id: Text): IndexMap<V> {
    IndexMap(Without(m.keys, id), m.entries - {id})
  }

  function Values<V>(m: IndexMap<V>): seq<V> {
    Resolve(m.keys, m.entries)
  }

  function Find<V>(m: IndexMap<V>, id: Option<Text>): Option<V> {
    if id.Some? && id.value in m.entries then Some(m.entries[id.value]) else None
  }

  ghost predicate MapValid<V>(m: IndexMap<V>) {
    NoDup(m.keys) && forall id :: id in m.keys <==> id in m.entries
  }

  lemma StillValid<V>(m: IndexMap<V>, id: Text, v: V)
    requires MapValid(m)
    ensures MapValid(MapInsert(m, id, v)) && MapValid(MapRemove(m, id))
  {
    FilterNoDup(m.keys, Other(id));
  }

  lemma RemoveMissing<V>(m: IndexMap<V>, id: Text)
    requires MapValid(m) && id !in m.entries
    ensures MapRemove(m, id) == m
  {
    FilterAll(m.keys, Other(id));
    assert m.entries - {id} == m.entries;
  }
}
