/**
 * Go map values with their nil case. Decoding a document leaves a map field that
 * the input does not mention as a nil map; reading through it gives the zero value,
 * while assigning to an entry of it is a run-time panic.
 */
module GoMaps {
  import opened Wrappers

  /** A Go `map[string]V` value: nil, or a table of entries (possibly empty). */
  datatype GoMap<V> = Nil | Table(entries: map<string, V>)

  /** `g[key]` in Go: the stored value, or `zero` when the key is absent or the map is nil. */
  function Lookup<V>(g: GoMap<V>, key: string, zero: V): V
  {
    if g.Table? && key in g.entries then g.entries[key] else zero
  }

  /** `g[key] = v` in Go: the updated map, or None for the panic on a nil map. */
  function Assign<V>(g: GoMap<V>, key: string, v: V): (r: Option<GoMap<V>>)
    ensures r.None? <==> g.Nil?
    ensures r.Some? ==> r.value.Table? && r.value.entries.Keys == g.entries.Keys + {key}
    ensures r.Some? ==> r.value.entries[key] == v
    ensures r.Some? ==> forall k :: k in g.entries && k != key ==> r.value.entries[k] == g.entries[k]
  {
    match g
    case Nil => None
    case Table(m) => Some(Table(m[key := v]))
  }

  /** Reading a key just assigned gives the assigned value; every other key reads as before. */
  lemma LookupAfterAssign<V>(g: GoMap<V>, key: string, v: V, other: string, zero: V)
    requires g.Table?
    ensures Assign(g, key, v).Some?
    ensures Lookup(Assign(g, key, v).value, key, zero) == v
    ensures other != key ==> Lookup(Assign(g, key, v).value, other, zero) == Lookup(g, other, zero)
  {
  }
}
