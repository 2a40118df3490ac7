/**
 * An insertion-ordered map in the manner of `indexmap::IndexMap`: the keys in the
 * order they were first inserted, and the value of each key.
 */
module OrderedMap {
  import opened Wrappers

  datatype OMap<K(==, !new), V> = OMap(keys: seq<K>, entries: map<K, V>)

  /** The keys are distinct and are exactly the keys that have a value. */
  ghost predicate Valid<K(!new), V>(m: OMap<K, V>) {
    && (forall i, j | 0 <= i < j < |m.keys| :: m.keys[i] != m.keys[j])
    && (forall k :: k in m.entries <==> k in m.keys)
  }

  function Empty<K(==, !new), V>(): (m: OMap<K, V>)
    ensures Valid(m) && m.keys == [] && m.entries == map[]
  {
    OMap([], map[])
  }

  function Get<K(==, !new), V>(m: OMap<K, V>, k: K): (r: Option<V>)
    ensures r.Some? <==> k in m.entries
    ensures r.Some? ==> r.value == m.entries[k]
  {
    if k in m.entries then Some(m.entries[k]) else None
  }

  /** `IndexMap::insert`: a new key goes to the end; a key already present keeps
      its place and has its value replaced. */
  function Insert<K(==, !new), V>(m: OMap<K, V>, k: K, v: V): (r: OMap<K, V>)
    ensures Valid(m) ==> Valid(r)
    ensures Get(r, k) == Some(v)
    ensures forall k' | k' != k :: Get(r, k') == Get(m, k')
    ensures k in m.entries ==> r.keys == m.keys
    ensures k !in m.entries ==> r.keys == m.keys + [k]
  {
    if k in m.entries then OMap(m.keys, m.entries[k := v])
    else OMap(m.keys + [k], m.entries[k := v])
  }

  /** Inserting the value a key already has changes nothing. */
  lemma InsertPresent<K(!new), V>(m: OMap<K, V>, k: K)
    requires k in m.entries
    ensures Insert(m, k, m.entries[k]) == m
  {
    assert m.entries[k := m.entries[k]] == m.entries;
  }

  /** A second insert of the same key overrides the first. */
  lemma InsertOverrides<K(!new), V>(m: OMap<K, V>, k: K, v: V, w: V)
    ensures Insert(Insert(m, k, v), k, w) == Insert(m, k, w)
  {
    assert m.entries[k := v][k := w] == m.entries[k := w];
  }

  /** `before` is a prefix of `after`: whatever was there keeps its place. */
  predicate IsPrefix<K(==)>(before: seq<K>, after: seq<K>) {
    |before| <= |after| && after[..|before|] == before
  }

  lemma PrefixTransitive<K>(a: seq<K>, b: seq<K>, c: seq<K>)
    requires IsPrefix(a, b) && IsPrefix(b, c)
    ensures IsPrefix(a, c)
  {
    assert c[..|a|] == c[..|b|][..|a|];
  }
}
