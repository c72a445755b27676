/** Python's insertion-ordered `dict`: the key order (`d.keys()`) together
    with the key/value map. Assigning to a new key appends it to the order;
    assigning to an existing key keeps its position. */
module OrderedDict {
  import opened Seqs

  datatype Dict<K, V> = Dict(keys: seq<K>, m: map<K, V>)

  /** Representation invariant: the order lists every key exactly once. */
  predicate Valid<K, V>(d: Dict<K, V>) {
    && NoDup(d.keys)
    && (forall k | k in d.m :: k in d.keys)
    && (forall i | 0 <= i < |d.keys| :: d.keys[i] in d.m)
  }

  function Empty<K, V>(): (d: Dict<K, V>)
    ensures Valid(d) && |d.keys| == 0 && d.m == map[]
  {
    Dict([], map[])
  }

  /** `d[k] = v` */
  function Set<K, V(==)>(d: Dict<K, V>, k: K, v: V): (d': Dict<K, V>)
    requires Valid(d)
    ensures Valid(d')
    ensures k in d'.m && d'.m[k] == v
    ensures forall x | x in d.m && x != k :: x in d'.m && d'.m[x] == d.m[x]
    ensures forall x | x in d'.m :: x in d.m || x == k
    ensures k in d.m ==> d'.keys == d.keys
    ensures k !in d.m ==> d'.keys == d.keys + [k]
  {
    if k in d.m then Dict(d.keys, d.m[k := v]) else Dict(d.keys + [k], d.m[k := v])
  }

  /** `d'` keeps every key of `d` in the same place with the same value:
      the dictionary only grew by appending new keys. */
  predicate Extends<K, V(==)>(d: Dict<K, V>, d': Dict<K, V>) {
    && |d.keys| <= |d'.keys|
    && d'.keys[..|d.keys|] == d.keys
    && (forall k | k in d.m :: k in d'.m && d'.m[k] == d.m[k])
  }

  lemma ExtendsRefl<K, V>(d: Dict<K, V>)
    ensures Extends(d, d)
  {
  }

  lemma ExtendsTrans<K, V>(a: Dict<K, V>, b: Dict<K, V>, c: Dict<K, V>)
    requires Extends(a, b) && Extends(b, c)
    ensures Extends(a, c)
  {
    assert c.keys[..|a.keys|] == c.keys[..|b.keys|][..|a.keys|];
  }
}
