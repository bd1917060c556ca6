/**
  JavaScript `Map` and `Set` as the beacon node uses them for its process-wide caches: keys are
  kept in insertion order, `set`/`add` of a key that is already present keeps its position, and
  `delete` removes the key wherever it is.
*/
module InsertionOrdered {
  import opened Results

  /** A snapshot of a `Map`: its keys in insertion order and its entries. */
  datatype MapState<K, V> = MapState(keys: seq<K>, entries: map<K, V>)

  ghost predicate Distinct<K(!new)>(s: seq<K>) {
    forall i, j :: 0 <= i < j < |s| ==> s[i] != s[j]
  }

  /** The keys are distinct and are exactly the keys of the entries. */
  ghost predicate WellFormed<K(!new), V>(s: MapState<K, V>) {
    Distinct(s.keys) && forall k :: k in s.entries <==> k in s.keys
  }

  /** `s` without the occurrences of `k`, the rest in order. */
  function Without<K(==,!new)>(s: seq<K>, k: K): (r: seq<K>)
    ensures forall x :: x in r <==> x in s && x != k
    ensures |r| <= |s|
  {
    if s == [] then []
    else if s[0] == k then Without(s[1..], k)
    else [s[0]] + Without(s[1..], k)
  }

  /** `map.set(k, v)`. */
  function MapSet<K(==,!new), V>(s: MapState<K, V>, k: K, v: V): MapState<K, V> {
    MapState(if k in s.entries then s.keys else s.keys + [k], s.entries[k := v])
  }

  /** `map.delete(k)`. */
  function MapDelete<K(==,!new), V>(s: MapState<K, V>, k: K): MapState<K, V> {
    MapState(Without(s.keys, k), s.entries - {k})
  }

  /** `set.add(k)` on the elements of a `Set`, in insertion order. */
  function SetAdd<K(==,!new)>(elements: seq<K>, k: K): seq<K> {
    if k in elements then elements else elements + [k]
  }

  class OrderedMap<K(==,!new), V> {
    var keys: seq<K>
    var entries: map<K, V>

    constructor ()
      ensures State() == MapState([], map[])
    {
      keys, entries := [], map[];
    }

    function State(): MapState<K, V>
      reads this
    {
      MapState(keys, entries)
    }

    ghost predicate Valid()
      reads this
    {
      WellFormed(State())
    }

    function Size(): nat
      reads this
    {
      |keys|
    }

    function Has(k: K): bool
      reads this
    {
      k in entries
    }

    function Get(k: K): Option<V>
      reads this
    {
      if k in entries then Some(entries[k]) else None
    }

    method Set(k: K, v: V)
      modifies this
      ensures State() == MapSet(old(State()), k, v)
      ensures old(Valid()) ==> Valid()
    {
      if k !in entries {
        keys := keys + [k];
      }
      entries := entries[k := v];
    }

    method Delete(k: K)
      modifies this
      ensures State() == MapDelete(old(State()), k)
      ensures old(Valid()) ==> Valid()
    {
      if Valid() {
        MapDeleteProperties(State(), k);
      }
      keys := Without(keys, k);
      entries := entries - {k};
    }
  }

  class OrderedSet<K(==,!new)> {
    var elements: seq<K>

    constructor ()
      ensures elements == []
    {
      elements := [];
    }

    ghost predicate Valid()
      reads this
    {
      Distinct(elements)
    }

    function Size(): nat
      reads this
    {
      |elements|
    }

    function Has(k: K): bool
      reads this
    {
      k in elements
    }

    method Add(k: K)
      modifies this
      ensures elements == SetAdd(old(elements), k)
      ensures old(Valid()) ==> Valid()
    {
      if Valid() {
        SetAddProperties(elements, k);
      }
      if k !in elements {
        elements := elements + [k];
      }
    }

    method Delete(k: K)
      modifies this
      ensures elements == Without(old(elements), k)
      ensures old(Valid()) ==> Valid()
    {
      if Valid() {
        WithoutKeepsDistinct(elements, k);
      }
      elements := Without(elements, k);
    }
  }

  // ---------------------------------------------------------------------------------------------
  // Properties of the operations
  // ---------------------------------------------------------------------------------------------

  lemma WellFormedSize<K(!new), V>(s: MapState<K, V>)
    requires WellFormed(s)
    ensures |s.entries| == |s.keys|
  {
    DistinctCardinality(s.keys);
    assert s.entries.Keys == set k | k in s.keys;
  }

  lemma {:induction false} DistinctCardinality<K(!new)>(s: seq<K>)
    requires Distinct(s)
    ensures |set k | k in s| == |s|
    decreases |s|
  {
    if s != [] {
      var init := s[..|s| - 1];
      assert Distinct(init);
      DistinctCardinality(init);
      assert (set k | k in s) == (set k | k in init) + {s[|s| - 1]};
      assert s[|s| - 1] !in init;
    }
  }

  /** `set` keeps a map well formed, writes exactly `k`, and appends `k` to the order only when it is new. */
  lemma MapSetProperties<K(!new), V>(s: MapState<K, V>, k: K, v: V)
    requires WellFormed(s)
    ensures WellFormed(MapSet(s, k, v))
    ensures MapSet(s, k, v).entries[k] == v
    ensures forall x :: x != k && x in s.entries ==> x in MapSet(s, k, v).entries && MapSet(s, k, v).entries[x] == s.entries[x]
    ensures k in s.entries ==> MapSet(s, k, v).keys == s.keys
    ensures k !in s.entries ==> MapSet(s, k, v).keys == s.keys + [k]
  {
  }

  lemma {:induction false} WithoutAbsent<K(!new)>(s: seq<K>, k: K)
    requires k !in s
    ensures Without(s, k) == s
    decreases |s|
  {
    if s != [] {
      WithoutAbsent(s[1..], k);
    }
  }

  /** Removing a key from a list of distinct keys leaves them distinct. */
  lemma {:induction false} WithoutKeepsDistinct<K(!new)>(s: seq<K>, k: K)
    requires Distinct(s)
    ensures Distinct(Without(s, k))
    decreases |s|
  {
    if s != [] {
      assert Distinct(s[1..]);
      WithoutKeepsDistinct(s[1..], k);
      if s[0] != k {
        assert s[0] !in s[1..];
        assert s[0] !in Without(s[1..], k);
        var r := [s[0]] + Without(s[1..], k);
        forall i, j | 0 <= i < j < |r| ensures r[i] != r[j] {
          if i == 0 { assert r[j] in Without(s[1..], k); }
          else { assert r[i] == Without(s[1..], k)[i - 1] && r[j] == Without(s[1..], k)[j - 1]; }
        }
      }
    }
  }

  /** `delete` keeps a map well formed and removes exactly `k`, the other entries and their order untouched. */
  lemma MapDeleteProperties<K(!new), V>(s: MapState<K, V>, k: K)
    requires WellFormed(s)
    ensures WellFormed(MapDelete(s, k))
    ensures k !in MapDelete(s, k).entries
    ensures forall x :: x != k && x in s.entries ==> x in MapDelete(s, k).entries && MapDelete(s, k).entries[x] == s.entries[x]
  {
    WithoutKeepsDistinct(s.keys, k);
  }

  /** Deleting the first key of a list of distinct keys drops exactly that key. */
  lemma WithoutHead<K(!new)>(s: seq<K>)
    requires |s| > 0 && Distinct(s)
    ensures Without(s, s[0]) == s[1..]
  {
    assert s[0] !in s[1..];
    WithoutAbsent(s[1..], s[0]);
  }

  /** The number of keys a cache of `size` entries loses when trimmed to `cap`: `Math.max(0, size - cap)`. */
  function PruneCount(size: nat, cap: nat): (r: nat)
    ensures r <= size
    ensures size - r == if size <= cap then size else cap
  {
    if size > cap then size - cap else 0
  }

  /** The entries of `entries` whose key still occurs in `keys`. */
  function Restrict<K(==,!new), V>(entries: map<K, V>, keys: seq<K>): (r: map<K, V>)
    ensures forall k :: k in r <==> k in entries && k in keys
  {
    map k | k in entries && k in keys :: entries[k]
  }

  /** A map trimmed to its newest `cap` keys: the oldest insertions go first. */
  function MapPruned<K(==,!new), V>(s: MapState<K, V>, cap: nat): MapState<K, V> {
    var kept := s.keys[PruneCount(|s.keys|, cap)..];
    MapState(kept, Restrict(s.entries, kept))
  }

  /** A `Set` trimmed to its newest `cap` elements. */
  function SetPruned<K(==,!new)>(elements: seq<K>, cap: nat): seq<K> {
    elements[PruneCount(|elements|, cap)..]
  }

  /** A key of a list of distinct keys is either among its first `n` or among the rest, never both. */
  lemma SplitDistinct<K(!new)>(keys: seq<K>, n: nat, k: K)
    requires Distinct(keys) && n <= |keys| && k in keys
    ensures k in keys[n..] <==> k !in keys[..n]
  {
    var i :| 0 <= i < |keys| && keys[i] == k;
    if i < n { assert keys[..n][i] == k; } else { assert keys[n..][i - n] == k; }
  }

  /**
    Trimming keeps a map well formed with at most `cap` entries. It deletes exactly the
    `max(0, size - cap)` oldest keys, and every other entry survives with its value.
  */
  lemma MapPrunedProperties<K(!new), V>(s: MapState<K, V>, cap: nat)
    requires WellFormed(s)
    ensures var p := MapPruned(s, cap);
      && WellFormed(p)
      && |p.entries| <= cap
      && |p.entries| == |s.entries| - PruneCount(|s.entries|, cap)
      && (forall k :: k in p.entries <==> k in s.entries && k !in s.keys[..PruneCount(|s.keys|, cap)])
      && (forall k :: k in p.entries ==> p.entries[k] == s.entries[k])
  {
    var n := PruneCount(|s.keys|, cap);
    var p := MapPruned(s, cap);
    forall k | k in s.entries
      ensures k in s.keys[n..] <==> k !in s.keys[..n]
    {
      SplitDistinct(s.keys, n, k);
    }
    assert Distinct(p.keys) by {
      forall i, j | 0 <= i < j < |p.keys| ensures p.keys[i] != p.keys[j] {
        assert p.keys[i] == s.keys[n + i] && p.keys[j] == s.keys[n + j];
      }
    }
    assert WellFormed(p);
    WellFormedSize(s);
    WellFormedSize(p);
  }

  /** A map within its cap is left as it is. */
  lemma MapPrunedUnderCap<K(!new), V>(s: MapState<K, V>, cap: nat)
    requires WellFormed(s) && |s.keys| <= cap
    ensures MapPruned(s, cap) == s
  {
    assert s.keys[PruneCount(|s.keys|, cap)..] == s.keys;
    assert Restrict(s.entries, s.keys) == s.entries;
  }

  /** Trimming a `Set` keeps its elements distinct and leaves at most `cap` of them, the newest ones. */
  lemma SetPrunedProperties<K(!new)>(elements: seq<K>, cap: nat)
    requires Distinct(elements)
    ensures var p := SetPruned(elements, cap);
      && Distinct(p)
      && |p| <= cap
      && |p| == |elements| - PruneCount(|elements|, cap)
      && p == elements[|elements| - |p|..]
  {
  }

  /** Re-adding a present element does not move it; a new element becomes the newest. */
  lemma SetAddProperties<K(!new)>(elements: seq<K>, k: K)
    requires Distinct(elements)
    ensures Distinct(SetAdd(elements, k))
    ensures k in SetAdd(elements, k)
    ensures k !in elements ==> SetAdd(elements, k)[|SetAdd(elements, k)| - 1] == k
  {
  }

  /** The newest element of a `Set` survives any trim to a positive size. */
  lemma NewestSurvivesPrune<K(!new)>(elements: seq<K>, cap: nat)
    requires |elements| > 0 && cap > 0
    ensures elements[|elements| - 1] in SetPruned(elements, cap)
  {
    var p := SetPruned(elements, cap);
    assert p[|p| - 1] == elements[|elements| - 1];
  }
}
