/** The values of a map with their multiplicities, and the map a list of keyed items makes. */
module Maps {
  lemma SizeWithout<K, V>(m: map<K, V>, k: K)
    requires k in m
    ensures |m - {k}| == |m| - 1
  {
    assert (m - {k}).Keys == m.Keys - {k};
  }

  ghost function Pick<K(!new), V>(m: map<K, V>): (k: K)
    requires m != map[]
    ensures k in m
  {
    assert m.Keys != {};
    var k :| k in m.Keys;
    k
  }

  ghost function Gathered<K(!new), V>(m: map<K, V>): multiset<V>
    decreases |m|
  {
    if m == map[] then multiset{}
    else
      SizeWithout(m, Pick(m));
      Gathered(m - {Pick(m)}) + multiset{m[Pick(m)]}
  }

  /** The values of a map, with their multiplicities. */
  ghost function Values<K(!new), V>(m: map<K, V>): multiset<V> { Gathered(m) }

  lemma {:induction false} ValuesWithout<K(!new), V>(m: map<K, V>, k: K)
    requires k in m
    ensures Values(m) == Values(m - {k}) + multiset{m[k]}
    decreases |m|
  {
    var first := Pick(m);
    SizeWithout(m, first);
    SizeWithout(m, k);
    if first != k {
      var both := m - {first} - {k};
      assert both == m - {k} - {first};
      ValuesWithout(m - {first}, k);
      ValuesWithout(m - {k}, first);
      assert Values(m) == Values(both) + multiset{m[k]} + multiset{m[first]};
    }
  }

  lemma ValuesAdded<K(!new), V>(m: map<K, V>, k: K, v: V)
    requires k !in m
    ensures Values(m[k := v]) == Values(m) + multiset{v}
    ensures |m[k := v]| == |m| + 1
  {
    ValuesWithout(m[k := v], k);
    SizeWithout(m[k := v], k);
    assert m[k := v] - {k} == m;
  }

  /** The items by key: a later item replaces an earlier one with its key. */
  function ByKey<K, V>(key: V -> K, items: seq<V>): map<K, V> {
    if items == [] then map[]
    else
      var last := items[|items| - 1];
      ByKey(key, items[..|items| - 1])[key(last) := last]
  }

  predicate DistinctKeys<K(==), V>(key: V -> K, items: seq<V>) {
    forall i, j :: 0 <= i < j < |items| ==> key(items[i]) != key(items[j])
  }

  lemma {:induction false} KeysOfByKey<K(!new), V>(key: V -> K, items: seq<V>)
    ensures forall k :: k in ByKey(key, items) <==> exists i :: 0 <= i < |items| && key(items[i]) == k
    ensures forall k :: k in ByKey(key, items) ==> key(ByKey(key, items)[k]) == k
  {
    if items != [] {
      var front, last := items[..|items| - 1], items[|items| - 1];
      KeysOfByKey(key, front);
      forall k ensures k in ByKey(key, items) <==> exists i :: 0 <= i < |items| && key(items[i]) == k {
        if k in ByKey(key, front) {
          var i :| 0 <= i < |front| && key(front[i]) == k;
          assert key(items[i]) == k;
        } else if k == key(last) {
          assert key(items[|items| - 1]) == k;
        } else {
          forall i | 0 <= i < |items| ensures key(items[i]) != k {
            if i < |front| { assert key(front[i]) != k; }
          }
        }
      }
    }
  }

  lemma {:induction false} ValuesOfByKey<K(!new), V>(key: V -> K, items: seq<V>)
    requires DistinctKeys(key, items)
    ensures Values(ByKey(key, items)) == multiset(items)
    ensures |ByKey(key, items)| == |items|
  {
    if items != [] {
      var front, last := items[..|items| - 1], items[|items| - 1];
      assert items == front + [last];
      assert DistinctKeys(key, front);
      ValuesOfByKey(key, front);
      KeysOfByKey(key, front);
      ValuesAdded(ByKey(key, front), key(last), last);
    }
  }

  // ---------------------------------------------------------------- comparing two maps

  function Removed<K, V>(a: map<K, V>, b: map<K, V>): set<K> { a.Keys - b.Keys }

  function Added<K, V>(a: map<K, V>, b: map<K, V>): set<K> { b.Keys - a.Keys }

  function Modified<K, V(==)>(a: map<K, V>, b: map<K, V>): set<K> { set k | k in a.Keys && k in b.Keys && a[k] != b[k] }

  function Same<K, V(==)>(a: map<K, V>, b: map<K, V>): set<K> { set k | k in a.Keys && k in b.Keys && a[k] == b[k] }

  lemma Partition<K>(s: set<K>, x: set<K>, y: set<K>, z: set<K>)
    requires s == x + y + z && x !! y !! z
    ensures |s| == |x| + |y| + |z|
  {
    assert |x + y| == |x| + |y|;
  }

  /** Every key of the first map is removed, modified or the same; every key of the second added, modified or the same. */
  lemma Conserved<K, V>(a: map<K, V>, b: map<K, V>)
    ensures |Removed(a, b)| + |Modified(a, b)| + |Same(a, b)| == |a|
    ensures |Added(a, b)| + |Modified(a, b)| + |Same(a, b)| == |b|
  {
    Shared(a, b);
    Split(a.Keys, b.Keys);
    Split(b.Keys, a.Keys);
    assert b.Keys * a.Keys == a.Keys * b.Keys;
  }

  lemma Shared<K, V>(a: map<K, V>, b: map<K, V>)
    ensures |Modified(a, b)| + |Same(a, b)| == |a.Keys * b.Keys|
  {
    assert Modified(a, b) + Same(a, b) == a.Keys * b.Keys;
    Partition(a.Keys * b.Keys, {}, Modified(a, b), Same(a, b));
  }

  lemma Split<K>(s: set<K>, t: set<K>)
    ensures |s - t| + |s * t| == |s|
  {
    assert s == (s - t) + (s * t);
  }
}
