/** Lists of items with string keys: looking one up, indexing, and keeping the list sorted by key. */
module Keyed {
  import opened Wrappers
  import opened Ordering
  import opened Maps

  /** The first item with the key. */
  function Find<T>(key: T -> string, xs: seq<T>, k: string): (r: Option<T>)
    ensures r.Some? ==> r.value in xs && key(r.value) == k
    ensures r.None? ==> forall x :: x in xs ==> key(x) != k
  {
    if xs == [] then None
    else if key(xs[0]) == k then Some(xs[0])
    else
      assert xs == [xs[0]] + xs[1..];
      Find(key, xs[1..], k)
  }

  lemma FindMember<T>(key: T -> string, xs: seq<T>, x: T)
    requires DistinctKeys(key, xs) && x in xs
    ensures Find(key, xs, key(x)) == Some(x)
  {
    var y := Find(key, xs, key(x)).value;
    var i :| 0 <= i < |xs| && xs[i] == x;
    var j :| 0 <= j < |xs| && xs[j] == y;
    assert key(xs[i]) == key(xs[j]);
  }

  lemma FindIndexed<T(!new)>(key: T -> string, xs: seq<T>, k: string)
    requires DistinctKeys(key, xs)
    ensures k in ByKey(key, xs) <==> Find(key, xs, k).Some?
    ensures k in ByKey(key, xs) ==> Find(key, xs, k) == Some(ByKey(key, xs)[k])
  {
    KeysOfByKey(key, xs);
    ValuesListed(key, xs);
    if k in ByKey(key, xs) {
      var i :| 0 <= i < |xs| && key(xs[i]) == k;
      assert xs[i] in xs;
      FindMember(key, xs, ByKey(key, xs)[k]);
    }
  }

  lemma {:induction false} ValuesListed<T(!new)>(key: T -> string, xs: seq<T>)
    ensures forall k :: k in ByKey(key, xs) ==> ByKey(key, xs)[k] in xs
  {
    if xs != [] {
      ValuesListed(key, xs[..|xs| - 1]);
      assert xs == xs[..|xs| - 1] + [xs[|xs| - 1]];
    }
  }

  function KeyLess<T>(key: T -> string): (T, T) -> bool { (a, b) => StringLess(key(a), key(b)) }

  lemma KeyOrder<T(!new)>(key: T -> string)
    ensures Strict(KeyLess(key))
  {
    StringOrder();
  }

  predicate SortedByKey<T>(key: T -> string, xs: seq<T>) {
    forall i, j :: 0 <= i < j < |xs| ==> !StringLess(key(xs[j]), key(xs[i]))
  }

  /** sort.Slice by key. */
  function SortKeyed<T(!new)>(key: T -> string, xs: seq<T>): (r: seq<T>)
    ensures multiset(r) == multiset(xs) && |r| == |xs|
    ensures SortedByKey(key, r)
  {
    KeyOrder(key);
    SortSorted(KeyLess(key), xs);
    SortBy(KeyLess(key), xs)
  }

  lemma DistinctOfSame<T>(key: T -> string, xs: seq<T>, ys: seq<T>)
    requires DistinctKeys(key, xs) && multiset(xs) == multiset(ys)
    ensures DistinctKeys(key, ys)
  {
    MembersSame(xs, ys);
    forall i, j | 0 <= i < j < |ys| ensures key(ys[i]) != key(ys[j]) {
      assert ys[i] in xs && ys[j] in xs;
      var a :| 0 <= a < |xs| && xs[a] == ys[i];
      var b :| 0 <= b < |xs| && xs[b] == ys[j];
      if a == b { TwiceMeansTwo(xs, ys, a, i, j); }
    }
  }

  /** An item at two places of one arrangement is at two places of the other. */
  lemma TwiceMeansTwo<T>(xs: seq<T>, ys: seq<T>, a: nat, i: nat, j: nat)
    requires multiset(xs) == multiset(ys) && a < |xs| && i < j < |ys| && ys[i] == ys[j] == xs[a]
    ensures exists b :: 0 <= b < |xs| && b != a && xs[b] == xs[a]
  {
    WithoutAt(ys, j);
    WithoutAt(xs, a);
    assert (ys[..j] + ys[j + 1..])[i] == ys[i];
    assert ys[i] in multiset(ys[..j] + ys[j + 1..]);
    assert multiset(ys)[ys[i]] >= 2;
    var rest := xs[..a] + xs[a + 1..];
    assert xs[a] in multiset(rest);
    var c :| 0 <= c < |rest| && rest[c] == xs[a];
    assert xs[if c < a then c else c + 1] == xs[a];
  }

  /** Adding an item under a new key, and sorting. */
  lemma Extended<T(!new)>(key: T -> string, xs: seq<T>, x: T)
    requires DistinctKeys(key, xs) && Find(key, xs, key(x)).None?
    ensures DistinctKeys(key, SortKeyed(key, xs + [x]))
    ensures forall y :: y in SortKeyed(key, xs + [x]) <==> y in xs || y == x
    ensures forall k :: Find(key, SortKeyed(key, xs + [x]), k) == if k == key(x) then Some(x) else Find(key, xs, k)
  {
    var r := SortKeyed(key, xs + [x]);
    DistinctOfSame(key, xs + [x], r);
    MembersSame(xs + [x], r);
    forall k ensures Find(key, r, k) == if k == key(x) then Some(x) else Find(key, xs, k) {
      if k == key(x) {
        FindMember(key, r, x);
      } else if Find(key, xs, k).Some? {
        FindMember(key, r, Find(key, xs, k).value);
      }
    }
  }

  lemma FindSorted<T(!new)>(key: T -> string, xs: seq<T>)
    requires DistinctKeys(key, xs)
    ensures DistinctKeys(key, SortKeyed(key, xs))
    ensures forall k :: Find(key, SortKeyed(key, xs), k) == Find(key, xs, k)
    ensures forall x :: x in SortKeyed(key, xs) <==> x in xs
  {
    var r := SortKeyed(key, xs);
    DistinctOfSame(key, xs, r);
    MembersSame(xs, r);
    forall k ensures Find(key, r, k) == Find(key, xs, k) {
      if Find(key, xs, k).Some? { FindMember(key, r, Find(key, xs, k).value); }
    }
  }

  /** The first item with the key of x replaced by x, or x added at the end. */
  function Put<T>(key: T -> string, xs: seq<T>, x: T): seq<T> {
    if xs == [] then [x]
    else if key(xs[0]) == key(x) then [x] + xs[1..]
    else [xs[0]] + Put(key, xs[1..], x)
  }

  lemma HeadApart<T(!new)>(key: T -> string, xs: seq<T>)
    requires DistinctKeys(key, xs) && xs != []
    ensures DistinctKeys(key, xs[1..]) && forall y :: y in xs[1..] ==> key(y) != key(xs[0])
  {
    forall y | y in xs[1..] ensures key(y) != key(xs[0]) {
      var i :| 0 <= i < |xs[1..]| && xs[1..][i] == y;
      assert key(xs[i + 1]) != key(xs[0]);
    }
  }

  lemma HeadedDistinct<T(!new)>(key: T -> string, x: T, xs: seq<T>)
    requires DistinctKeys(key, xs) && forall y :: y in xs ==> key(y) != key(x)
    ensures DistinctKeys(key, [x] + xs)
  {
    var r := [x] + xs;
    forall i, j | 0 <= i < j < |r| ensures key(r[i]) != key(r[j]) {
      assert r[j] == xs[j - 1] && r[j] in xs;
      if i > 0 { assert r[i] == xs[i - 1]; }
    }
  }

  lemma {:induction false} PutKeys<T(!new)>(key: T -> string, xs: seq<T>, x: T)
    requires DistinctKeys(key, xs)
    ensures forall y :: y in Put(key, xs, x) <==> y == x || (y in xs && key(y) != key(x))
    ensures DistinctKeys(key, Put(key, xs, x))
  {
    if xs != [] {
      var head, rest := xs[0], xs[1..];
      assert xs == [head] + rest;
      HeadApart(key, xs);
      PutKeys(key, rest, x);
      HeadedDistinct(key, if key(head) == key(x) then x else head, if key(head) == key(x) then rest else Put(key, rest, x));
    }
  }

  lemma PutFinds<T(!new)>(key: T -> string, xs: seq<T>, x: T)
    requires DistinctKeys(key, xs)
    ensures DistinctKeys(key, SortKeyed(key, Put(key, xs, x)))
    ensures forall y :: y in SortKeyed(key, Put(key, xs, x)) <==> y == x || (y in xs && key(y) != key(x))
    ensures forall k :: Find(key, SortKeyed(key, Put(key, xs, x)), k) == if k == key(x) then Some(x) else Find(key, xs, k)
  {
    var p := Put(key, xs, x);
    PutKeys(key, xs, x);
    FindSorted(key, p);
    forall k ensures Find(key, p, k) == if k == key(x) then Some(x) else Find(key, xs, k) {
      if k == key(x) {
        FindMember(key, p, x);
      } else if Find(key, xs, k).Some? {
        FindMember(key, p, Find(key, xs, k).value);
      }
    }
  }

  // ---------------------------------------------------------------- distinctness, one item at a time

  function KeysBefore<T>(key: T -> string, xs: seq<T>, n: nat): set<string>
    requires n <= |xs|
  {
    set k | 0 <= k < n :: key(xs[k])
  }

  predicate NewAt<T>(key: T -> string, xs: seq<T>, i: nat)
    requires i < |xs|
  {
    key(xs[i]) !in KeysBefore(key, xs, i)
  }

  lemma DistinctIff<T(!new)>(key: T -> string, xs: seq<T>)
    ensures DistinctKeys(key, xs) <==> forall i :: 0 <= i < |xs| ==> NewAt(key, xs, i)
  {
    if forall i :: 0 <= i < |xs| ==> NewAt(key, xs, i) {
      forall i, j | 0 <= i < j < |xs| ensures key(xs[i]) != key(xs[j]) {
        assert NewAt(key, xs, j);
        assert key(xs[i]) in KeysBefore(key, xs, j);
      }
    }
  }

  /** The index after one more item. */
  lemma IndexNext<T(!new)>(key: T -> string, xs: seq<T>, i: nat)
    requires i < |xs|
    ensures ByKey(key, xs[..i + 1]) == ByKey(key, xs[..i])[key(xs[i]) := xs[i]]
    ensures KeysBefore(key, xs, i + 1) == KeysBefore(key, xs, i) + {key(xs[i])}
  {
    assert xs[..i + 1][..i] == xs[..i];
  }
}
