/** Sorting by a strict order, and the byte-wise order of strings. */
module Ordering {
  /** A strict partial order. */
  ghost predicate Strict<T(!new)>(less: (T, T) -> bool) {
    && (forall x :: !less(x, x))
    && (forall x, y, z :: less(x, y) && less(y, z) ==> less(x, z))
  }

  /** Distinct members of the sequence are comparable. */
  ghost predicate Comparable<T(!new)>(less: (T, T) -> bool, xs: seq<T>) {
    forall x, y :: x in xs && y in xs && x != y ==> less(x, y) || less(y, x)
  }

  ghost predicate SortedBy<T(!new)>(less: (T, T) -> bool, xs: seq<T>) {
    forall i, j :: 0 <= i < j < |xs| ==> !less(xs[j], xs[i])
  }

  function InsertBy<T(!new)>(less: (T, T) -> bool, x: T, xs: seq<T>): (r: seq<T>)
    ensures multiset(r) == multiset(xs) + multiset{x}
  {
    if xs == [] || less(x, xs[0]) then [x] + xs
    else
      assert xs == [xs[0]] + xs[1..];
      [xs[0]] + InsertBy(less, x, xs[1..])
  }

  /** The library sort: some order-respecting permutation; the only one when members are comparable. */
  function SortBy<T(!new)>(less: (T, T) -> bool, xs: seq<T>): (r: seq<T>)
    ensures multiset(r) == multiset(xs)
    ensures |r| == |xs|
  {
    if xs == [] then []
    else
      assert xs == [xs[0]] + xs[1..];
      var r := InsertBy(less, xs[0], SortBy(less, xs[1..]));
      assert |multiset(r)| == |multiset(xs)|;
      r
  }

  lemma MembersSame<T>(xs: seq<T>, ys: seq<T>)
    requires multiset(xs) == multiset(ys)
    ensures |xs| == |ys|
    ensures forall x :: x in xs <==> x in ys
  {
    assert |multiset(xs)| == |multiset(ys)|;
    forall x ensures x in xs <==> x in ys {
      assert x in xs <==> x in multiset(xs);
      assert x in ys <==> x in multiset(ys);
    }
  }

  lemma WithoutAt<T>(xs: seq<T>, i: nat)
    requires i < |xs|
    ensures multiset(xs) == multiset(xs[..i] + xs[i + 1..]) + multiset{xs[i]}
  {
    assert xs == xs[..i] + ([xs[i]] + xs[i + 1..]);
  }

  /** The first member of one arrangement, found in the other. */
  lemma FirstElsewhere<T>(xs: seq<T>, ys: seq<T>) returns (j: nat)
    requires xs != [] && multiset(xs) == multiset(ys)
    ensures j < |ys| && ys[j] == xs[0]
    ensures multiset(xs[1..]) == multiset(ys[..j] + ys[j + 1..])
  {
    MembersSame(xs, ys);
    assert xs[0] in ys;
    j :| 0 <= j < |ys| && ys[j] == xs[0];
    WithoutAt(ys, j);
    assert xs == [xs[0]] + xs[1..];
    var s, t := multiset(xs[1..]), multiset(ys[..j] + ys[j + 1..]);
    assert s == multiset(xs) - multiset{xs[0]};
    assert t == multiset(ys) - multiset{xs[0]};
  }

  lemma NotBelow<T(!new)>(less: (T, T) -> bool, x: T, y: T, z: T)
    requires Strict(less) && less(x, y) && !less(z, y)
    ensures !less(z, x)
  {
  }

  lemma {:induction false} InsertSorted<T(!new)>(less: (T, T) -> bool, x: T, xs: seq<T>)
    requires Strict(less) && SortedBy(less, xs)
    ensures SortedBy(less, InsertBy(less, x, xs))
  {
    if xs == [] {
    } else if less(x, xs[0]) {
      forall j | 0 <= j < |xs| ensures !less(xs[j], x) {
        NotBelow(less, x, xs[0], xs[j]);
      }
    } else {
      InsertSorted(less, x, xs[1..]);
      var r := InsertBy(less, x, xs[1..]);
      MembersSame(r, xs[1..] + [x]);
      forall j | 0 <= j < |r| ensures !less(r[j], xs[0]) {
        assert r[j] in xs[1..] + [x];
        if r[j] != x { var k :| 0 <= k < |xs[1..]| && xs[1..][k] == r[j]; assert xs[k + 1] == r[j]; }
      }
    }
  }

  lemma {:induction false} SortSorted<T(!new)>(less: (T, T) -> bool, xs: seq<T>)
    requires Strict(less)
    ensures SortedBy(less, SortBy(less, xs))
  {
    if xs != [] {
      SortSorted(less, xs[1..]);
      InsertSorted(less, xs[0], SortBy(less, xs[1..]));
    }
  }

  /** A sorted arrangement of comparable members is determined by the members. */
  lemma {:induction false} SortedUnique<T(!new)>(less: (T, T) -> bool, xs: seq<T>, ys: seq<T>)
    requires Strict(less) && Comparable(less, xs) && SortedBy(less, xs) && SortedBy(less, ys)
    requires multiset(xs) == multiset(ys)
    ensures xs == ys
  {
    MembersSame(xs, ys);
    if xs != [] {
      HeadsAgree(less, xs, ys);
      RestOf(xs);
      RestOf(ys);
      TailSorted(less, xs);
      TailSorted(less, ys);
      SortedUnique(less, xs[1..], ys[1..]);
    }
  }

  lemma RestOf<T>(xs: seq<T>)
    requires xs != []
    ensures xs == [xs[0]] + xs[1..]
    ensures multiset(xs[1..]) == multiset(xs) - multiset{xs[0]}
  {
    assert xs == [xs[0]] + xs[1..];
  }

  lemma TailSorted<T(!new)>(less: (T, T) -> bool, xs: seq<T>)
    requires xs != [] && SortedBy(less, xs)
    ensures SortedBy(less, xs[1..])
    ensures Comparable(less, xs) ==> Comparable(less, xs[1..])
  {
    forall i, j | 0 <= i < j < |xs[1..]| ensures !less(xs[1..][j], xs[1..][i]) {
      assert xs[1..][j] == xs[j + 1] && xs[1..][i] == xs[i + 1];
    }
  }

  lemma HeadsAgree<T(!new)>(less: (T, T) -> bool, xs: seq<T>, ys: seq<T>)
    requires Comparable(less, xs) && SortedBy(less, xs) && SortedBy(less, ys)
    requires xs != [] && ys != [] && forall x :: x in xs <==> x in ys
    ensures xs[0] == ys[0]
  {
    assert ys[0] in ys && xs[0] in xs;
    var i :| 0 <= i < |xs| && xs[i] == ys[0];
    var j :| 0 <= j < |ys| && ys[j] == xs[0];
  }

  /** Sorting forgets the order it was given. */
  lemma SortForgetsOrder<T(!new)>(less: (T, T) -> bool, xs: seq<T>, ys: seq<T>)
    requires Strict(less) && Comparable(less, xs) && multiset(xs) == multiset(ys)
    ensures SortBy(less, xs) == SortBy(less, ys)
  {
    MembersSame(xs, ys);
    MembersSame(SortBy(less, xs), xs);
    SortSorted(less, xs);
    SortSorted(less, ys);
    SortedUnique(less, SortBy(less, xs), SortBy(less, ys));
  }

  function Mapped<A, B>(f: A -> B, xs: seq<A>): (r: seq<B>)
    ensures |r| == |xs| && forall i :: 0 <= i < |xs| ==> r[i] == f(xs[i])
  {
    if xs == [] then [] else [f(xs[0])] + Mapped(f, xs[1..])
  }

  lemma MappedRest<A, B>(f: A -> B, x: A, xs: seq<A>)
    ensures Mapped(f, [x] + xs) == [f(x)] + Mapped(f, xs)
    ensures xs != [] ==> Mapped(f, xs)[0] == f(xs[0]) && Mapped(f, xs)[1..] == Mapped(f, xs[1..])
  {
    assert ([x] + xs)[1..] == xs;
  }

  lemma MappedNext<A, B>(f: A -> B, xs: seq<A>, i: nat)
    requires i < |xs|
    ensures Mapped(f, xs[..i + 1]) == Mapped(f, xs[..i]) + [f(xs[i])]
  {
    var longer, shorter := Mapped(f, xs[..i + 1]), Mapped(f, xs[..i]);
    assert |longer| == i + 1 && |shorter| == i;
    forall k | 0 <= k < i ensures longer[k] == shorter[k] {
      assert xs[..i + 1][k] == xs[k] == xs[..i][k];
    }
    assert longer[i] == f(xs[i]);
  }

  /** Mapping carries permutations over. */
  lemma {:induction false} MappedPermuted<A, B>(f: A -> B, xs: seq<A>, ys: seq<A>)
    requires multiset(xs) == multiset(ys)
    ensures multiset(Mapped(f, xs)) == multiset(Mapped(f, ys))
    decreases |xs|
  {
    if xs == [] {
      assert |multiset(xs)| == |multiset(ys)|;
    } else {
      var j := FirstElsewhere(xs, ys);
      var rest := ys[..j] + ys[j + 1..];
      MappedPermuted(f, xs[1..], rest);
      MappedRest(f, xs[0], xs[1..]);
      assert xs == [xs[0]] + xs[1..];
      MappedWithout(f, ys, j);
    }
  }

  lemma MappedWithout<A, B>(f: A -> B, ys: seq<A>, j: nat)
    requires j < |ys|
    ensures multiset(Mapped(f, ys)) == multiset(Mapped(f, ys[..j] + ys[j + 1..])) + multiset{f(ys[j])}
  {
    var all := Mapped(f, ys);
    MappedDropped(f, ys, j);
    WithoutAt(all, j);
  }

  lemma MappedDropped<A, B>(f: A -> B, ys: seq<A>, j: nat)
    requires j < |ys|
    ensures Mapped(f, ys[..j] + ys[j + 1..]) == Mapped(f, ys)[..j] + Mapped(f, ys)[j + 1..]
  {
    var fewer, mapped, all := ys[..j] + ys[j + 1..], Mapped(f, ys[..j] + ys[j + 1..]), Mapped(f, ys);
    forall k | 0 <= k < |mapped| ensures mapped[k] == all[if k < j then k else k + 1] {
      assert fewer[k] == ys[if k < j then k else k + 1];
    }
    DroppedAt(all, mapped, j);
  }

  lemma DroppedAt<T>(xs: seq<T>, ys: seq<T>, j: nat)
    requires j < |xs| == |ys| + 1
    requires forall k :: 0 <= k < |ys| ==> ys[k] == xs[if k < j then k else k + 1]
    ensures ys == xs[..j] + xs[j + 1..]
  {
  }

  lemma {:induction false} InsertMapped<A(!new), B(!new)>(less: (A, A) -> bool, lessB: (B, B) -> bool, f: A -> B, x: A, xs: seq<A>)
    requires forall y, z :: lessB(f(y), f(z)) == less(y, z)
    ensures InsertBy(lessB, f(x), Mapped(f, xs)) == Mapped(f, InsertBy(less, x, xs))
  {
    MappedRest(f, x, xs);
    if xs != [] && !less(x, xs[0]) {
      InsertMapped(less, lessB, f, x, xs[1..]);
      MappedRest(f, xs[0], InsertBy(less, x, xs[1..]));
    }
  }

  /** Sorting by a key carried over a map is mapping what was sorted. */
  lemma {:induction false} SortMapped<A(!new), B(!new)>(less: (A, A) -> bool, lessB: (B, B) -> bool, f: A -> B, xs: seq<A>)
    requires forall y, z :: lessB(f(y), f(z)) == less(y, z)
    ensures SortBy(lessB, Mapped(f, xs)) == Mapped(f, SortBy(less, xs))
  {
    if xs != [] {
      SortMapped(less, lessB, f, xs[1..]);
      MappedRest(f, xs[0], xs);
      InsertMapped(less, lessB, f, xs[0], SortBy(less, xs[1..]));
    }
  }

  // ---------------------------------------------------------------- strings

  /** `a < b` on strings: the first difference decides, a prefix comes first. */
  predicate StringLess(a: string, b: string) {
    b != [] && (a == [] || a[0] < b[0] || (a[0] == b[0] && StringLess(a[1..], b[1..])))
  }

  lemma {:induction false} StringLessIrreflexive(a: string)
    ensures !StringLess(a, a)
  {
    if a != [] { StringLessIrreflexive(a[1..]); }
  }

  lemma {:induction false} StringLessTransitive(a: string, b: string, c: string)
    requires StringLess(a, b) && StringLess(b, c)
    ensures StringLess(a, c)
  {
    if a != [] && a[0] == b[0] && b[0] == c[0] { StringLessTransitive(a[1..], b[1..], c[1..]); }
  }

  lemma {:induction false} StringLessConnected(a: string, b: string)
    requires a != b
    ensures StringLess(a, b) || StringLess(b, a)
  {
    if a != [] && b != [] && a[0] == b[0] {
      assert a == [a[0]] + a[1..] && b == [b[0]] + b[1..];
      StringLessConnected(a[1..], b[1..]);
    }
  }

  lemma StringOrder()
    ensures Strict(StringLess)
    ensures forall xs :: Comparable(StringLess, xs)
  {
    forall x ensures !StringLess(x, x) { StringLessIrreflexive(x); }
    forall x, y, z | StringLess(x, y) && StringLess(y, z) ensures StringLess(x, z) { StringLessTransitive(x, y, z); }
    forall x, y | x != y ensures StringLess(x, y) || StringLess(y, x) { StringLessConnected(x, y); }
  }

  function SortStrings(xs: seq<string>): (r: seq<string>)
    ensures multiset(r) == multiset(xs) && |r| == |xs|
  {
    SortBy(StringLess, xs)
  }

  lemma SortStringsForgetsOrder(xs: seq<string>, ys: seq<string>)
    requires multiset(xs) == multiset(ys)
    ensures SortStrings(xs) == SortStrings(ys)
  {
    StringOrder();
    assert Comparable(StringLess, xs);
    SortForgetsOrder(StringLess, xs, ys);
  }

  // ---------------------------------------------------------------- lists as sets

  ghost predicate SameMembers<T(!new)>(xs: seq<T>, ys: seq<T>) { forall x :: x in xs <==> x in ys }

  /** Every member once, in order of first appearance. */
  function Unique<T(==,!new)>(xs: seq<T>): (r: seq<T>)
    ensures forall x :: x in r <==> x in xs
    ensures forall i, j :: 0 <= i < j < |r| ==> r[i] != r[j]
  {
    if xs == [] then []
    else
      var rest, last := Unique(xs[..|xs| - 1]), xs[|xs| - 1];
      assert xs == xs[..|xs| - 1] + [last];
      if last in rest then rest else rest + [last]
  }

  lemma {:induction false} OnceEach<T(!new)>(xs: seq<T>, x: T)
    requires forall i, j :: 0 <= i < j < |xs| ==> xs[i] != xs[j]
    ensures multiset(xs)[x] == if x in xs then 1 else 0
  {
    if xs != [] {
      var front, last := xs[..|xs| - 1], xs[|xs| - 1];
      assert xs == front + [last];
      OnceEach(front, x);
    }
  }

  /** Lists with the same members become the same once repetitions are dropped and the rest sorted. */
  lemma UniqueForgets(xs: seq<string>, ys: seq<string>)
    requires SameMembers(xs, ys)
    ensures SortStrings(Unique(xs)) == SortStrings(Unique(ys))
  {
    forall x ensures multiset(Unique(xs))[x] == multiset(Unique(ys))[x] {
      OnceEach(Unique(xs), x);
      OnceEach(Unique(ys), x);
    }
    assert multiset(Unique(xs)) == multiset(Unique(ys));
    SortStringsForgetsOrder(Unique(xs), Unique(ys));
  }

  // ---------------------------------------------------------------- ascending lists

  predicate Ascending(xs: seq<string>) { forall i, j :: 0 <= i < j < |xs| ==> StringLess(xs[i], xs[j]) }

  /** An ascending list is determined by its members. */
  lemma {:induction false} AscendingSame(xs: seq<string>, ys: seq<string>)
    requires Ascending(xs) && Ascending(ys) && forall x :: x in xs <==> x in ys
    ensures xs == ys
  {
    if xs != [] && ys != [] {
      HeadSame(xs, ys);
      forall x ensures x in xs[1..] <==> x in ys[1..] {
        TailMembers(xs, x);
        TailMembers(ys, x);
      }
      AscendingSame(xs[1..], ys[1..]);
    } else {
      NoMembers(xs, ys);
    }
  }

  lemma NoMembers(xs: seq<string>, ys: seq<string>)
    requires (xs == [] || ys == []) && forall x :: x in xs <==> x in ys
    ensures xs == ys
  {
    if xs != [] { HasHead(xs); }
    if ys != [] { HasHead(ys); }
  }

  lemma HasHead(xs: seq<string>)
    requires xs != []
    ensures xs[0] in xs
  {
  }

  lemma HeadSame(xs: seq<string>, ys: seq<string>)
    requires Ascending(xs) && Ascending(ys) && xs != [] && ys != [] && forall x :: x in xs <==> x in ys
    ensures xs[0] == ys[0]
  {
    assert xs[0] in ys && ys[0] in xs;
    var i, j :| 0 <= i < |ys| && ys[i] == xs[0] && 0 <= j < |xs| && xs[j] == ys[0];
    StringOrder();
    FirstIsLeast(ys, i);
    FirstIsLeast(xs, j);
  }

  lemma FirstIsLeast(xs: seq<string>, j: nat)
    requires Ascending(xs) && j < |xs|
    ensures j == 0 || StringLess(xs[0], xs[j])
  {
  }

  lemma TailMembers(xs: seq<string>, x: string)
    requires Ascending(xs) && xs != []
    ensures x in xs[1..] <==> x in xs && x != xs[0]
  {
    StringLessIrreflexive(x);
    if x in xs[1..] { var i :| 0 <= i < |xs[1..]| && xs[1..][i] == x; assert xs[i + 1] == x; }
    if x in xs && x != xs[0] { var i :| 0 <= i < |xs| && xs[i] == x; assert xs[1..][i - 1] == x; }
  }

  /** Rearranging a list without repetitions makes none. */
  lemma OnceOnly<T(!new)>(xs: seq<T>, ys: seq<T>)
    requires multiset(xs) == multiset(ys) && forall i, j :: 0 <= i < j < |xs| ==> xs[i] != xs[j]
    ensures forall i, j :: 0 <= i < j < |ys| ==> ys[i] != ys[j]
  {
    forall i, j | 0 <= i < j < |ys| ensures ys[i] != ys[j] {
      if ys[i] == ys[j] {
        AtTwice(ys, i, j);
        OnceEach(xs, ys[i]);
      }
    }
  }

  lemma AtTwice<T>(ys: seq<T>, i: nat, j: nat)
    requires i < j < |ys| && ys[i] == ys[j]
    ensures multiset(ys)[ys[i]] >= 2
  {
    assert ys == ys[..i] + ([ys[i]] + (ys[i + 1..j] + ([ys[j]] + ys[j + 1..])));
  }

  /** Sorting a list without repetitions leaves it ascending. */
  lemma SortedAscends(xs: seq<string>)
    requires forall i, j :: 0 <= i < j < |xs| ==> xs[i] != xs[j]
    ensures Ascending(SortStrings(xs)) && SameMembers(SortStrings(xs), xs)
  {
    var r := SortStrings(xs);
    StringOrder();
    SortSorted(StringLess, xs);
    MembersSame(r, xs);
    OnceOnly(xs, r);
    forall i, j | 0 <= i < j < |r| ensures StringLess(r[i], r[j]) { StringLessConnected(r[i], r[j]); }
  }

  /** Any two different values are comparable. */
  ghost predicate Total<T(!new)>(less: (T, T) -> bool) { forall x, y :: x == y || less(x, y) || less(y, x) }

  /** The first of the sorted members is below all others. */
  lemma LeastFirst<T(!new)>(less: (T, T) -> bool, xs: seq<T>)
    requires Strict(less) && Total(less) && xs != []
    ensures SortBy(less, xs)[0] in xs
    ensures forall x :: x in xs ==> x == SortBy(less, xs)[0] || less(SortBy(less, xs)[0], x)
  {
    var r := SortBy(less, xs);
    SortSorted(less, xs);
    MembersSame(r, xs);
    forall x | x in xs ensures x == r[0] || less(r[0], x) {
      var i :| 0 <= i < |r| && r[i] == x;
    }
  }

  /** So it depends on the set of members only. */
  lemma LeastForgets<T(!new)>(less: (T, T) -> bool, xs: seq<T>, ys: seq<T>)
    requires Strict(less) && Total(less) && SameMembers(xs, ys) && xs != [] && ys != []
    ensures SortBy(less, xs)[0] == SortBy(less, ys)[0]
  {
    LeastFirst(less, xs);
    LeastFirst(less, ys);
    assert less(SortBy(less, xs)[0], SortBy(less, ys)[0]) ==> !less(SortBy(less, ys)[0], SortBy(less, xs)[0]);
  }
}
