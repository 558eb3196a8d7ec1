/** Matchings between two token lists: the longest order-preserving one, and the largest one between equal codes. */
module TokenMatching {
  // ---------------------------------------------------------------- order-preserving

  /** Pairs of related positions below i and j, strictly rising on both sides. */
  ghost predicate Ordered<T(!new)>(near: (T, T) -> bool, a: seq<T>, b: seq<T>, i: nat, j: nat, m: seq<(nat, nat)>)
    requires i <= |a| && j <= |b|
  {
    && (forall k :: 0 <= k < |m| ==> m[k].0 < i && m[k].1 < j && near(a[m[k].0], b[m[k].1]))
    && (forall k, l :: 0 <= k < l < |m| ==> m[k].0 < m[l].0 && m[k].1 < m[l].1)
  }

  /** The cell of the table for the first i and j tokens. */
  function Cell<T>(near: (T, T) -> bool, a: seq<T>, b: seq<T>, i: nat, j: nat): (n: nat)
    requires i <= |a| && j <= |b|
    ensures n <= i && n <= j
    decreases i + j
  {
    if i == 0 || j == 0 then 0
    else if near(a[i - 1], b[j - 1]) then Cell(near, a, b, i - 1, j - 1) + 1
    else
      var up, left := Cell(near, a, b, i - 1, j), Cell(near, a, b, i, j - 1);
      if up > left then up else left
  }

  /** The length for two prefixes; a name for the cell that keeps proofs from unfolding its neighbours. */
  function LongestAt<T>(near: (T, T) -> bool, a: seq<T>, b: seq<T>, i: nat, j: nat): (n: nat)
    requires i <= |a| && j <= |b|
    ensures n <= i && n <= j
  {
    Cell(near, a, b, i, j)
  }

  function Longest<T>(near: (T, T) -> bool, a: seq<T>, b: seq<T>): nat { LongestAt(near, a, b, |a|, |b|) }

  lemma {:induction false} LongestExists<T(!new)>(near: (T, T) -> bool, a: seq<T>, b: seq<T>, i: nat, j: nat) returns (m: seq<(nat, nat)>)
    requires i <= |a| && j <= |b|
    ensures Ordered(near, a, b, i, j, m) && |m| == LongestAt(near, a, b, i, j)
    decreases i + j
  {
    if i == 0 || j == 0 {
      m := [];
    } else if near(a[i - 1], b[j - 1]) {
      var front := LongestExists(near, a, b, i - 1, j - 1);
      m := front + [(i - 1, j - 1)];
    } else if LongestAt(near, a, b, i - 1, j) > LongestAt(near, a, b, i, j - 1) {
      m := LongestExists(near, a, b, i - 1, j);
    } else {
      m := LongestExists(near, a, b, i, j - 1);
    }
  }

  /** The pairs before the last lie below it on both sides. */
  lemma WithoutLast<T(!new)>(near: (T, T) -> bool, a: seq<T>, b: seq<T>, i: nat, j: nat, m: seq<(nat, nat)>)
    requires i <= |a| && j <= |b| && m != [] && Ordered(near, a, b, i, j, m)
    ensures var (x, y) := m[|m| - 1]; Ordered(near, a, b, x, y, m[..|m| - 1]) && x < i && y < j && Ordered(near, a, b, x + 1, y + 1, m)
  {
  }

  lemma Wider<T(!new)>(near: (T, T) -> bool, a: seq<T>, b: seq<T>, x: nat, y: nat, i: nat, j: nat, m: seq<(nat, nat)>)
    requires x <= i <= |a| && y <= j <= |b| && Ordered(near, a, b, x, y, m)
    ensures Ordered(near, a, b, i, j, m)
  {
  }

  /** No order-preserving matching is longer, whatever the relation: the last pair can be exchanged. */
  lemma {:induction false} NoneLonger<T(!new)>(near: (T, T) -> bool, a: seq<T>, b: seq<T>, i: nat, j: nat, m: seq<(nat, nat)>)
    requires i <= |a| && j <= |b| && Ordered(near, a, b, i, j, m)
    ensures |m| <= LongestAt(near, a, b, i, j)
    decreases i + j
  {
    if m != [] {
      var (x, y) := m[|m| - 1];
      WithoutLast(near, a, b, i, j, m);
      if near(a[i - 1], b[j - 1]) {
        Wider(near, a, b, x, y, i - 1, j - 1, m[..|m| - 1]);
        NoneLonger(near, a, b, i - 1, j - 1, m[..|m| - 1]);
      } else if x < i - 1 {
        Wider(near, a, b, x + 1, y + 1, i - 1, j, m);
        NoneLonger(near, a, b, i - 1, j, m);
      } else {
        Wider(near, a, b, x + 1, y + 1, i, j - 1, m);
        NoneLonger(near, a, b, i, j - 1, m);
      }
    }
  }

  /** The table holds the size of a longest order-preserving matching. */
  lemma LongestOptimal<T(!new)>(near: (T, T) -> bool, a: seq<T>, b: seq<T>)
    ensures exists m :: Ordered(near, a, b, |a|, |b|, m) && |m| == Longest(near, a, b)
    ensures forall m :: Ordered(near, a, b, |a|, |b|, m) ==> |m| <= Longest(near, a, b)
  {
    var m := LongestExists(near, a, b, |a|, |b|);
    forall other | Ordered(near, a, b, |a|, |b|, other) ensures |other| <= Longest(near, a, b) {
      NoneLonger(near, a, b, |a|, |b|, other);
    }
  }

  lemma {:induction false} CellSymmetric<T(!new)>(near: (T, T) -> bool, a: seq<T>, b: seq<T>, i: nat, j: nat)
    requires i <= |a| && j <= |b| && forall x, y :: near(x, y) == near(y, x)
    ensures LongestAt(near, a, b, i, j) == LongestAt(near, b, a, j, i)
    decreases i + j
  {
    if i > 0 && j > 0 {
      if near(a[i - 1], b[j - 1]) {
        CellSymmetric(near, a, b, i - 1, j - 1);
      } else {
        CellSymmetric(near, a, b, i - 1, j);
        CellSymmetric(near, a, b, i, j - 1);
      }
    }
  }

  lemma {:induction false} CellOfSame<T(!new)>(near: (T, T) -> bool, a: seq<T>, i: nat)
    requires i <= |a| && forall x :: near(x, x)
    ensures LongestAt(near, a, a, i, i) == i
  {
    if i > 0 { CellOfSame(near, a, i - 1); }
  }

  // ---------------------------------------------------------------- between equal codes

  /** Pairs of positions with the same code, no position used twice; the empty code matches nothing. */
  ghost predicate Disjoint(a: seq<string>, b: seq<string>, m: seq<(nat, nat)>) {
    && (forall k :: 0 <= k < |m| ==> m[k].0 < |a| && m[k].1 < |b| && a[m[k].0] == b[m[k].1] != "")
    && (forall k, l :: 0 <= k < l < |m| ==> m[k].0 != m[l].0 && m[k].1 != m[l].1)
  }

  /** The codes that can match, with their multiplicities. */
  function Named(codes: seq<string>): (r: multiset<string>)
    ensures "" !in r
  {
    multiset(codes)["" := 0]
  }

  /** For every non-empty code, the smaller of its two multiplicities, summed. */
  function Common(a: seq<string>, b: seq<string>): nat { |Named(a) * Named(b)| }

  lemma Blanked(codes: seq<string>, i: nat)
    requires i < |codes| && codes[i] != ""
    ensures codes[i] in Named(codes)
    ensures Named(codes[i := ""]) == Named(codes) - multiset{codes[i]}
  {
    assert multiset(codes[i := ""]) == multiset(codes) - multiset{codes[i]} + multiset{""};
    assert codes[i] in multiset(codes);
  }

  lemma BothBlanked(a: seq<string>, b: seq<string>, i: nat, j: nat)
    requires i < |a| && j < |b| && a[i] == b[j] != ""
    ensures Common(a[i := ""], b[j := ""]) == Common(a, b) - 1
  {
    Blanked(a, i);
    Blanked(b, j);
    assert (Named(a) - multiset{a[i]}) * (Named(b) - multiset{a[i]}) == Named(a) * Named(b) - multiset{a[i]};
    assert a[i] in Named(a) * Named(b);
  }

  lemma {:induction false} NoneLarger(a: seq<string>, b: seq<string>, m: seq<(nat, nat)>)
    requires Disjoint(a, b, m)
    ensures |m| <= Common(a, b)
    decreases |m|
  {
    if m != [] {
      var (i, j) := m[|m| - 1];
      BothBlanked(a, b, i, j);
      NoneLarger(a[i := ""], b[j := ""], m[..|m| - 1]);
    }
  }

  lemma {:induction false} LargestExists(a: seq<string>, b: seq<string>) returns (m: seq<(nat, nat)>)
    ensures Disjoint(a, b, m) && |m| == Common(a, b)
    decreases Common(a, b)
  {
    if Common(a, b) == 0 {
      m := [];
    } else {
      var x :| x in Named(a) * Named(b);
      assert x in multiset(a) && x in multiset(b);
      var i: nat :| i < |a| && a[i] == x;
      var j: nat :| j < |b| && b[j] == x;
      BothBlanked(a, b, i, j);
      var rest := LargestExists(a[i := ""], b[j := ""]);
      m := rest + [(i, j)];
    }
  }

  /** The sum of the smaller multiplicities is the size of a largest matching. */
  lemma CommonOptimal(a: seq<string>, b: seq<string>)
    ensures exists m :: Disjoint(a, b, m) && |m| == Common(a, b)
    ensures forall m :: Disjoint(a, b, m) ==> |m| <= Common(a, b)
  {
    var m := LargestExists(a, b);
    forall other | Disjoint(a, b, other) ensures |other| <= Common(a, b) { NoneLarger(a, b, other); }
  }

  lemma CommonBounds(a: seq<string>, b: seq<string>)
    ensures Common(a, b) == Common(b, a)
    ensures Common(a, b) <= |a| && Common(a, b) <= |b|
  {
    assert Named(a) * Named(b) == Named(b) * Named(a);
    Fewer(Named(a) * Named(b), multiset(a));
    Fewer(Named(a) * Named(b), multiset(b));
  }

  lemma Fewer(s: multiset<string>, t: multiset<string>)
    requires s <= t
    ensures |s| <= |t|
  {
    assert t == s + (t - s);
  }

  /** A list matches itself completely exactly when no code is empty. */
  lemma CommonOfSame(a: seq<string>)
    ensures Common(a, a) == |a| <==> "" !in a
  {
    assert Named(a) * Named(a) == Named(a);
    assert multiset(a) == Named(a) + multiset{}["" := multiset(a)[""]];
    assert |Named(a)| == |a| - multiset(a)[""];
    assert "" in a <==> "" in multiset(a);
  }
}
