/** Levenshtein distance: the rolling-row loop, the shortest edit script it measures, and its laws as a metric. */
module EditDistance {
  import opened Wrappers

  function Min3(a: nat, b: nat, c: nat): nat {
    if a < b then (if a < c then a else c) else (if b < c then b else c)
  }

  function Max(a: nat, b: nat): nat { if a < b then b else a }

  function Cost<T(==)>(x: T, y: T): nat { if x != y then 1 else 0 }

  /** The cell of the table for the first i elements of a and the first j of b. */
  function Cell<T(==)>(a: seq<T>, b: seq<T>, i: nat, j: nat): nat
    requires i <= |a| && j <= |b|
    decreases i + j
  {
    if i == 0 then j
    else if j == 0 then i
    else Min3(Cell(a, b, i, j - 1) + 1, Cell(a, b, i - 1, j) + 1, Cell(a, b, i - 1, j - 1) + Cost(a[i - 1], b[j - 1]))
  }

  /** The distance between two prefixes; a name for the cell that keeps proofs from unfolding its neighbours. */
  function Distance<T(==)>(a: seq<T>, b: seq<T>, i: nat, j: nat): nat
    requires i <= |a| && j <= |b|
  {
    Cell(a, b, i, j)
  }

  function Lev<T(==)>(a: seq<T>, b: seq<T>): nat { Distance(a, b, |a|, |b|) }

  /** The two-row table of levenshtein. */
  method Levenshtein<T(==)>(left: seq<T>, right: seq<T>) returns (d: nat)
    ensures d == Lev(left, right)
  {
    var prev := new nat[|right| + 1](j => j);
    for i := 0 to |left|
      invariant prev.Length == |right| + 1
      invariant forall j :: 0 <= j <= |right| ==> prev[j] == Distance(left, right, i, j)
    {
      var cur := new nat[|right| + 1](j => 0);
      cur[0] := i + 1;
      for j := 0 to |right|
        invariant forall k :: 0 <= k <= j ==> cur[k] == Distance(left, right, i + 1, k)
        invariant forall k :: 0 <= k <= |right| ==> prev[k] == Distance(left, right, i, k)
      {
        cur[j + 1] := Min3(cur[j] + 1, prev[j + 1] + 1, prev[j] + Cost(left[i], right[j]));
      }
      prev := cur;
    }
    d := prev[|right|];
  }

  // ---------------------------------------------------------------- a metric

  lemma {:induction false} DistanceBounds<T>(a: seq<T>, b: seq<T>, i: nat, j: nat)
    requires i <= |a| && j <= |b|
    ensures i <= j + Distance(a, b, i, j) && j <= i + Distance(a, b, i, j)
    ensures Distance(a, b, i, j) <= Max(i, j)
    decreases i + j
  {
    if i > 0 && j > 0 {
      DistanceBounds(a, b, i, j - 1);
      DistanceBounds(a, b, i - 1, j);
      DistanceBounds(a, b, i - 1, j - 1);
    }
  }

  lemma {:induction false} DistanceSymmetric<T>(a: seq<T>, b: seq<T>, i: nat, j: nat)
    requires i <= |a| && j <= |b|
    ensures Distance(a, b, i, j) == Distance(b, a, j, i)
    decreases i + j
  {
    if i > 0 && j > 0 {
      DistanceSymmetric(a, b, i, j - 1);
      DistanceSymmetric(a, b, i - 1, j);
      DistanceSymmetric(a, b, i - 1, j - 1);
    }
  }

  lemma {:induction false} DistanceZero<T>(a: seq<T>, b: seq<T>, i: nat, j: nat)
    requires i <= |a| && j <= |b|
    ensures Distance(a, b, i, j) == 0 <==> a[..i] == b[..j]
    decreases i + j
  {
    if i > 0 && j > 0 {
      DistanceZero(a, b, i - 1, j - 1);
      assert a[..i] == a[..i - 1] + [a[i - 1]] && b[..j] == b[..j - 1] + [b[j - 1]];
    } else {
      assert |a[..i]| == i && |b[..j]| == j;
    }
  }

  lemma {:induction false} DistanceTriangle<T>(a: seq<T>, b: seq<T>, c: seq<T>, i: nat, j: nat, k: nat)
    requires i <= |a| && j <= |b| && k <= |c|
    ensures Distance(a, c, i, k) <= Distance(a, b, i, j) + Distance(b, c, j, k)
    decreases i + j + k
  {
    if i == 0 || j == 0 || k == 0 {
      DistanceBounds(a, b, i, j);
      DistanceBounds(b, c, j, k);
      DistanceBounds(a, c, i, k);
    } else if Distance(a, b, i, j) == Distance(a, b, i - 1, j) + 1 {
      DistanceTriangle(a, b, c, i - 1, j, k);
    } else if Distance(b, c, j, k) == Distance(b, c, j, k - 1) + 1 {
      DistanceTriangle(a, b, c, i, j, k - 1);
    } else if Distance(a, b, i, j) == Distance(a, b, i, j - 1) + 1 {
      DistanceTriangle(a, b, c, i, j - 1, k);
      DistanceTriangle(a, b, c, i, j - 1, k - 1);
    } else {
      DistanceTriangle(a, b, c, i - 1, j - 1, k);
      DistanceTriangle(a, b, c, i - 1, j - 1, k - 1);
    }
  }

  /** A metric: zero on equal input only, symmetric, triangular, and between the length difference and the longer length. */
  lemma LevMetric<T>(a: seq<T>, b: seq<T>, c: seq<T>)
    ensures Lev(a, b) == 0 <==> a == b
    ensures Lev(a, b) == Lev(b, a)
    ensures Lev(a, c) <= Lev(a, b) + Lev(b, c)
    ensures |a| - |b| <= Lev(a, b) && |b| - |a| <= Lev(a, b) <= Max(|a|, |b|)
  {
    DistanceZero(a, b, |a|, |b|);
    assert a[..|a|] == a && b[..|b|] == b;
    DistanceSymmetric(a, b, |a|, |b|);
    DistanceTriangle(a, b, c, |a|, |b|, |c|);
    DistanceBounds(a, b, |a|, |b|);
  }

  // ---------------------------------------------------------------- edit scripts

  datatype Edit<T> = Insert(at: nat, item: T) | Delete(at: nat) | Substitute(at: nat, item: T)

  /** The sequence after one edit, if its position exists. */
  function Perform<T>(s: seq<T>, e: Edit<T>): Option<seq<T>> {
    match e
    case Insert(at, x) => if at <= |s| then Some(s[..at] + [x] + s[at..]) else None
    case Delete(at) => if at < |s| then Some(s[..at] + s[at + 1..]) else None
    case Substitute(at, x) => if at < |s| then Some(s[..at] + [x] + s[at + 1..]) else None
  }

  function PerformAll<T>(s: seq<T>, script: seq<Edit<T>>): Option<seq<T>>
    decreases |script|
  {
    if script == [] then Some(s)
    else
      match Perform(s, script[0])
      case None => None
      case Some(t) => PerformAll(t, script[1..])
  }

  lemma {:induction false} Appended<T>(s: seq<T>, script: seq<Edit<T>>, more: seq<Edit<T>>)
    requires PerformAll(s, script).Some?
    ensures PerformAll(s, script + more) == PerformAll(PerformAll(s, script).value, more)
    decreases |script|
  {
    if script == [] {
      assert script + more == more;
    } else {
      Appended(Perform(s, script[0]).value, script[1..], more);
      assert (script + more)[1..] == script[1..] + more;
    }
  }

  lemma OneSuffixed<T>(s: seq<T>, e: Edit<T>, rest: seq<T>)
    requires Perform(s, e).Some?
    ensures Perform(s + rest, e) == Some(Perform(s, e).value + rest)
  {
    assert Perform(s + rest, e).value == Perform(s, e).value + rest;
  }

  /** A script leaves alone whatever follows the part it edits. */
  lemma {:induction false} Suffixed<T>(s: seq<T>, script: seq<Edit<T>>, rest: seq<T>)
    requires PerformAll(s, script).Some?
    ensures PerformAll(s + rest, script) == Some(PerformAll(s, script).value + rest)
    decreases |script|
  {
    if script != [] {
      OneSuffixed(s, script[0], rest);
      Suffixed(Perform(s, script[0]).value, script[1..], rest);
    }
  }

  /** A script of exactly the distance's length exists. */
  lemma {:induction false} ScriptExists<T>(a: seq<T>, b: seq<T>, i: nat, j: nat) returns (script: seq<Edit<T>>)
    requires i <= |a| && j <= |b|
    ensures PerformAll(a[..i], script) == Some(b[..j]) && |script| == Distance(a, b, i, j)
    decreases i + j
  {
    if i == 0 && j == 0 {
      script := [];
    } else if j > 0 && Distance(a, b, i, j) == Distance(a, b, i, j - 1) + 1 {
      var front := ScriptExists(a, b, i, j - 1);
      var e := Insert(j - 1, b[j - 1]);
      script := front + [e];
      Appended(a[..i], front, [e]);
      assert Perform(b[..j - 1], e).value == b[..j];
    } else if i > 0 && Distance(a, b, i, j) == Distance(a, b, i - 1, j) + 1 {
      var rest := ScriptExists(a, b, i - 1, j);
      script := [Delete(i - 1)] + rest;
      assert Perform(a[..i], script[0]).value == a[..i - 1];
    } else {
      var rest := ScriptExists(a, b, i - 1, j - 1);
      script := if a[i - 1] == b[j - 1] then rest else [Substitute(i - 1, b[j - 1])] + rest;
      assert a[..i][..i - 1] == a[..i - 1] && b[..j][..j - 1] == b[..j - 1];
      Substituted(a[..i], b[..j], rest, script);
    }
  }

  /** The last elements differ or agree: edit them if need be, then the rest in front of them. */
  lemma Substituted<T>(s: seq<T>, t: seq<T>, rest: seq<Edit<T>>, script: seq<Edit<T>>)
    requires s != [] && t != [] && PerformAll(s[..|s| - 1], rest) == Some(t[..|t| - 1])
    requires script == if s[|s| - 1] == t[|t| - 1] then rest else [Substitute(|s| - 1, t[|t| - 1])] + rest
    ensures PerformAll(s, script) == Some(t)
  {
    var front, x := s[..|s| - 1], t[|t| - 1];
    Suffixed(front, rest, [x]);
    assert t[..|t| - 1] + [x] == t;
    if s[|s| - 1] == x {
      assert front + [x] == s;
    } else {
      assert Perform(s, script[0]).value == front + [x];
      assert script[1..] == rest;
    }
  }

  /** Elements beyond the prefixes do not matter. */
  lemma {:induction false} DistanceLocal<T>(a: seq<T>, b: seq<T>, r: seq<T>, i: nat, j: nat)
    requires i <= |a| && j <= |b|
    ensures Distance(a + r, b + r, i, j) == Distance(a, b, i, j)
    decreases i + j
  {
    if i > 0 && j > 0 {
      DistanceLocal(a, b, r, i, j - 1);
      DistanceLocal(a, b, r, i - 1, j);
      DistanceLocal(a, b, r, i - 1, j - 1);
    }
  }

  lemma {:induction false} CommonSuffix<T>(a: seq<T>, b: seq<T>, r: seq<T>, n: nat)
    requires n <= |r|
    ensures Distance(a + r, b + r, |a| + n, |b| + n) <= Lev(a, b)
  {
    if n == 0 {
      DistanceLocal(a, b, r, |a|, |b|);
    } else {
      CommonSuffix(a, b, r, n - 1);
      assert (a + r)[|a| + n - 1] == r[n - 1] == (b + r)[|b| + n - 1];
    }
  }

  lemma SharedEnds<T>(p: seq<T>, s: seq<T>, t: seq<T>, r: seq<T>)
    requires |s| <= 1 && |t| <= 1
    ensures Lev(p + s + r, p + t + r) <= 1
  {
    var a, b, n := p + s, p + t, |p|;
    DistanceZero(a, b, n, n);
    assert a[..n] == b[..n];
    assert Distance(a, b, n, n) == 0;
    assert Lev(a, b) <= 1;
    CommonSuffix(a, b, r, |r|);
  }

  /** One edit moves a sequence by at most one. */
  lemma OneEdit<T>(s: seq<T>, e: Edit<T>)
    requires Perform(s, e).Some?
    ensures Lev(s, Perform(s, e).value) <= 1
  {
    var p := s[..e.at];
    match e {
      case Insert(at, x) =>
        assert s == p + [] + s[at..];
        SharedEnds(p, [], [x], s[at..]);
      case Delete(at) =>
        assert s == p + [s[at]] + s[at + 1..] && Perform(s, e).value == p + [] + s[at + 1..];
        SharedEnds(p, [s[at]], [], s[at + 1..]);
      case Substitute(at, x) =>
        assert s == p + [s[at]] + s[at + 1..];
        SharedEnds(p, [s[at]], [x], s[at + 1..]);
    }
  }

  /** No script is shorter than the distance. */
  lemma {:induction false} NoShorterScript<T>(a: seq<T>, script: seq<Edit<T>>)
    requires PerformAll(a, script).Some?
    ensures Lev(a, PerformAll(a, script).value) <= |script|
    decreases |script|
  {
    if script == [] {
      LevMetric(a, a, a);
    } else {
      var t := Perform(a, script[0]).value;
      OneEdit(a, script[0]);
      NoShorterScript(t, script[1..]);
      LevMetric(a, t, PerformAll(a, script).value);
    }
  }

  ghost predicate Turns<T(!new)>(a: seq<T>, b: seq<T>, n: nat) {
    exists script: seq<Edit<T>> :: PerformAll(a, script) == Some(b) && |script| == n
  }

  /** The distance is the least number of edits that turn one sequence into the other. */
  lemma LevOptimal<T(!new)>(a: seq<T>, b: seq<T>)
    ensures Turns(a, b, Lev(a, b))
    ensures forall n: nat :: Turns(a, b, n) ==> Lev(a, b) <= n
  {
    var script := ScriptExists(a, b, |a|, |b|);
    assert a[..|a|] == a && b[..|b|] == b;
    assert PerformAll(a, script) == Some(b);
    forall n: nat | Turns(a, b, n) ensures Lev(a, b) <= n {
      var other: seq<Edit<T>> :| PerformAll(a, other) == Some(b) && |other| == n;
      NoShorterScript(a, other);
    }
  }
}
