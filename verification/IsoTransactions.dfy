/** Visiting nodes in document order and numbering the transactions among them. */
module IsoTransactions {
  import opened Wrappers
  import opened IsoTree
  import opened IsoParsing

  /** walk: the node, then its children's subtrees in order. */
  function Preorder(nodes: seq<Node>, id: nat): seq<nat>
    requires Downward(nodes) && id < |nodes|
    decreases |nodes| - id, 1, 0
  {
    [id] + PreorderChildren(nodes, id, |nodes[id].children|)
  }

  function PreorderChildren(nodes: seq<Node>, id: nat, n: nat): seq<nat>
    requires Downward(nodes) && id < |nodes| && n <= |nodes[id].children|
    decreases |nodes| - id, 0, n
  {
    if n == 0 then []
    else
      assert DownwardAt(nodes, id);
      PreorderChildren(nodes, id, n - 1) + Preorder(nodes, nodes[id].children[n - 1])
  }

  /** The node is the given one or lies below it. */
  predicate Below(nodes: seq<Node>, x: nat, id: nat)
    requires WellFormed(nodes) && x < |nodes|
    decreases x
  {
    assert ParentFits(nodes, x);
    x == id || (nodes[x].parent.Some? && Below(nodes, nodes[x].parent.value, id))
  }

  lemma {:induction false} BelowIsLater(nodes: seq<Node>, x: nat, id: nat)
    requires WellFormed(nodes) && x < |nodes| && Below(nodes, x, id)
    ensures id <= x
    decreases x
  {
    assert ParentFits(nodes, x);
    if x != id { BelowIsLater(nodes, nodes[x].parent.value, id); }
  }

  /** Subtrees of two siblings share no node. */
  lemma {:induction false} SiblingsApart(nodes: seq<Node>, x: nat, c: nat, d: nat)
    requires WellFormed(nodes) && x < |nodes| && c < |nodes| && d < |nodes| && Below(nodes, x, c) && Below(nodes, x, d)
    requires nodes[c].parent.Some? && nodes[c].parent == nodes[d].parent
    ensures c == d
    decreases x
  {
    assert ParentFits(nodes, x) && ParentFits(nodes, c) && ParentFits(nodes, d);
    if x != c && x != d {
      SiblingsApart(nodes, nodes[x].parent.value, c, d);
    } else if c != d {
      var p := nodes[c].parent.value;
      if Below(nodes, p, c) { BelowIsLater(nodes, p, c); }
      if Below(nodes, p, d) { BelowIsLater(nodes, p, d); }
    }
  }

  lemma ChildFacts(nodes: seq<Node>, id: nat, k: nat)
    requires WellFormed(nodes) && id < |nodes| && k < |nodes[id].children|
    ensures Downward(nodes) && id < nodes[id].children[k] < |nodes| && nodes[nodes[id].children[k]].parent == Some(id)
    ensures forall j :: 0 <= j < k ==> nodes[id].children[j] < nodes[id].children[k]
  {
    FormIsDownward(nodes);
    assert ChildrenFit(nodes, id) && ChildAt(nodes, id, k);
  }

  lemma {:induction false} BelowUp(nodes: seq<Node>, x: nat, c: nat, id: nat)
    requires WellFormed(nodes) && x < |nodes| && c < |nodes| && Below(nodes, x, c) && Below(nodes, c, id)
    ensures Below(nodes, x, id)
    decreases x
  {
    assert ParentFits(nodes, x);
    if x != c { BelowUp(nodes, nodes[x].parent.value, c, id); }
  }

  lemma {:induction false} VisitedBelow(nodes: seq<Node>, id: nat)
    requires WellFormed(nodes) && Downward(nodes) && id < |nodes|
    ensures forall x :: x in Preorder(nodes, id) ==> x < |nodes| && Below(nodes, x, id)
    decreases |nodes| - id, 1, 0
  {
    var n := |nodes[id].children|;
    VisitedBelowChild(nodes, id, n);
    forall x | x in Preorder(nodes, id) ensures x < |nodes| && Below(nodes, x, id) {
      if x != id {
        assert x in PreorderChildren(nodes, id, n);
        var k: nat :| k < n && nodes[id].children[k] < |nodes| && x < |nodes| && Below(nodes, x, nodes[id].children[k]);
        ChildFacts(nodes, id, k);
        BelowUp(nodes, x, nodes[id].children[k], id);
      }
    }
  }

  lemma {:induction false} VisitedBelowChild(nodes: seq<Node>, id: nat, n: nat)
    requires WellFormed(nodes) && Downward(nodes) && id < |nodes| && n <= |nodes[id].children|
    ensures forall x :: x in PreorderChildren(nodes, id, n) ==>
      x < |nodes| && exists k: nat :: k < n && nodes[id].children[k] < |nodes| && Below(nodes, x, nodes[id].children[k])
    decreases |nodes| - id, 0, n
  {
    if n > 0 {
      ChildFacts(nodes, id, n - 1);
      VisitedBelowChild(nodes, id, n - 1);
      VisitedBelow(nodes, nodes[id].children[n - 1]);
    }
  }

  predicate NoRepeats(xs: seq<nat>) { forall i, j :: 0 <= i < j < |xs| ==> xs[i] != xs[j] }

  lemma AppendNoRepeats(xs: seq<nat>, ys: seq<nat>)
    requires NoRepeats(xs) && NoRepeats(ys) && forall x :: x in xs ==> x !in ys
    ensures NoRepeats(xs + ys)
  {
    var all := xs + ys;
    forall i, j | 0 <= i < j < |all| ensures all[i] != all[j] {
      if j < |xs| {
        assert all[i] == xs[i] && all[j] == xs[j];
      } else if i >= |xs| {
        assert all[i] == ys[i - |xs|] && all[j] == ys[j - |xs|];
      } else {
        assert all[i] in xs && all[j] == ys[j - |xs|] && ys[j - |xs|] in ys;
      }
    }
  }

  lemma {:induction false} VisitedOnce(nodes: seq<Node>, id: nat)
    requires WellFormed(nodes) && Downward(nodes) && id < |nodes|
    ensures NoRepeats(Preorder(nodes, id))
    decreases |nodes| - id, 1, 0
  {
    var n := |nodes[id].children|;
    ChildrenOnce(nodes, id, n);
    VisitedBelowChild(nodes, id, n);
    forall x | x in PreorderChildren(nodes, id, n) ensures x != id {
      var k: nat :| k < n && nodes[id].children[k] < |nodes| && Below(nodes, x, nodes[id].children[k]);
      ChildFacts(nodes, id, k);
      BelowIsLater(nodes, x, nodes[id].children[k]);
    }
    AppendNoRepeats([id], PreorderChildren(nodes, id, n));
  }

  lemma {:induction false} ChildrenOnce(nodes: seq<Node>, id: nat, n: nat)
    requires WellFormed(nodes) && Downward(nodes) && id < |nodes| && n <= |nodes[id].children|
    ensures NoRepeats(PreorderChildren(nodes, id, n))
    decreases |nodes| - id, 0, n
  {
    if n > 0 {
      var c := nodes[id].children[n - 1];
      ChildFacts(nodes, id, n - 1);
      ChildrenOnce(nodes, id, n - 1);
      VisitedOnce(nodes, c);
      VisitedBelow(nodes, c);
      VisitedBelowChild(nodes, id, n - 1);
      forall x | x in PreorderChildren(nodes, id, n - 1) ensures x !in Preorder(nodes, c) {
        var k: nat :| k < n - 1 && nodes[id].children[k] < |nodes| && Below(nodes, x, nodes[id].children[k]);
        ChildFacts(nodes, id, k);
        if Below(nodes, x, c) { SiblingsApart(nodes, x, nodes[id].children[k], c); }
      }
      AppendNoRepeats(PreorderChildren(nodes, id, n - 1), Preorder(nodes, c));
    }
  }

  lemma {:induction false} VisitsChild(nodes: seq<Node>, id: nat, n: nat, k: nat)
    requires WellFormed(nodes) && Downward(nodes) && id < |nodes| && k < n <= |nodes[id].children|
    ensures nodes[id].children[k] in PreorderChildren(nodes, id, n)
  {
    ChildFacts(nodes, id, k);
    if k < n - 1 {
      VisitsChild(nodes, id, n - 1, k);
    } else {
      assert nodes[id].children[k] in Preorder(nodes, nodes[id].children[k]);
    }
  }

  /** Where a node is visited, its children are. */
  lemma {:induction false} VisitsChildren(nodes: seq<Node>, id: nat, p: nat, c: nat)
    requires WellFormed(nodes) && Downward(nodes) && id < |nodes| && p in Preorder(nodes, id) && p < |nodes| && c in nodes[p].children
    ensures c in Preorder(nodes, id)
    decreases |nodes| - id, 1, 0
  {
    var n := |nodes[id].children|;
    if p == id {
      var k: nat :| k < |nodes[p].children| && nodes[p].children[k] == c;
      VisitsChild(nodes, id, n, k);
    } else {
      VisitsGrandchildren(nodes, id, n, p, c);
    }
  }

  lemma {:induction false} VisitsGrandchildren(nodes: seq<Node>, id: nat, n: nat, p: nat, c: nat)
    requires WellFormed(nodes) && Downward(nodes) && id < |nodes| && n <= |nodes[id].children|
    requires p in PreorderChildren(nodes, id, n) && p < |nodes| && c in nodes[p].children
    ensures c in PreorderChildren(nodes, id, n)
    decreases |nodes| - id, 0, n
  {
    if n > 0 {
      ChildFacts(nodes, id, n - 1);
      if p in PreorderChildren(nodes, id, n - 1) {
        VisitsGrandchildren(nodes, id, n - 1, p, c);
      } else {
        VisitsChildren(nodes, nodes[id].children[n - 1], p, c);
      }
    }
  }

  /** The walk from a node visits exactly the nodes at or below it, each once. */
  lemma {:induction false} WalkVisits(nodes: seq<Node>, id: nat, x: nat)
    requires WellFormed(nodes) && Downward(nodes) && id < |nodes| && x < |nodes|
    ensures NoRepeats(Preorder(nodes, id))
    ensures x in Preorder(nodes, id) <==> Below(nodes, x, id)
    decreases x
  {
    VisitedOnce(nodes, id);
    VisitedBelow(nodes, id);
    assert ParentFits(nodes, x);
    if Below(nodes, x, id) && x != id {
      WalkVisits(nodes, id, nodes[x].parent.value);
      VisitsChildren(nodes, id, nodes[x].parent.value, x);
    }
  }

  // ---------------------------------------------------------------- transaction numbers

  /** How many of the visited nodes are containers. */
  function Containers(nodes: seq<Node>, order: seq<nat>, names: set<string>): nat
    requires forall k :: 0 <= k < |order| ==> order[k] < |nodes|
  {
    if order == [] then 0
    else Containers(nodes, order[..|order| - 1], names) + (if nodes[order[|order| - 1]].name.local in names then 1 else 0)
  }

  /** Node x, visited at position i, is numbered by the containers visited up to it. */
  predicate NumberedAt(nodes: seq<Node>, order: seq<nat>, names: set<string>, out: map<nat, nat>, i: nat)
    requires i < |order| && forall k :: 0 <= k < |order| ==> order[k] < |nodes|
  {
    if nodes[order[i]].name.local in names then order[i] in out && out[order[i]] == Containers(nodes, order[..i + 1], names)
    else order[i] !in out
  }

  /** The numbers given so far: to the visited containers, in the order of the visit, and to nothing else. */
  ghost predicate Numbered(nodes: seq<Node>, order: seq<nat>, names: set<string>, out: map<nat, nat>, count: nat) {
    && (forall k :: 0 <= k < |order| ==> order[k] < |nodes|)
    && (forall i :: 0 <= i < |order| ==> NumberedAt(nodes, order, names, out, i))
    && (forall x :: x in out ==> x in order)
    && count == Containers(nodes, order, names)
  }

  lemma NumberedNext(nodes: seq<Node>, order: seq<nat>, names: set<string>, out: map<nat, nat>, count: nat, x: nat)
    requires Numbered(nodes, order, names, out, count) && x < |nodes| && x !in order
    ensures nodes[x].name.local in names ==> Numbered(nodes, order + [x], names, out[x := count + 1], count + 1)
    ensures nodes[x].name.local !in names ==> Numbered(nodes, order + [x], names, out, count)
  {
    var longer := order + [x];
    assert longer[..|order|] == order && longer[..|longer|] == longer;
    var next := if nodes[x].name.local in names then out[x := count + 1] else out;
    forall i | 0 <= i < |longer| ensures NumberedAt(nodes, longer, names, next, i) {
      if i < |order| {
        assert longer[..i + 1] == order[..i + 1] && longer[i] == order[i];
        assert NumberedAt(nodes, order, names, out, i);
      }
    }
  }

  /** The function walk applies to each node. */
  method NumberNode(nodes: seq<Node>, names: set<string>, id: nat, ghost before: seq<nat>, out: map<nat, nat>, count: nat)
    returns (numbers: map<nat, nat>, n: nat)
    requires id < |nodes| && id !in before && Numbered(nodes, before, names, out, count)
    ensures Numbered(nodes, before + [id], names, numbers, n)
  {
    numbers, n := out, count;
    NumberedNext(nodes, before, names, numbers, n, id);
    if nodes[id].name.local in names {
      n := n + 1;
      numbers := numbers[id := n];
    }
  }

  /** One step of the walk: number the node if it is a container, then walk its children's subtrees in order. */
  method Walk(nodes: seq<Node>, names: set<string>, id: nat, ghost before: seq<nat>, out: map<nat, nat>, count: nat)
    returns (numbers: map<nat, nat>, n: nat)
    requires WellFormed(nodes) && Downward(nodes) && id < |nodes|
    requires Numbered(nodes, before, names, out, count) && NoRepeats(before + Preorder(nodes, id))
    ensures Numbered(nodes, before + Preorder(nodes, id), names, numbers, n)
    decreases |nodes| - id, 1
  {
    FreshAt(before, Preorder(nodes, id), 0);
    numbers, n := NumberNode(nodes, names, id, before, out, count);
    VisitedNone(nodes, before, id);
    numbers, n := WalkChildren(nodes, names, id, before, numbers, n);
    VisitedAll(nodes, before, id);
  }

  /** The loop of walk over the children. */
  method WalkChildren(nodes: seq<Node>, names: set<string>, id: nat, ghost before: seq<nat>, out: map<nat, nat>, count: nat)
    returns (numbers: map<nat, nat>, n: nat)
    requires WellFormed(nodes) && Downward(nodes) && id < |nodes|
    requires Numbered(nodes, Visited(nodes, before, id, 0), names, out, count) && NoRepeats(before + Preorder(nodes, id))
    ensures Numbered(nodes, Visited(nodes, before, id, |nodes[id].children|), names, numbers, n)
    decreases |nodes| - id, 0
  {
    numbers, n := out, count;
    for k := 0 to |nodes[id].children|
      invariant Numbered(nodes, Visited(nodes, before, id, k), names, numbers, n)
    {
      ChildFacts(nodes, id, k);
      PrefixOnce(nodes, before, id, k + 1);
      VisitedNext(nodes, before, id, k);
      numbers, n := Walk(nodes, names, nodes[id].children[k], Visited(nodes, before, id, k), numbers, n);
    }
  }

  /** What the walk from a node has visited after k of its children, counting what came before it. */
  ghost function Visited(nodes: seq<Node>, before: seq<nat>, id: nat, k: nat): seq<nat>
    requires Downward(nodes) && id < |nodes| && k <= |nodes[id].children|
  {
    before + [id] + PreorderChildren(nodes, id, k)
  }

  lemma VisitedNone(nodes: seq<Node>, before: seq<nat>, id: nat)
    requires Downward(nodes) && id < |nodes|
    ensures Visited(nodes, before, id, 0) == before + [id]
  {
  }

  lemma VisitedNext(nodes: seq<Node>, before: seq<nat>, id: nat, k: nat)
    requires Downward(nodes) && id < |nodes| && k < |nodes[id].children| && nodes[id].children[k] < |nodes|
    ensures Visited(nodes, before, id, k + 1) == Visited(nodes, before, id, k) + Preorder(nodes, nodes[id].children[k])
  {
    var seen, last := PreorderChildren(nodes, id, k), Preorder(nodes, nodes[id].children[k]);
    assert PreorderChildren(nodes, id, k + 1) == seen + last;
    assert before + [id] + (seen + last) == before + [id] + seen + last;
  }

  lemma VisitedAll(nodes: seq<Node>, before: seq<nat>, id: nat)
    requires Downward(nodes) && id < |nodes|
    ensures Visited(nodes, before, id, |nodes[id].children|) == before + Preorder(nodes, id)
  {
    var below := PreorderChildren(nodes, id, |nodes[id].children|);
    assert before + [id] + below == before + ([id] + below);
  }

  lemma FreshAt(xs: seq<nat>, ys: seq<nat>, i: nat)
    requires NoRepeats(xs + ys) && i < |ys|
    ensures ys[i] !in xs
  {
    forall j | 0 <= j < |xs| ensures xs[j] != ys[i] {
      assert (xs + ys)[j] == xs[j] && (xs + ys)[|xs| + i] == ys[i];
    }
  }

  /** What the walk has visited after k children is the start of the whole visit, so it has no repeats either. */
  lemma PrefixOnce(nodes: seq<Node>, before: seq<nat>, id: nat, k: nat)
    requires Downward(nodes) && id < |nodes| && k <= |nodes[id].children| && NoRepeats(before + Preorder(nodes, id))
    ensures NoRepeats(Visited(nodes, before, id, k))
  {
    ChildrenPrefix(nodes, id, k, |nodes[id].children|);
    assert Visited(nodes, before, id, k) <= before + Preorder(nodes, id);
  }

  lemma {:induction false} ChildrenPrefix(nodes: seq<Node>, id: nat, k: nat, n: nat)
    requires Downward(nodes) && id < |nodes| && k <= n <= |nodes[id].children|
    ensures PreorderChildren(nodes, id, k) <= PreorderChildren(nodes, id, n)
    decreases n
  {
    if k < n { ChildrenPrefix(nodes, id, k, n - 1); }
  }

  method TransactionIndexes(nodes: seq<Node>, root: nat, containers: seq<string>) returns (numbers: map<nat, nat>, count: nat)
    requires WellFormed(nodes) && root < |nodes|
    ensures Downward(nodes) && Numbered(nodes, Preorder(nodes, root), (set c | c in containers), numbers, count)
  {
    var names := set c | c in containers;
    FormIsDownward(nodes);
    VisitedOnce(nodes, root);
    assert [] + Preorder(nodes, root) == Preorder(nodes, root);
    numbers, count := Walk(nodes, names, root, [], map[], 0);
  }

  lemma {:induction false} CountReaches(nodes: seq<Node>, order: seq<nat>, names: set<string>, v: nat) returns (i: nat)
    requires (forall k :: 0 <= k < |order| ==> order[k] < |nodes|) && 1 <= v <= Containers(nodes, order, names)
    ensures i < |order| && nodes[order[i]].name.local in names && Containers(nodes, order[..i + 1], names) == v
  {
    var front := order[..|order| - 1];
    if v <= Containers(nodes, front, names) {
      i := CountReaches(nodes, front, names, v);
      assert front[..i + 1] == order[..i + 1];
    } else {
      i := |order| - 1;
      assert order[..i + 1] == order;
    }
  }

  lemma {:induction false} CountRises(nodes: seq<Node>, order: seq<nat>, names: set<string>, i: nat, j: nat)
    requires (forall k :: 0 <= k < |order| ==> order[k] < |nodes|) && i <= j <= |order|
    ensures Containers(nodes, order[..i], names) <= Containers(nodes, order[..j], names) <= Containers(nodes, order, names)
    ensures i < j && nodes[order[j - 1]].name.local in names ==> Containers(nodes, order[..i], names) < Containers(nodes, order[..j], names)
    decreases |order|
  {
    if i == j == |order| {
      assert order[..j] == order;
    } else {
      var front, m := order[..|order| - 1], if j == |order| then j - 1 else j;
      assert front[..i] == order[..i] && front[..m] == order[..m];
      assert order[..|order|] == order;
      CountRises(nodes, front, names, i, m);
    }
  }

  predicate Given(numbers: map<nat, nat>, v: nat) { exists x :: x in numbers && numbers[x] == v }

  lemma NumbersCover(nodes: seq<Node>, order: seq<nat>, names: set<string>, numbers: map<nat, nat>, count: nat, x: nat)
    requires Numbered(nodes, order, names, numbers, count)
    ensures x in numbers <==> x in order && nodes[x].name.local in names
    ensures x in numbers ==> 1 <= numbers[x] <= count
  {
    if x in order {
      var i :| 0 <= i < |order| && order[i] == x;
      assert NumberedAt(nodes, order, names, numbers, i);
      CountRises(nodes, order, names, i, i + 1);
    }
  }

  lemma NumbersReach(nodes: seq<Node>, order: seq<nat>, names: set<string>, numbers: map<nat, nat>, count: nat, v: nat)
    requires Numbered(nodes, order, names, numbers, count) && 1 <= v <= count
    ensures Given(numbers, v)
  {
    var i := CountReaches(nodes, order, names, v);
    assert NumberedAt(nodes, order, names, numbers, i);
    assert order[i] in numbers && numbers[order[i]] == v;
  }

  lemma NumbersRise(nodes: seq<Node>, order: seq<nat>, names: set<string>, numbers: map<nat, nat>, count: nat, i: nat, j: nat)
    requires Numbered(nodes, order, names, numbers, count) && i < j < |order| && order[i] in numbers && order[j] in numbers
    ensures numbers[order[i]] < numbers[order[j]]
  {
    assert NumberedAt(nodes, order, names, numbers, i) && NumberedAt(nodes, order, names, numbers, j);
    CountRises(nodes, order, names, i + 1, j + 1);
  }

  /** The numbers are a bijection between the containers and 1 to the count, rising in document order. */
  lemma NumbersBijective(nodes: seq<Node>, order: seq<nat>, names: set<string>, numbers: map<nat, nat>, count: nat)
    requires Numbered(nodes, order, names, numbers, count)
    ensures forall x: nat :: x in numbers <==> x in order && nodes[x].name.local in names
    ensures forall x: nat :: x in numbers ==> 1 <= numbers[x] <= count
    ensures forall v: nat :: 1 <= v <= count ==> Given(numbers, v)
    ensures forall i, j :: 0 <= i < j < |order| && order[i] in numbers && order[j] in numbers ==> numbers[order[i]] < numbers[order[j]]
  {
    forall x: nat ensures (x in numbers <==> x in order && nodes[x].name.local in names) && (x in numbers ==> 1 <= numbers[x] <= count) {
      NumbersCover(nodes, order, names, numbers, count, x);
    }
    forall v: nat | 1 <= v <= count ensures Given(numbers, v) { NumbersReach(nodes, order, names, numbers, count, v); }
    forall i, j | 0 <= i < j < |order| && order[i] in numbers && order[j] in numbers ensures numbers[order[i]] < numbers[order[j]] {
      NumbersRise(nodes, order, names, numbers, count, i, j);
    }
  }

  /** nearestTransaction: the number of the closest numbered node at or above, 0 if there is none. */
  function Nearest(nodes: seq<Node>, id: nat, numbers: map<nat, nat>): nat
    requires WellFormed(nodes) && id < |nodes|
    decreases id
  {
    assert ParentFits(nodes, id);
    if id in numbers then numbers[id]
    else if nodes[id].parent.Some? then Nearest(nodes, nodes[id].parent.value, numbers)
    else 0
  }

  method NearestTransaction(nodes: seq<Node>, id: nat, numbers: map<nat, nat>) returns (n: nat)
    requires WellFormed(nodes) && id < |nodes|
    ensures n == Nearest(nodes, id, numbers)
  {
    var p: nat := id;
    while true
      invariant p < |nodes| && Nearest(nodes, p, numbers) == Nearest(nodes, id, numbers)
      decreases p
    {
      if p in numbers { return numbers[p]; }
      assert ParentFits(nodes, p);
      if nodes[p].parent.None? { return 0; }
      p := nodes[p].parent.value;
    }
  }

  /** Node a is numbered, at or above the node, and below every other such node; its number is the nearest one. */
  ghost predicate IsNearest(nodes: seq<Node>, id: nat, numbers: map<nat, nat>, a: nat)
    requires WellFormed(nodes) && id < |nodes|
  {
    && a in numbers && a < |nodes| && Below(nodes, id, a) && numbers[a] == Nearest(nodes, id, numbers)
    && forall b :: b in numbers && b < |nodes| && Below(nodes, id, b) ==> Below(nodes, a, b)
  }

  /** The nearest number is that of some numbered node at or above with no numbered node in between, and 0 only
      when there is none; numbers are positive. */
  lemma {:induction false} NearestIs(nodes: seq<Node>, id: nat, numbers: map<nat, nat>)
    requires WellFormed(nodes) && id < |nodes| && forall x :: x in numbers ==> numbers[x] > 0
    ensures Nearest(nodes, id, numbers) == 0 <==> forall a :: a in numbers && a < |nodes| ==> !Below(nodes, id, a)
    ensures Nearest(nodes, id, numbers) > 0 ==> exists a :: IsNearest(nodes, id, numbers, a)
    decreases id
  {
    assert ParentFits(nodes, id);
    if id in numbers {
      assert Below(nodes, id, id);
      assert IsNearest(nodes, id, numbers, id);
    } else if nodes[id].parent.Some? {
      var p := nodes[id].parent.value;
      NearestIs(nodes, p, numbers);
      assert forall a :: a in numbers && a < |nodes| ==> Below(nodes, id, a) == Below(nodes, p, a);
      if Nearest(nodes, p, numbers) > 0 {
        var a :| IsNearest(nodes, p, numbers, a);
        assert IsNearest(nodes, id, numbers, a);
      }
    }
  }
}
