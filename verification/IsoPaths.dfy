/** Paths, and why a path names one node. */
module IsoPaths {
  import opened Text
  import opened IsoTree
  import opened IsoParsing

  predicate HasTwin(nodes: seq<Node>, id: nat)
    requires WellFormed(nodes) && id < |nodes|
  {
    assert ParentFits(nodes, id);
    nodes[id].parent.Some? &&
      var p := nodes[id].parent.value;
      assert ChildrenFit(nodes, p);
      SameLocal(nodes, nodes[p].children, nodes[id].name.local) > 1
  }

  /** A node's step in a path: its local name, numbered when the name alone would not tell it from a sibling. */
  function Segment(nodes: seq<Node>, id: nat): string
    requires WellFormed(nodes) && id < |nodes|
  {
    nodes[id].name.local + (if nodes[id].index > 1 || HasTwin(nodes, id) then "[" + NumberText(nodes[id].index) + "]" else "")
  }

  /** The steps from the root down to the node. */
  function Segments(nodes: seq<Node>, id: nat): (r: seq<string>)
    requires WellFormed(nodes) && id < |nodes|
    ensures r != []
    decreases id
  {
    assert ParentFits(nodes, id);
    (if nodes[id].parent.Some? then Segments(nodes, nodes[id].parent.value) else []) + [Segment(nodes, id)]
  }

  function Path(nodes: seq<Node>, id: nat): string
    requires WellFormed(nodes) && id < |nodes|
  {
    "/" + Join(Segments(nodes, id), "/")
  }

  /** nodePath: climb to the root collecting steps, turn them round in place, and join them. */
  method NodePath(nodes: seq<Node>, id: nat) returns (path: string)
    requires WellFormed(nodes) && id < |nodes|
    ensures path == Path(nodes, id)
  {
    var parts := [Segment(nodes, id)];
    var p: nat := id;
    ghost var all := Segments(nodes, id);
    while nodes[p].parent.Some?
      invariant p < |nodes|
      invariant |parts| + |Segments(nodes, p)| == |all| + 1
      invariant forall k :: 0 <= k < |parts| ==> parts[k] == all[|all| - 1 - k]
      invariant Segments(nodes, p) <= all
      decreases p
    {
      assert ParentFits(nodes, p);
      p := nodes[p].parent.value;
      ghost var up := Segments(nodes, p);
      assert up[|up| - 1] == Segment(nodes, p);
      parts := parts + [Segment(nodes, p)];
    }
    parts := TurnRound(parts);
    assert parts == all;
    return "/" + Join(parts, "/");
  }

  method TurnRound<T>(items: seq<T>) returns (r: seq<T>)
    ensures |r| == |items| && forall k :: 0 <= k < |items| ==> r[k] == items[|items| - 1 - k]
  {
    r := items;
    var i, j := 0, |items| - 1;
    while i < j
      invariant 0 <= i && i + j == |items| - 1 && j + 1 >= i && |r| == |items|
      invariant forall k :: 0 <= k < |items| ==> r[k] == items[if k < i || j < k then |items| - 1 - k else k]
    {
      r := r[i := r[j]][j := r[i]];
      i, j := i + 1, j - 1;
    }
  }

  lemma PathStep(nodes: seq<Node>, id: nat)
    requires WellFormed(nodes) && id < |nodes|
    ensures nodes[id].parent.Some? ==> nodes[id].parent.value < id
    ensures Path(nodes, id) == (if nodes[id].parent.Some? then Path(nodes, nodes[id].parent.value) else "") + "/" + Segment(nodes, id)
  {
    assert ParentFits(nodes, id);
    if nodes[id].parent.Some? {
      var up, last := Segments(nodes, nodes[id].parent.value), Segment(nodes, id);
      JoinLast(up, last, "/");
      assert "/" + (Join(up, "/") + "/" + last) == ("/" + Join(up, "/")) + "/" + last;
    }
  }

  /** No local name contains the characters that structure a path; XML names never do. */
  predicate Plain(nodes: seq<Node>) { forall id :: 0 <= id < |nodes| ==> '/' !in nodes[id].name.local && '[' !in nodes[id].name.local }

  lemma {:induction false} CountGrows(nodes: seq<Node>, ids: seq<nat>, k: nat, local: string)
    requires forall j :: 0 <= j < |ids| ==> ids[j] < |nodes|
    requires k < |ids| && nodes[ids[k]].name.local == local
    ensures SameLocal(nodes, ids[..k], local) < SameLocal(nodes, ids, local)
    decreases |ids|
  {
    var front := ids[..|ids| - 1];
    if k == |front| {
      assert ids[..k] == front;
    } else {
      assert front[..k] == ids[..k];
      CountGrows(nodes, front, k, local);
    }
  }

  /** Two siblings of one local name carry different numbers, and both show them. */
  lemma TwinsDiffer(nodes: seq<Node>, p: nat, k: nat, l: nat)
    requires WellFormed(nodes) && p < |nodes| && k < l < |nodes[p].children|
    requires ChildrenWithin(nodes, p) && nodes[nodes[p].children[k]].name.local == nodes[nodes[p].children[l]].name.local
    ensures nodes[nodes[p].children[k]].index != nodes[nodes[p].children[l]].index
    ensures HasTwin(nodes, nodes[p].children[k]) && HasTwin(nodes, nodes[p].children[l])
  {
    var ids := nodes[p].children;
    var local := nodes[ids[k]].name.local;
    assert ChildrenFit(nodes, p) && ChildAt(nodes, p, k) && ChildAt(nodes, p, l);
    assert ids[..l][..k] == ids[..k];
    CountGrows(nodes, ids[..l], k, local);
    CountGrows(nodes, ids, l, local);
  }

  lemma SegmentShape(nodes: seq<Node>, id: nat)
    requires WellFormed(nodes) && Plain(nodes) && id < |nodes|
    ensures '/' !in Segment(nodes, id)
    ensures '[' in Segment(nodes, id) <==> nodes[id].index > 1 || HasTwin(nodes, id)
    ensures '[' !in Segment(nodes, id) ==> Segment(nodes, id) == nodes[id].name.local
  {
    if nodes[id].index > 1 || HasTwin(nodes, id) {
      assert Segment(nodes, id)[|nodes[id].name.local|] == '[';
    }
  }

  /** Siblings with one step are one node. */
  lemma SegmentInjective(nodes: seq<Node>, p: nat, k: nat, l: nat)
    requires WellFormed(nodes) && Plain(nodes) && p < |nodes| && k < l < |nodes[p].children| && ChildrenWithin(nodes, p)
    ensures Segment(nodes, nodes[p].children[k]) != Segment(nodes, nodes[p].children[l])
  {
    var a, b := nodes[p].children[k], nodes[p].children[l];
    SegmentShape(nodes, a);
    SegmentShape(nodes, b);
    if nodes[a].name.local == nodes[b].name.local { TwinsDiffer(nodes, p, k, l); }
    if Segment(nodes, a) == Segment(nodes, b) && '[' in Segment(nodes, a) { SegmentsNumbered(nodes, a, b); }
  }

  /** Equal numbered steps have equal names and numbers. */
  lemma SegmentsNumbered(nodes: seq<Node>, a: nat, b: nat)
    requires WellFormed(nodes) && Plain(nodes) && a < |nodes| && b < |nodes| && Segment(nodes, a) == Segment(nodes, b)
    requires (nodes[a].index > 1 || HasTwin(nodes, a)) && (nodes[b].index > 1 || HasTwin(nodes, b))
    ensures nodes[a].name.local == nodes[b].name.local && nodes[a].index == nodes[b].index
  {
    var m, n := NumberText(nodes[a].index), NumberText(nodes[b].index);
    assert Segment(nodes, a) == nodes[a].name.local + ['['] + (m + "]");
    assert Segment(nodes, b) == nodes[b].name.local + ['['] + (n + "]");
    SplitFirst(nodes[a].name.local, nodes[b].name.local, m + "]", n + "]", '[');
    assert m == (m + "]")[..|m + "]"| - 1] && n == (n + "]")[..|n + "]"| - 1];
    NumberTextInjective(nodes[a].index, nodes[b].index);
  }

  lemma {:induction false} PathInjective(nodes: seq<Node>, a: nat, b: nat)
    requires WellFormed(nodes) && Plain(nodes) && a < |nodes| && b < |nodes| && Path(nodes, a) == Path(nodes, b)
    ensures a == b
    decreases a
  {
    PathStep(nodes, a);
    PathStep(nodes, b);
    SegmentShape(nodes, a);
    SegmentShape(nodes, b);
    var up_a := if nodes[a].parent.Some? then Path(nodes, nodes[a].parent.value) else "";
    var up_b := if nodes[b].parent.Some? then Path(nodes, nodes[b].parent.value) else "";
    SplitLast(up_a, up_b, Segment(nodes, a), Segment(nodes, b), '/');
    assert ParentFits(nodes, a) && ParentFits(nodes, b);
    if a > 0 && b > 0 {
      PathInjective(nodes, nodes[a].parent.value, nodes[b].parent.value);
      SiblingsAlike(nodes, nodes[a].parent.value, a, b);
    }
  }

  lemma SiblingsAlike(nodes: seq<Node>, p: nat, a: nat, b: nat)
    requires WellFormed(nodes) && Plain(nodes) && p < |nodes| && a < |nodes| && b < |nodes|
    requires a in nodes[p].children && b in nodes[p].children && Segment(nodes, a) == Segment(nodes, b)
    ensures a == b
  {
    assert ChildrenFit(nodes, p);
    var k: nat :| k < |nodes[p].children| && nodes[p].children[k] == a;
    var l: nat :| l < |nodes[p].children| && nodes[p].children[l] == b;
    if k < l { SegmentInjective(nodes, p, k, l); }
    if l < k { SegmentInjective(nodes, p, l, k); }
  }

  /** In every tree that parses, with plain names, a path names one node. */
  lemma PathsNameNodes(tokens: seq<Token>, a: nat, b: nat)
    requires Parsed(tokens).Ok? && Plain(Parsed(tokens).value) && a < |Parsed(tokens).value| && b < |Parsed(tokens).value|
    ensures WellFormed(Parsed(tokens).value)
    ensures Path(Parsed(tokens).value, a) == Path(Parsed(tokens).value, b) <==> a == b
  {
    ParsedForm(tokens);
    if Path(Parsed(tokens).value, a) == Path(Parsed(tokens).value, b) { PathInjective(Parsed(tokens).value, a, b); }
  }
}
