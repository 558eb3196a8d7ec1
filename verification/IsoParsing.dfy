/** What parsing builds, that nothing is lost, and what holds of any parsed tree. */
module IsoParsing {
  import opened Wrappers
  import opened IsoTree

  /** The nodes from lo up to hi are the same in both lists. */
  predicate SameIn(ns: seq<Node>, ms: seq<Node>, lo: nat, hi: nat) {
    hi <= |ns| && hi <= |ms| && forall k :: lo <= k < hi ==> ms[k] == ns[k]
  }

  /** A tree still holds where none of its nodes has changed. */
  lemma {:induction false} HoldsStill(ns: seq<Node>, ms: seq<Node>, id: nat, t: Tree)
    requires Holds(ns, id, t) && SameIn(ns, ms, id, id + Size(t))
    ensures Holds(ms, id, t)
    decreases t, 0
  {
    assert SameIn(ns, ms, id + 1, id + 1 + ContentSize(t.content));
    HoldsContentStill(ns, ms, id, id + 1, t.content);
  }

  lemma {:induction false} HoldsContentStill(ns: seq<Node>, ms: seq<Node>, parent: nat, base: nat, c: Content)
    requires HoldsContent(ns, parent, base, c) && SameIn(ns, ms, base, base + ContentSize(c))
    ensures HoldsContent(ms, parent, base, c)
    decreases c, 1
  {
    match c
    case Empty =>
    case WithChild(before, child) =>
      var id := base + ContentSize(before);
      assert SameIn(ns, ms, base, id) && SameIn(ns, ms, id, id + Size(child));
      HoldsContentStill(ns, ms, parent, base, before);
      HoldsStill(ns, ms, id, child);
      assert ms[id] == ns[id];
    case WithText(before, _) =>
      assert SameIn(ns, ms, base, base + ContentSize(before));
      HoldsContentStill(ns, ms, parent, base, before);
  }

  lemma {:induction false} KidsWithin(base: nat, c: Content)
    ensures forall k :: 0 <= k < |Kids(base, c)| ==> base <= Kids(base, c)[k] < base + ContentSize(c)
  {
    match c
    case Empty =>
    case WithChild(before, _) => KidsWithin(base, before);
    case WithText(before, _) => KidsWithin(base, before);
  }

  /** Counting same-named siblings in the nodes is counting them in the content. */
  lemma {:induction false} SiblingsCounted(nodes: seq<Node>, parent: nat, base: nat, c: Content, local: string)
    requires HoldsContent(nodes, parent, base, c)
    ensures forall k :: 0 <= k < |Kids(base, c)| ==> Kids(base, c)[k] < |nodes|
    ensures SameLocal(nodes, Kids(base, c), local) == CountLocal(c, local)
  {
    KidsWithin(base, c);
    match c
    case Empty =>
    case WithChild(before, child) =>
      SiblingsCounted(nodes, parent, base, before, local);
      var ids := Kids(base, c);
      assert ids[..|ids| - 1] == Kids(base, before);
    case WithText(before, _) => SiblingsCounted(nodes, parent, base, before, local);
  }

  predicate InPlace(nodes: seq<Node>, id: nat, t: Tree) { Holds(nodes, id, t) }

  predicate ContentInPlace(nodes: seq<Node>, parent: nat, base: nat, c: Content) { HoldsContent(nodes, parent, base, c) }

  /** Nothing but the nodes in `except` changed among the first. */
  predicate KeptBut(ns: seq<Node>, ms: seq<Node>, except: Option<nat>) {
    |ns| <= |ms| && forall k :: 0 <= k < |ns| && Some(k) != except ==> ms[k] == ns[k]
  }

  /** The tree was added as the next child of the parent. */
  ghost predicate Added(ns: seq<Node>, ms: seq<Node>, parent: Option<nat>, t: Tree)
    requires parent.Some? ==> parent.value < |ns| && ChildrenWithin(ns, parent.value)
  {
    && |ms| == |ns| + Size(t) && KeptBut(ns, ms, parent) && InPlace(ms, |ns|, t) && ms[|ns|].parent == parent
    && (parent.Some? ==>
          && ms[parent.value] == ns[parent.value].(children := ns[parent.value].children + [|ns|])
          && ms[|ns|].index == 1 + SameLocal(ns, ns[parent.value].children, t.name.local))
    && (parent.None? ==> ms[|ns|].index == 1)
  }

  /** The content was added to the node just opened. */
  ghost predicate Filled(ns: seq<Node>, ms: seq<Node>, b: nat, c: Content)
    requires |ns| == b + 1
  {
    && |ms| == |ns| + ContentSize(c) && KeptBut(ns, ms, Some(b)) && ContentInPlace(ms, b, |ns|, c)
    && ms[b] == ns[b].(text := ns[b].text + TextOf(c), children := ns[b].children + Kids(|ns|, c))
  }

  /** Room for a tree of this depth and size. */
  predicate Room(s: State, depth: nat, size: nat) { |s.stack| + depth <= MAX_DEPTH && |s.nodes| + size <= MAX_NODES }

  lemma TopWithin(s: State)
    requires Sane(s)
    ensures Top(s.stack).Some? ==> Top(s.stack).value < |s.nodes| && ChildrenWithin(s.nodes, Top(s.stack).value)
  {
  }

  lemma {:induction false} FeedTree(s: State, t: Tree)
    requires Sane(s) && (s.stack == [] ==> s.nodes == []) && Room(s, Depth(t), Size(t))
    ensures Feed(s, Tokens(t)).Ok? && Feed(s, Tokens(t)).value.stack == s.stack
    ensures Top(s.stack).Some? ==> Top(s.stack).value < |s.nodes| && ChildrenWithin(s.nodes, Top(s.stack).value)
    ensures Added(s.nodes, Feed(s, Tokens(t)).value.nodes, Top(s.stack), t)
    decreases t, 0
  {
    TopWithin(s);
    FeedOne(s, Start(t.name));
    var entered := Feed(s, [Start(t.name)]).value;
    FeedContent(entered, t.content);
    FeedBoth(s, [Start(t.name)], ContentTokens(t.content));
    var filled := Feed(entered, ContentTokens(t.content)).value;
    FeedOne(filled, End);
    FeedBoth(s, [Start(t.name)] + ContentTokens(t.content), [End]);
    Closed(s, t, entered, filled);
  }

  /** Closing a filled element completes its tree. */
  lemma Closed(s: State, t: Tree, entered: State, filled: State)
    requires Sane(s) && Sane(entered) && Sane(filled)
    requires Step(s, Start(t.name)) == Ok(entered) && filled.stack == entered.stack
    requires Filled(entered.nodes, filled.nodes, |s.nodes|, t.content)
    ensures Top(s.stack).Some? ==> Top(s.stack).value < |s.nodes| && ChildrenWithin(s.nodes, Top(s.stack).value)
    ensures Step(filled, End).Ok? && Step(filled, End).value.stack == s.stack
    ensures Added(s.nodes, Step(filled, End).value.nodes, Top(s.stack), t)
  {
    TopWithin(s);
    assert entered.stack == s.stack + [|s.nodes|];
    TreeCompleted(s.nodes, Top(s.stack), t, filled.nodes);
  }

  lemma TreeCompleted(ns: seq<Node>, parent: Option<nat>, t: Tree, fs: seq<Node>)
    requires parent.Some? ==> parent.value < |ns| && ChildrenWithin(ns, parent.value)
    requires Filled(Opened(ns, parent, t.name), fs, |ns|, t.content)
    ensures Added(ns, fs[|ns| := fs[|ns|].(text := Tidy(fs[|ns|].text))], parent, t)
  {
    var id, os := |ns|, Opened(ns, parent, t.name);
    assert "" + TextOf(t.content) == TextOf(t.content) && [] + Kids(id + 1, t.content) == Kids(id + 1, t.content);
    TidiedHolds(fs, id, t);
    TidiedKeeps(os, fs, id);
    OpenedKeeps(ns, parent, t.name);
  }

  /** Tidying the text of the node on top of its content completes the tree. */
  lemma TidiedHolds(fs: seq<Node>, id: nat, t: Tree)
    requires id + Size(t) <= |fs| && ContentInPlace(fs, id, id + 1, t.content)
    requires fs[id].name == t.name && fs[id].text == TextOf(t.content) && fs[id].children == Kids(id + 1, t.content)
    ensures InPlace(fs[id := fs[id].(text := Tidy(fs[id].text))], id, t)
  {
    HoldsContentStill(fs, fs[id := fs[id].(text := Tidy(fs[id].text))], id, id + 1, t.content);
  }

  lemma TidiedKeeps(os: seq<Node>, fs: seq<Node>, id: nat)
    requires |os| == id + 1 && KeptBut(os, fs, Some(id))
    ensures KeptBut(os, fs[id := fs[id].(text := Tidy(fs[id].text))], Some(id))
  {
  }

  lemma OpenedKeeps(ns: seq<Node>, parent: Option<nat>, name: Name)
    requires parent.Some? ==> parent.value < |ns| && ChildrenWithin(ns, parent.value)
    ensures |Opened(ns, parent, name)| == |ns| + 1 && KeptBut(ns, Opened(ns, parent, name), parent)
  {
  }

  lemma {:induction false} FeedContent(s: State, c: Content)
    requires Sane(s) && s.stack != [] && |s.nodes| == s.stack[|s.stack| - 1] + 1 && s.nodes[|s.nodes| - 1].children == []
    requires Room(s, ContentDepth(c), ContentSize(c))
    ensures Feed(s, ContentTokens(c)).Ok? && Feed(s, ContentTokens(c)).value.stack == s.stack
    ensures Filled(s.nodes, Feed(s, ContentTokens(c)).value.nodes, s.stack[|s.stack| - 1], c)
    decreases c, 1
  {
    match c
    case Empty =>
    case WithChild(before, child) =>
      FeedContent(s, before);
      var so_far := Feed(s, ContentTokens(before)).value;
      FeedTree(so_far, child);
      FeedBoth(s, ContentTokens(before), Tokens(child));
      ChildAdded(s.nodes, so_far.nodes, Feed(so_far, Tokens(child)).value.nodes, s.stack[|s.stack| - 1], before, child);
    case WithText(before, text) =>
      FeedContent(s, before);
      var so_far := Feed(s, ContentTokens(before)).value;
      FeedOne(so_far, Chars(text));
      FeedBoth(s, ContentTokens(before), [Chars(text)]);
      TextAdded(s.nodes, so_far.nodes, s.stack[|s.stack| - 1], before, text);
  }

  lemma ChildAdded(ns: seq<Node>, ms: seq<Node>, rs: seq<Node>, b: nat, before: Content, child: Tree)
    requires |ns| == b + 1 && ns[b].children == [] && Filled(ns, ms, b, before)
    requires b < |ms| && ChildrenWithin(ms, b) && Added(ms, rs, Some(b), child)
    ensures Filled(ns, rs, b, WithChild(before, child))
  {
    ChildHolds(ns, ms, rs, b, before, child);
    KeptTwice(ns, ms, rs, b);
    ParentExtended(ns[b], ms[b], rs[b], |ns|, before, child);
  }

  lemma KeptTwice(ns: seq<Node>, ms: seq<Node>, rs: seq<Node>, b: nat)
    requires KeptBut(ns, ms, Some(b)) && KeptBut(ms, rs, Some(b))
    ensures KeptBut(ns, rs, Some(b))
  {
    forall k | 0 <= k < |ns| && Some(k) != Some(b) ensures rs[k] == ns[k] {
      assert ms[k] == ns[k];
    }
  }

  lemma ParentExtended(entered: Node, filled: Node, extended: Node, base: nat, before: Content, child: Tree)
    requires entered.children == []
    requires filled == entered.(text := entered.text + TextOf(before), children := entered.children + Kids(base, before))
    requires extended == filled.(children := filled.children + [base + ContentSize(before)])
    ensures var c := WithChild(before, child);
      extended == entered.(text := entered.text + TextOf(c), children := entered.children + Kids(base, c))
  {
  }

  lemma ChildHolds(ns: seq<Node>, ms: seq<Node>, rs: seq<Node>, b: nat, before: Content, child: Tree)
    requires |ns| == b + 1 && |ms| == |ns| + ContentSize(before) && ContentInPlace(ms, b, |ns|, before)
    requires ms[b].children == Kids(|ns|, before) && ChildrenWithin(ms, b) && Added(ms, rs, Some(b), child)
    ensures ContentInPlace(rs, b, |ns|, WithChild(before, child))
  {
    SiblingsCounted(ms, b, |ns|, before, child.name.local);
    KeptHolds(ms, rs, b, |ns|, before);
  }

  lemma KeptHolds(ms: seq<Node>, rs: seq<Node>, b: nat, base: nat, c: Content)
    requires b < base && base + ContentSize(c) <= |ms| && HoldsContent(ms, b, base, c) && KeptBut(ms, rs, Some(b))
    ensures HoldsContent(rs, b, base, c)
  {
    assert SameIn(ms, rs, base, base + ContentSize(c));
    HoldsContentStill(ms, rs, b, base, c);
  }

  lemma TextAdded(ns: seq<Node>, ms: seq<Node>, b: nat, before: Content, text: string)
    requires |ns| == b + 1 && Filled(ns, ms, b, before)
    ensures Filled(ns, ms[b := ms[b].(text := ms[b].text + text)], b, WithText(before, text))
  {
    var rs := ms[b := ms[b].(text := ms[b].text + text)];
    HoldsContentStill(ms, rs, b, |ns|, before);
    assert ns[b].text + TextOf(before) + text == ns[b].text + (TextOf(before) + text);
  }

  /** Parsing the token stream of any document within the limits builds its nodes in document order: each with its
      name, tidied text, children, parent, and its number among the siblings of its local name. */
  lemma ParseBuilds(t: Tree)
    requires Depth(t) <= MAX_DEPTH && Size(t) <= MAX_NODES
    ensures Parsed(Tokens(t)).Ok?
    ensures var nodes := Parsed(Tokens(t)).value;
      |nodes| == Size(t) && Holds(nodes, 0, t) && nodes[0].parent == None && nodes[0].index == 1
  {
    FeedTree(START, t);
  }

  // ---------------------------------------------------------------- nothing is lost

  /** A document with the text of every element gathered in front and tidied. */
  function Canonical(t: Tree): Tree { Tree(t.name, CanonicalChildren(WithText(Empty, Tidy(TextOf(t.content))), t.content)) }

  function CanonicalChildren(first: Content, c: Content): Content
    decreases c
  {
    match c
    case Empty => first
    case WithChild(before, child) => WithChild(CanonicalChildren(first, before), Canonical(child))
    case WithText(before, _) => CanonicalChildren(first, before)
  }

  /** Children come after their parents. */
  predicate Downward(nodes: seq<Node>) { forall id :: 0 <= id < |nodes| ==> DownwardAt(nodes, id) }

  predicate DownwardAt(nodes: seq<Node>, id: nat)
    requires id < |nodes|
  {
    forall k :: 0 <= k < |nodes[id].children| ==> id < nodes[id].children[k] < |nodes|
  }

  /** The document the nodes hold, read off by following children. */
  function ReadBack(nodes: seq<Node>, id: nat): Tree
    requires Downward(nodes) && id < |nodes|
    decreases |nodes| - id, 1, 0
  {
    assert DownwardAt(nodes, id);
    Tree(nodes[id].name, ReadChildren(nodes, id, |nodes[id].children|))
  }

  function ReadChildren(nodes: seq<Node>, id: nat, n: nat): Content
    requires Downward(nodes) && id < |nodes| && n <= |nodes[id].children|
    decreases |nodes| - id, 0, n
  {
    if n == 0 then WithText(Empty, nodes[id].text)
    else
      assert DownwardAt(nodes, id);
      WithChild(ReadChildren(nodes, id, n - 1), ReadBack(nodes, nodes[id].children[n - 1]))
  }

  lemma {:induction false} ReadsTree(nodes: seq<Node>, id: nat, t: Tree)
    requires Downward(nodes) && Holds(nodes, id, t)
    ensures ReadBack(nodes, id) == Canonical(t)
    decreases t, 0
  {
    ReadsChildren(nodes, id, id + 1, t.content, WithText(Empty, nodes[id].text));
  }

  lemma {:induction false} ReadsChildren(nodes: seq<Node>, parent: nat, base: nat, c: Content, first: Content)
    requires Downward(nodes) && parent < |nodes| && HoldsContent(nodes, parent, base, c) && Kids(base, c) <= nodes[parent].children
    requires first == WithText(Empty, nodes[parent].text)
    ensures ReadChildren(nodes, parent, |Kids(base, c)|) == CanonicalChildren(first, c)
    decreases c, 1
  {
    match c
    case Empty =>
    case WithChild(before, child) =>
      var n := |Kids(base, before)|;
      assert Kids(base, before) == Kids(base, c)[..n] == nodes[parent].children[..n];
      ReadsChildren(nodes, parent, base, before, first);
      assert nodes[parent].children[n] == base + ContentSize(before);
      ReadsTree(nodes, base + ContentSize(before), child);
    case WithText(before, _) => ReadsChildren(nodes, parent, base, before, first);
  }

  // ---------------------------------------------------------------- what holds of any parsed tokens

  predicate ChildAt(nodes: seq<Node>, id: nat, k: nat)
    requires id < |nodes| && k < |nodes[id].children| && ChildrenWithin(nodes, id)
  {
    var c := nodes[id].children[k];
    && id < c && nodes[c].parent == Some(id)
    && (forall j :: 0 <= j < k ==> nodes[id].children[j] < c)
    && nodes[c].index == 1 + SameLocal(nodes, nodes[id].children[..k], nodes[c].name.local)
  }

  predicate ChildrenFit(nodes: seq<Node>, id: nat)
    requires id < |nodes|
  {
    ChildrenWithin(nodes, id) && forall k :: 0 <= k < |nodes[id].children| ==> ChildAt(nodes, id, k)
  }

  /** The first node has no parent and the number 1; every other one has an earlier parent that lists it. */
  predicate ParentFits(nodes: seq<Node>, id: nat)
    requires id < |nodes|
  {
    if id == 0 then nodes[id].parent.None? && nodes[id].index == 1
    else nodes[id].parent.Some? && nodes[id].parent.value < id && id in nodes[nodes[id].parent.value].children
  }

  /** Parents and children agree, and every child is numbered among its siblings of the same local name. */
  predicate WellFormed(nodes: seq<Node>) { forall id :: 0 <= id < |nodes| ==> ChildrenFit(nodes, id) && ParentFits(nodes, id) }

  lemma SameLocalStill(ns: seq<Node>, ms: seq<Node>, ids: seq<nat>, local: string)
    requires forall k :: 0 <= k < |ids| ==> ids[k] < |ns| && ids[k] < |ms| && ms[ids[k]].name == ns[ids[k]].name
    ensures SameLocal(ms, ids, local) == SameLocal(ns, ids, local)
  {
  }

  /** Changing texts, and adding nodes that earlier ones do not list, leaves a node's children as they should be. */
  lemma ChildrenStillFit(ns: seq<Node>, ms: seq<Node>, id: nat)
    requires |ns| <= |ms| && id < |ns| && ChildrenFit(ns, id) && ms[id].children == ns[id].children
    requires forall k :: 0 <= k < |ns| ==> ms[k].name == ns[k].name && ms[k].parent == ns[k].parent && ms[k].index == ns[k].index
    ensures ChildrenFit(ms, id)
  {
    forall k | 0 <= k < |ms[id].children| ensures ChildAt(ms, id, k) {
      assert ChildAt(ns, id, k);
      SameLocalStill(ns, ms, ns[id].children[..k], ns[ns[id].children[k]].name.local);
    }
  }

  lemma TextKeepsForm(ns: seq<Node>, b: nat, text: string)
    requires WellFormed(ns) && b < |ns|
    ensures WellFormed(ns[b := ns[b].(text := text)])
  {
    var ms := ns[b := ns[b].(text := text)];
    forall id | 0 <= id < |ms| ensures ChildrenFit(ms, id) && ParentFits(ms, id) {
      assert ChildrenFit(ns, id) && ParentFits(ns, id);
      ChildrenStillFit(ns, ms, id);
    }
  }

  lemma RootForm(name: Name)
    ensures WellFormed(Opened([], None, name))
  {
  }

  lemma OpenedParent(ns: seq<Node>, p: nat, name: Name)
    requires WellFormed(ns) && p < |ns| && ChildrenWithin(ns, p)
    ensures ChildrenFit(Opened(ns, Some(p), name), p)
  {
    var ms := Opened(ns, Some(p), name);
    var ids := ms[p].children;
    assert ids == ns[p].children + [|ns|];
    assert ChildrenFit(ns, p);
    forall k | 0 <= k < |ids| ensures ChildAt(ms, p, k) {
      assert ids[..k] == ns[p].children[..k];
      if k < |ns[p].children| { assert ChildAt(ns, p, k); }
      SameLocalStill(ns, ms, ids[..k], ms[ids[k]].name.local);
    }
  }

  lemma OpenedForm(ns: seq<Node>, p: nat, name: Name)
    requires WellFormed(ns) && p < |ns| && ChildrenWithin(ns, p)
    ensures WellFormed(Opened(ns, Some(p), name))
  {
    var ms := Opened(ns, Some(p), name);
    OpenedParent(ns, p, name);
    forall id | 0 <= id < |ms| ensures ChildrenFit(ms, id) && ParentFits(ms, id) {
      if id < |ns| {
        assert ChildrenFit(ns, id) && ParentFits(ns, id);
        if id != p { ChildrenStillFit(ns, ms, id); }
        if id > 0 { OpenedLists(ns, p, name, ns[id].parent.value, id); }
      } else {
        assert ms[p].children[|ns[p].children|] == |ns|;
      }
    }
  }

  lemma OpenedLists(ns: seq<Node>, p: nat, name: Name, q: nat, id: nat)
    requires p < |ns| && ChildrenWithin(ns, p) && q < |ns| && id in ns[q].children
    ensures id in Opened(ns, Some(p), name)[q].children
  {
    var k :| 0 <= k < |ns[q].children| && ns[q].children[k] == id;
    assert Opened(ns, Some(p), name)[q].children[k] == id;
  }

  lemma StepForm(s: State, t: Token)
    requires Sane(s) && WellFormed(s.nodes) && Step(s, t).Ok?
    ensures WellFormed(Step(s, t).value.nodes)
  {
    match t
    case Directive =>
    case Other =>
    case Start(name) => if s.stack == [] { RootForm(name); } else { OpenedForm(s.nodes, s.stack[|s.stack| - 1], name); }
    case Chars(text) => if s.stack != [] { var b := s.stack[|s.stack| - 1]; TextKeepsForm(s.nodes, b, s.nodes[b].text + text); }
    case End => var b := s.stack[|s.stack| - 1]; TextKeepsForm(s.nodes, b, Tidy(s.nodes[b].text));
  }

  lemma {:induction false} FeedForm(s: State, tokens: seq<Token>)
    requires Sane(s) && WellFormed(s.nodes) && Feed(s, tokens).Ok?
    ensures WellFormed(Feed(s, tokens).value.nodes)
  {
    if tokens != [] {
      var front := tokens[..|tokens| - 1];
      FeedForm(s, front);
      StepForm(Feed(s, front).value, tokens[|tokens| - 1]);
    }
  }

  /** Whatever the tokens, a tree that parses is well formed. */
  lemma ParsedForm(tokens: seq<Token>)
    requires Parsed(tokens).Ok?
    ensures WellFormed(Parsed(tokens).value) && Parsed(tokens).value != [] && Downward(Parsed(tokens).value)
  {
    FeedForm(START, tokens);
    FormIsDownward(Parsed(tokens).value);
  }

  lemma FormIsDownward(nodes: seq<Node>)
    requires WellFormed(nodes)
    ensures Downward(nodes)
  {
    forall id | 0 <= id < |nodes| ensures DownwardAt(nodes, id) {
      assert ChildrenFit(nodes, id);
      forall k | 0 <= k < |nodes[id].children| ensures id < nodes[id].children[k] < |nodes| { assert ChildAt(nodes, id, k); }
    }
  }

  /** The round trip: the document read back from the parsed tokens is the one they came from, up to tidied text. */
  lemma ParseRoundTrip(t: Tree)
    requires Depth(t) <= MAX_DEPTH && Size(t) <= MAX_NODES
    ensures Parsed(Tokens(t)).Ok? && Downward(Parsed(Tokens(t)).value) && Parsed(Tokens(t)).value != []
    ensures ReadBack(Parsed(Tokens(t)).value, 0) == Canonical(t)
  {
    ParseBuilds(t);
    ParsedForm(Tokens(t));
    ReadsTree(Parsed(Tokens(t)).value, 0, t);
  }
}
