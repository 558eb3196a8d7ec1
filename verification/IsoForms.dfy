/** What tidied text is, and when a step of a path carries a number. */
module IsoForms {
  import opened Wrappers
  import opened Text
  import opened IsoTree
  import opened IsoParsing
  import opened IsoPaths

  // ---------------------------------------------------------------- text

  predicate Gap(s: string) { forall c :: c in s ==> IsSpace(c) }

  predicate Word(s: string) { s != "" && forall c :: c in s ==> !IsSpace(c) }

  /** A gap, a word, a gap, and so on to the last gap. */
  function Weave(gaps: seq<string>, words: seq<string>): string
    requires |gaps| == |words| + 1
  {
    if words == [] then gaps[0] else gaps[0] + words[0] + Weave(gaps[1..], words[1..])
  }

  /** The text is these words with white space before, between and after them. */
  predicate WordsOf(s: string, words: seq<string>, gaps: seq<string>) {
    && |gaps| == |words| + 1 && s == Weave(gaps, words)
    && (forall i :: 0 <= i < |words| ==> Word(words[i]))
    && (forall i :: 0 <= i < |gaps| ==> Gap(gaps[i]) && (0 < i < |words| ==> gaps[i] != ""))
  }

  lemma {:induction false} WordEndIs(s: string)
    ensures var i := WordEnd(s); (forall c :: c in s[..i] ==> !IsSpace(c)) && (i < |s| ==> IsSpace(s[i]))
  {
    if s != "" && !IsSpace(s[0]) {
      var i := WordEnd(s[1..]);
      WordEndIs(s[1..]);
      assert s[..1 + i] == [s[0]] + s[1..][..i];
    }
  }

  lemma GapGrows(s: string, words: seq<string>, gaps: seq<string>)
    requires s != "" && IsSpace(s[0]) && WordsOf(s[1..], words, gaps)
    ensures WordsOf(s, words, [[s[0]] + gaps[0]] + gaps[1..])
  {
    var wider := [[s[0]] + gaps[0]] + gaps[1..];
    assert wider[1..] == gaps[1..];
    assert s == [s[0]] + s[1..];
    if words != [] { assert [s[0]] + (gaps[0] + words[0] + Weave(gaps[1..], words[1..])) == [s[0]] + gaps[0] + words[0] + Weave(gaps[1..], words[1..]); }
  }

  /** Text that starts with white space starts with a gap. */
  lemma StartsWithGap(s: string, words: seq<string>, gaps: seq<string>)
    requires s != "" && IsSpace(s[0]) && WordsOf(s, words, gaps) && words != []
    ensures gaps[0] != ""
  {
    assert words[0][0] in words[0];
    assert s == gaps[0] + (words[0] + Weave(gaps[1..], words[1..]));
  }

  lemma WordBefore(word: string, s: string, words: seq<string>, gaps: seq<string>)
    requires Word(word) && WordsOf(s, words, gaps) && (s == "" || IsSpace(s[0]))
    ensures WordsOf(word + s, [word] + words, [""] + gaps)
  {
    var more, wider := [word] + words, [""] + gaps;
    assert more[1..] == words && wider[1..] == gaps;
    assert Weave(wider, more) == "" + word + Weave(gaps, words);
    if words != [] && s != "" { StartsWithGap(s, words, gaps); }
    if words != [] && s == "" { NothingWoven(words, gaps); }
  }

  lemma NothingWoven(words: seq<string>, gaps: seq<string>)
    requires WordsOf("", words, gaps)
    ensures words == []
  {
    if words != [] { WovenIn(gaps, words); }
  }

  lemma WovenIn(gaps: seq<string>, words: seq<string>)
    requires |gaps| == |words| + 1 && words != []
    ensures |Weave(gaps, words)| >= |words[0]|
  {
  }

  lemma {:induction false} FieldsAre(s: string) returns (gaps: seq<string>)
    ensures WordsOf(s, Fields(s), gaps)
    decreases |s|
  {
    if s == "" {
      gaps := [""];
    } else if IsSpace(s[0]) {
      gaps := FieldsAre(s[1..]);
      GapGrows(s, Fields(s[1..]), gaps);
      gaps := [[s[0]] + gaps[0]] + gaps[1..];
    } else {
      var i := WordEnd(s);
      WordEndIs(s);
      gaps := FieldsAre(s[i..]);
      WordBefore(s[..i], s[i..], Fields(s[i..]), gaps);
      assert s == s[..i] + s[i..];
      gaps := [""] + gaps;
    }
  }

  lemma {:induction false} JoinEnds(words: seq<string>)
    requires words != [] && forall i :: 0 <= i < |words| ==> Word(words[i])
    ensures var j := Join(words, " "); j != "" && !IsSpace(j[0]) && !IsSpace(j[|j| - 1])
  {
    assert words[0][0] in words[0] && words[0][|words[0]| - 1] in words[0];
    if |words| > 1 { JoinEnds(words[1..]); }
  }

  /** Tidied text is the words of the text with one space between them. */
  lemma TidyIs(s: string) returns (words: seq<string>, gaps: seq<string>)
    ensures WordsOf(s, words, gaps) && Tidy(s) == Join(words, " ")
  {
    words := Fields(s);
    gaps := FieldsAre(s);
    if words != [] { JoinEnds(words); }
    TrimFixed(Join(words, " "));
  }

  // ---------------------------------------------------------------- steps

  /** Another child of the node's parent has its local name. */
  predicate Twin(nodes: seq<Node>, id: nat)
    requires id < |nodes|
  {
    && nodes[id].parent.Some?
    && exists other :: 0 <= other < |nodes| && other != id && nodes[other].parent == nodes[id].parent && nodes[other].name.local == nodes[id].name.local
  }

  lemma {:induction false} SomeLocal(nodes: seq<Node>, ids: seq<nat>, local: string)
    requires forall k :: 0 <= k < |ids| ==> ids[k] < |nodes|
    ensures SameLocal(nodes, ids, local) > 0 <==> exists k :: 0 <= k < |ids| && nodes[ids[k]].name.local == local
  {
    if ids != [] {
      var n := |ids| - 1;
      SomeLocal(nodes, ids[..n], local);
      if k :| 0 <= k < |ids| && nodes[ids[k]].name.local == local { if k < n { assert ids[..n][k] == ids[k]; } }
    }
  }

  lemma {:induction false} TwoLocal(nodes: seq<Node>, ids: seq<nat>, local: string)
    requires forall k :: 0 <= k < |ids| ==> ids[k] < |nodes|
    ensures SameLocal(nodes, ids, local) > 1
       <==> exists k, l :: 0 <= k < l < |ids| && nodes[ids[k]].name.local == local && nodes[ids[l]].name.local == local
  {
    if ids != [] {
      var n := |ids| - 1;
      TwoLocal(nodes, ids[..n], local);
      SomeLocal(nodes, ids[..n], local);
      TwoOrOne(nodes, ids, local);
    }
  }

  lemma TwoOrOne(nodes: seq<Node>, ids: seq<nat>, local: string)
    requires ids != [] && forall k :: 0 <= k < |ids| ==> ids[k] < |nodes|
    ensures var n := |ids| - 1; var front := ids[..n];
      (exists k, l :: 0 <= k < l < |ids| && nodes[ids[k]].name.local == local && nodes[ids[l]].name.local == local) <==>
      || (exists k, l :: 0 <= k < l < |front| && nodes[front[k]].name.local == local && nodes[front[l]].name.local == local)
      || (nodes[ids[n]].name.local == local && exists k :: 0 <= k < |front| && nodes[front[k]].name.local == local)
  {
  }

  /** Siblings are children of one parent. */
  lemma SiblingsListed(nodes: seq<Node>, p: nat, other: nat)
    requires WellFormed(nodes) && p < |nodes| && other < |nodes|
    ensures nodes[other].parent == Some(p) <==> other in nodes[p].children
  {
    assert ParentFits(nodes, other) && ChildrenFit(nodes, p);
    if other in nodes[p].children {
      var k: nat :| k < |nodes[p].children| && nodes[p].children[k] == other;
      assert ChildAt(nodes, p, k);
    }
  }

  lemma ChildrenRise(nodes: seq<Node>, p: nat, k: nat, l: nat)
    requires WellFormed(nodes) && p < |nodes| && k < l < |nodes[p].children|
    ensures nodes[p].children[k] < nodes[p].children[l]
  {
    assert ChildrenFit(nodes, p);
    assert ChildAt(nodes, p, l);
  }

  lemma TwinIs(nodes: seq<Node>, id: nat)
    requires WellFormed(nodes) && id < |nodes|
    ensures HasTwin(nodes, id) <==> Twin(nodes, id)
  {
    assert ParentFits(nodes, id);
    if nodes[id].parent.Some? {
      var p, local := nodes[id].parent.value, nodes[id].name.local;
      assert ChildrenFit(nodes, p);
      TwoLocal(nodes, nodes[p].children, local);
      TwinBoth(nodes, id, p);
    }
  }

  lemma TwinBoth(nodes: seq<Node>, id: nat, p: nat)
    requires WellFormed(nodes) && id < |nodes| && p < |nodes| && nodes[id].parent == Some(p) && ChildrenWithin(nodes, p)
    ensures var ids, local := nodes[p].children, nodes[id].name.local;
      Twin(nodes, id) <==> exists k, l :: 0 <= k < l < |ids| && nodes[ids[k]].name.local == local && nodes[ids[l]].name.local == local
  {
    var ids, local := nodes[p].children, nodes[id].name.local;
    SiblingsListed(nodes, p, id);
    var a: nat :| a < |ids| && ids[a] == id;
    if Twin(nodes, id) {
      var other :| 0 <= other < |nodes| && other != id && nodes[other].parent == nodes[id].parent && nodes[other].name.local == local;
      SiblingsListed(nodes, p, other);
      var b: nat :| b < |ids| && ids[b] == other;
      var k, l := if a < b then a else b, if a < b then b else a;
      assert nodes[ids[k]].name.local == local && nodes[ids[l]].name.local == local;
    }
    if k, l :| 0 <= k < l < |ids| && nodes[ids[k]].name.local == local && nodes[ids[l]].name.local == local {
      ChildrenRise(nodes, p, k, l);
      SiblingsListed(nodes, p, ids[k]);
      SiblingsListed(nodes, p, ids[l]);
      var other := if ids[k] == id then ids[l] else ids[k];
      assert nodes[other].parent == nodes[id].parent && other != id;
    }
  }

  /** The earlier children of the node's parent that have its local name. */
  function Earlier(nodes: seq<Node>, id: nat): set<nat>
    requires id < |nodes|
  {
    set o: nat | o < id && nodes[o].parent == nodes[id].parent && nodes[o].name.local == nodes[id].name.local
  }

  /** The listed nodes that have the local name. */
  function Among(nodes: seq<Node>, ids: seq<nat>, local: string): (r: set<nat>)
    requires forall k :: 0 <= k < |ids| ==> ids[k] < |nodes|
    ensures forall o :: o in r <==> o in ids && nodes[o].name.local == local
  {
    if ids == [] then {}
    else
      var n := |ids| - 1;
      assert ids == ids[..n] + [ids[n]];
      Among(nodes, ids[..n], local) + (if nodes[ids[n]].name.local == local then {ids[n]} else {})
  }

  lemma {:induction false} AmongCount(nodes: seq<Node>, ids: seq<nat>, local: string)
    requires forall k :: 0 <= k < |ids| ==> ids[k] < |nodes|
    requires forall k, l :: 0 <= k < l < |ids| ==> ids[k] != ids[l]
    ensures SameLocal(nodes, ids, local) == |Among(nodes, ids, local)|
  {
    if ids != [] {
      AmongCount(nodes, ids[..|ids| - 1], local);
      assert ids[|ids| - 1] !in ids[..|ids| - 1];
    }
  }

  /** A node's number is one more than its earlier siblings of the same local name. */
  lemma NumberIs(nodes: seq<Node>, id: nat)
    requires WellFormed(nodes) && id < |nodes| && nodes[id].parent.Some?
    ensures nodes[id].index == 1 + |Earlier(nodes, id)|
  {
    assert ParentFits(nodes, id);
    var p := nodes[id].parent.value;
    var ids := nodes[p].children;
    assert ChildrenFit(nodes, p);
    SiblingsListed(nodes, p, id);
    var k: nat :| k < |ids| && ids[k] == id;
    assert ChildAt(nodes, p, k);
    forall i, j | 0 <= i < j < k ensures ids[..k][i] != ids[..k][j] { ChildrenRise(nodes, p, i, j); }
    AmongCount(nodes, ids[..k], nodes[id].name.local);
    EarlierListed(nodes, id, p, k);
  }

  lemma EarlierListed(nodes: seq<Node>, id: nat, p: nat, k: nat)
    requires WellFormed(nodes) && id < |nodes| && p < |nodes| && nodes[id].parent == Some(p) && ChildrenWithin(nodes, p)
    requires k < |nodes[p].children| && nodes[p].children[k] == id
    ensures Among(nodes, nodes[p].children[..k], nodes[id].name.local) == Earlier(nodes, id)
  {
    var ids := nodes[p].children;
    forall o: nat ensures o in Among(nodes, ids[..k], nodes[id].name.local) <==> o in Earlier(nodes, id) {
      if o in Earlier(nodes, id) {
        SiblingsListed(nodes, p, o);
        var j: nat :| j < |ids| && ids[j] == o;
        if k < j { ChildrenRise(nodes, p, k, j); }
        assert ids[..k][j] == o;
      }
      if o in Among(nodes, ids[..k], nodes[id].name.local) {
        var j :| 0 <= j < k && ids[..k][j] == o;
        ChildrenRise(nodes, p, j, k);
        SiblingsListed(nodes, p, o);
      }
    }
  }

  /** In every tree that parses a step of a path is the node's local name, with its number among the siblings of that
      name exactly if there are others. */
  lemma StepIs(tokens: seq<Token>, id: nat)
    requires Parsed(tokens).Ok? && id < |Parsed(tokens).value|
    ensures WellFormed(Parsed(tokens).value)
    ensures var nodes := Parsed(tokens).value;
      Segment(nodes, id) == nodes[id].name.local + (if Twin(nodes, id) then "[" + NumberText(1 + |Earlier(nodes, id)|) + "]" else "")
  {
    ParsedForm(tokens);
    StepOf(Parsed(tokens).value, id);
  }

  lemma StepOf(nodes: seq<Node>, id: nat)
    requires WellFormed(nodes) && id < |nodes|
    ensures Segment(nodes, id) == nodes[id].name.local + (if Twin(nodes, id) then "[" + NumberText(1 + |Earlier(nodes, id)|) + "]" else "")
  {
    TwinIs(nodes, id);
    assert ParentFits(nodes, id);
    if id > 0 {
      NumberIs(nodes, id);
      if Earlier(nodes, id) != {} { var o: nat :| o in Earlier(nodes, id); }
    }
  }

  // ---------------------------------------------------------------- which tokens parse

  function Opens(tokens: seq<Token>): nat {
    if tokens == [] then 0 else Opens(tokens[..|tokens| - 1]) + (if tokens[|tokens| - 1].Start? then 1 else 0)
  }

  function Closes(tokens: seq<Token>): nat {
    if tokens == [] then 0 else Closes(tokens[..|tokens| - 1]) + (if tokens[|tokens| - 1].End? then 1 else 0)
  }

  /** Token i may follow the tokens before it: no directive; an element only while fewer than 128 are open and
      fewer than 200000 have been opened, and outside all others only as the first; an end only of an open element. */
  predicate MayCome(tokens: seq<Token>, i: nat)
    requires i < |tokens|
  {
    var begun, ended := Opens(tokens[..i]), Closes(tokens[..i]);
    match tokens[i]
    case Directive => false
    case Start(_) => begun < ended + 128 && begun < 200000 && (begun == ended ==> begun == 0)
    case End => ended < begun
    case _ => true
  }

  ghost predicate AllMayCome(tokens: seq<Token>) { forall i :: 0 <= i < |tokens| ==> MayCome(tokens, i) }

  lemma MayComeFront(tokens: seq<Token>)
    requires tokens != []
    ensures AllMayCome(tokens) <==> AllMayCome(tokens[..|tokens| - 1]) && MayCome(tokens, |tokens| - 1)
  {
    var front := tokens[..|tokens| - 1];
    forall i | 0 <= i < |front| ensures MayCome(front, i) <==> MayCome(tokens, i) { assert front[..i] == tokens[..i]; }
    if AllMayCome(tokens) { forall i | 0 <= i < |front| ensures MayCome(front, i) { assert MayCome(tokens, i); } }
    if AllMayCome(front) && MayCome(tokens, |tokens| - 1) {
      forall i | 0 <= i < |tokens| ensures MayCome(tokens, i) { if i < |front| { assert MayCome(front, i); } }
    }
  }

  lemma StepCounts(s: State, t: Token, begun: nat, ended: nat)
    requires Sane(s) && |s.nodes| == begun && |s.stack| == begun - ended
    ensures Step(s, t).Ok? <==>
      match t
      case Directive => false
      case Start(_) => begun < ended + 128 && begun < 200000 && (begun == ended ==> begun == 0)
      case End => ended < begun
      case _ => true
    ensures Step(s, t).Ok? ==>
      && |Step(s, t).value.nodes| == begun + (if t.Start? then 1 else 0)
      && |Step(s, t).value.stack| == begun - ended + (if t.Start? then 1 else if t.End? then -1 else 0)
  {
  }

  lemma {:induction false} FeedCounts(tokens: seq<Token>)
    ensures Feed(START, tokens).Ok? <==> AllMayCome(tokens)
    ensures Feed(START, tokens).Ok? ==>
      && |Feed(START, tokens).value.nodes| == Opens(tokens)
      && |Feed(START, tokens).value.stack| == Opens(tokens) - Closes(tokens)
  {
    if tokens != [] {
      var front, t := tokens[..|tokens| - 1], tokens[|tokens| - 1];
      FeedCounts(front);
      MayComeFront(tokens);
      assert tokens[..|tokens| - 1] == front;
      if Feed(START, front).Ok? { StepCounts(Feed(START, front).value, t, Opens(front), Closes(front)); }
    }
  }

  /** Tokens parse if and only if each may come where it does, at least one element was opened and all were closed; then
      every element is a node. */
  lemma ParsesExactly(tokens: seq<Token>)
    ensures Parsed(tokens).Ok? <==> AllMayCome(tokens) && Opens(tokens) > 0 && Closes(tokens) == Opens(tokens)
    ensures Parsed(tokens).Ok? ==> |Parsed(tokens).value| == Opens(tokens)
  {
    FeedCounts(tokens);
  }
}
