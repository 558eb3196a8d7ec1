/** The evidence tree of internal/iso20022coverage: a stack machine that builds nodes from XML tokens, the path that
    names a node, and the numbering of transaction containers. Nodes live in one list and point at each other by position. */
module IsoTree {
  import opened Wrappers
  import opened Text

  const MAX_DEPTH := 128
  const MAX_NODES := 200000

  datatype Name = Name(space: string, local: string)

  /** What the decoder yields; Other stands for comments and processing instructions. */
  datatype Token = Start(name: Name) | Chars(text: string) | End | Directive | Other

  datatype Node = Node(name: Name, text: string, children: seq<nat>, parent: Option<nat>, index: nat)

  datatype Error = DirectiveFound | TooDeep | TooManyNodes | SecondRoot | UnexpectedEnd | Incomplete

  /** The nodes so far, the first being the root, and the open elements. */
  datatype State = State(nodes: seq<Node>, stack: seq<nat>)

  const START := State([], [])

  // ---------------------------------------------------------------- text

  /** A node's text once it closes: single spaces between words, none at the ends. */
  function Tidy(s: string): string { Trim(Join(Fields(s), " ")) }

  // ---------------------------------------------------------------- the stack machine

  /** How many of the listed nodes have the local name. */
  function SameLocal(nodes: seq<Node>, ids: seq<nat>, local: string): nat
    requires forall k :: 0 <= k < |ids| ==> ids[k] < |nodes|
  {
    if ids == [] then 0
    else SameLocal(nodes, ids[..|ids| - 1], local) + (if nodes[ids[|ids| - 1]].name.local == local then 1 else 0)
  }

  predicate ChildrenWithin(nodes: seq<Node>, id: nat)
    requires id < |nodes|
  {
    forall k :: 0 <= k < |nodes[id].children| ==> nodes[id].children[k] < |nodes|
  }

  /** Every open element and every child is a node. */
  predicate Sane(s: State) {
    && (forall k :: 0 <= k < |s.stack| ==> s.stack[k] < |s.nodes|)
    && (forall id :: 0 <= id < |s.nodes| ==> ChildrenWithin(s.nodes, id))
  }

  /** The nodes after a new element opens under the given parent. */
  function Opened(nodes: seq<Node>, parent: Option<nat>, name: Name): seq<Node>
    requires parent.Some? ==> parent.value < |nodes| && ChildrenWithin(nodes, parent.value)
  {
    match parent
    case None => nodes + [Node(name, "", [], None, 1)]
    case Some(p) =>
      nodes[p := nodes[p].(children := nodes[p].children + [|nodes|])]
        + [Node(name, "", [], parent, 1 + SameLocal(nodes, nodes[p].children, name.local))]
  }

  function Top(stack: seq<nat>): Option<nat> { if stack == [] then None else Some(stack[|stack| - 1]) }

  function Step(s: State, t: Token): Result<State, Error>
    requires Sane(s)
  {
    match t
    case Directive => Err(DirectiveFound)
    case Other => Ok(s)
    case Start(name) =>
      if |s.stack| >= MAX_DEPTH then Err(TooDeep)
      else if |s.nodes| + 1 > MAX_NODES then Err(TooManyNodes)
      else if s.stack == [] && s.nodes != [] then Err(SecondRoot)
      else Ok(State(Opened(s.nodes, Top(s.stack), name), s.stack + [|s.nodes|]))
    case Chars(text) =>
      if s.stack == [] then Ok(s)
      else
        var b := s.stack[|s.stack| - 1];
        Ok(s.(nodes := s.nodes[b := s.nodes[b].(text := s.nodes[b].text + text)]))
    case End =>
      if s.stack == [] then Err(UnexpectedEnd)
      else
        var b := s.stack[|s.stack| - 1];
        Ok(State(s.nodes[b := s.nodes[b].(text := Tidy(s.nodes[b].text))], s.stack[..|s.stack| - 1]))
  }

  lemma StepSane(s: State, t: Token)
    requires Sane(s) && Step(s, t).Ok?
    ensures Sane(Step(s, t).value)
  {
    var next := Step(s, t).value;
    forall id | 0 <= id < |next.nodes| ensures ChildrenWithin(next.nodes, id) {
      if id < |s.nodes| { assert ChildrenWithin(s.nodes, id); }
    }
  }

  /** The state after the tokens. */
  function Feed(s: State, tokens: seq<Token>): (r: Result<State, Error>)
    requires Sane(s)
    ensures r.Ok? ==> Sane(r.value)
  {
    if tokens == [] then Ok(s)
    else
      match Feed(s, tokens[..|tokens| - 1])
      case Err(error) => Err(error)
      case Ok(before) =>
        var r := Step(before, tokens[|tokens| - 1]);
        assert r.Ok? ==> Sane(r.value) by { if r.Ok? { StepSane(before, tokens[|tokens| - 1]); } }
        r
  }

  /** parseTree: the nodes of the document, root first. */
  function Parsed(tokens: seq<Token>): Result<seq<Node>, Error> {
    match Feed(START, tokens)
    case Err(error) => Err(error)
    case Ok(s) => if s.nodes == [] || s.stack != [] then Err(Incomplete) else Ok(s.nodes)
  }

  class Parser {
    var nodes: seq<Node>
    var stack: seq<nat>

    ghost function Now(): State
      reads this
    {
      State(nodes, stack)
    }

    constructor ()
      ensures Now() == START
    {
      nodes, stack := [], [];
    }

    /** The loop over the siblings of a new element. */
    method CountSiblings(ids: seq<nat>, local: string) returns (n: nat)
      requires forall k :: 0 <= k < |ids| ==> ids[k] < |nodes|
      ensures n == SameLocal(nodes, ids, local)
    {
      n := 0;
      for i := 0 to |ids|
        invariant n == SameLocal(nodes, ids[..i], local)
      {
        assert ids[..i + 1][..i] == ids[..i];
        if nodes[ids[i]].name.local == local { n := n + 1; }
      }
      assert ids[..|ids|] == ids;
    }

    method OpenElement(name: Name)
      requires Sane(Now())
      modifies this
      ensures nodes == Opened(old(nodes), Top(old(stack)), name) && stack == old(stack) + [|old(nodes)|]
    {
      var id := |nodes|;
      if stack != [] {
        var p := stack[|stack| - 1];
        assert ChildrenWithin(nodes, p);
        var same := CountSiblings(nodes[p].children, name.local);
        nodes := nodes[p := nodes[p].(children := nodes[p].children + [id])] + [Node(name, "", [], Some(p), 1 + same)];
      } else {
        nodes := nodes + [Node(name, "", [], None, 1)];
      }
      stack := stack + [id];
    }

    method Accept(t: Token) returns (error: Option<Error>)
      requires Sane(Now())
      modifies this
      ensures Step(old(Now()), t) == (if error.Some? then Err(error.value) else Ok(Now()))
    {
      match t {
        case Directive => return Some(DirectiveFound);
        case Other => return None;
        case Start(name) =>
          if |stack| >= MAX_DEPTH { return Some(TooDeep); }
          if |nodes| + 1 > MAX_NODES { return Some(TooManyNodes); }
          if stack == [] && nodes != [] { return Some(SecondRoot); }
          OpenElement(name);
          return None;
        case Chars(text) =>
          if stack != [] {
            var b := stack[|stack| - 1];
            nodes := nodes[b := nodes[b].(text := nodes[b].text + text)];
          }
          return None;
        case End =>
          if stack == [] { return Some(UnexpectedEnd); }
          var b := stack[|stack| - 1];
          nodes := nodes[b := nodes[b].(text := Tidy(nodes[b].text))];
          stack := stack[..|stack| - 1];
          return None;
      }
    }
  }

  method ParseTree(tokens: seq<Token>) returns (r: Result<seq<Node>, Error>)
    ensures r == Parsed(tokens)
  {
    var parser := new Parser();
    for i := 0 to |tokens|
      invariant fresh(parser) && Feed(START, tokens[..i]) == Ok(parser.Now())
    {
      assert tokens[..i + 1][..i] == tokens[..i];
      var error := parser.Accept(tokens[i]);
      if error.Some? {
        FailsFrom(tokens, i + 1);
        return Err(error.value);
      }
    }
    assert tokens[..|tokens|] == tokens;
    if parser.nodes == [] || parser.stack != [] { return Err(Incomplete); }
    return Ok(parser.nodes);
  }

  lemma {:induction false} FailsFrom(tokens: seq<Token>, n: nat)
    requires n <= |tokens| && Feed(START, tokens[..n]).Err?
    ensures Feed(START, tokens) == Feed(START, tokens[..n])
    decreases |tokens|
  {
    if n == |tokens| {
      assert tokens[..n] == tokens;
    } else {
      assert tokens[..|tokens| - 1][..n] == tokens[..n];
      FailsFrom(tokens[..|tokens| - 1], n);
    }
  }

  // ---------------------------------------------------------------- documents

  /** A document: an element's name and its content in order. */
  datatype Tree = Tree(name: Name, content: Content)

  datatype Content = Empty | WithChild(before: Content, child: Tree) | WithText(before: Content, text: string)

  function Tokens(t: Tree): seq<Token> { [Start(t.name)] + ContentTokens(t.content) + [End] }

  function ContentTokens(c: Content): seq<Token> {
    match c
    case Empty => []
    case WithChild(before, child) => ContentTokens(before) + Tokens(child)
    case WithText(before, text) => ContentTokens(before) + [Chars(text)]
  }

  function Size(t: Tree): nat { 1 + ContentSize(t.content) }

  function ContentSize(c: Content): nat {
    match c
    case Empty => 0
    case WithChild(before, child) => ContentSize(before) + Size(child)
    case WithText(before, _) => ContentSize(before)
  }

  function Depth(t: Tree): nat { 1 + ContentDepth(t.content) }

  function ContentDepth(c: Content): nat {
    match c
    case Empty => 0
    case WithChild(before, child) => if Depth(child) > ContentDepth(before) then Depth(child) else ContentDepth(before)
    case WithText(before, _) => ContentDepth(before)
  }

  /** All the text directly inside the element. */
  function TextOf(c: Content): string {
    match c
    case Empty => ""
    case WithChild(before, _) => TextOf(before)
    case WithText(before, text) => TextOf(before) + text
  }

  /** How many child elements have the local name. */
  function CountLocal(c: Content, local: string): nat {
    match c
    case Empty => 0
    case WithChild(before, child) => CountLocal(before, local) + (if child.name.local == local then 1 else 0)
    case WithText(before, _) => CountLocal(before, local)
  }

  /** Where the child elements' nodes lie when the content's nodes start at base: in document order. */
  function Kids(base: nat, c: Content): seq<nat> {
    match c
    case Empty => []
    case WithChild(before, _) => Kids(base, before) + [base + ContentSize(before)]
    case WithText(before, _) => Kids(base, before)
  }

  /** The nodes from `id` on are the tree, in document order: names, tidied text, children, parents and sibling indexes. */
  predicate Holds(nodes: seq<Node>, id: nat, t: Tree)
    decreases t, 0
  {
    && id + Size(t) <= |nodes|
    && nodes[id].name == t.name && nodes[id].text == Tidy(TextOf(t.content)) && nodes[id].children == Kids(id + 1, t.content)
    && HoldsContent(nodes, id, id + 1, t.content)
  }

  predicate HoldsContent(nodes: seq<Node>, parent: nat, base: nat, c: Content)
    decreases c, 1
  {
    base + ContentSize(c) <= |nodes| &&
    match c
    case Empty => true
    case WithChild(before, child) =>
      var id := base + ContentSize(before);
      && HoldsContent(nodes, parent, base, before) && Holds(nodes, id, child)
      && nodes[id].parent == Some(parent) && nodes[id].index == 1 + CountLocal(before, child.name.local)
    case WithText(before, _) => HoldsContent(nodes, parent, base, before)
  }

  /** Feeding a sequence is feeding its parts one after the other. */
  lemma {:induction false} FeedBoth(s: State, a: seq<Token>, b: seq<Token>)
    requires Sane(s) && Feed(s, a).Ok?
    ensures Feed(s, a + b) == Feed(Feed(s, a).value, b)
  {
    if b == [] {
      assert a + b == a;
    } else {
      var front, t := b[..|b| - 1], b[|b| - 1];
      FeedBoth(s, a, front);
      assert b == front + [t];
      assert a + b == (a + front) + [t];
      FeedLast(s, a + front, t);
      FeedLast(Feed(s, a).value, front, t);
    }
  }

  function StepFrom(r: Result<State, Error>, t: Token): Result<State, Error>
    requires r.Ok? ==> Sane(r.value)
  {
    if r.Err? then r else Step(r.value, t)
  }

  lemma FeedLast(s: State, tokens: seq<Token>, t: Token)
    requires Sane(s)
    ensures Feed(s, tokens + [t]) == StepFrom(Feed(s, tokens), t)
  {
    assert (tokens + [t])[..|tokens|] == tokens;
  }

  lemma FeedOne(s: State, t: Token)
    requires Sane(s)
    ensures Feed(s, [t]) == Step(s, t)
  {
    assert [t][..0] == [];
  }
}
