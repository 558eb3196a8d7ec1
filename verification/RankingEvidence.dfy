/** What each comparison means, what it earns, and which pair of names is reported. */
module RankingEvidence {
  import opened Wrappers
  import opened Ordering
  import opened Text
  import opened CandidateText
  import opened CandidateScoring
  import opened CandidateRanking

  // ---------------------------------------------------------------- names

  /** s is t with text before and after it. */
  ghost predicate Within(t: string, s: string) { exists x, y :: s == x + t + y }

  /** The tokens of a normalized name, in any order and number. */
  predicate IsToken(u: Alphabet, s: string, t: string) { t != "" && t in Fields(NormalizeText(u, s)) }

  ghost predicate SameTokens(u: Alphabet, a: string, b: string) {
    (exists t :: IsToken(u, a, t)) && forall t :: IsToken(u, a, t) <==> IsToken(u, b, t)
  }

  /** The same, particles aside. */
  predicate IsName(u: Alphabet, s: string, t: string) { IsToken(u, s, t) && t !in PARTICLES }

  ghost predicate SameNames(u: Alphabet, a: string, b: string) {
    (exists t :: IsName(u, a, t)) && forall t :: IsName(u, a, t) <==> IsName(u, b, t)
  }

  /** The characters that are not spaces, in order. */
  function Solid(s: string): string { if s == "" then "" else Solid(s[..|s| - 1]) + (if s[|s| - 1] == ' ' then "" else [s[|s| - 1]]) }

  /** The shapes in which two normalized names match, the strongest first. */
  ghost predicate Shape(u: Alphabet, rank: nat, a: string, b: string) {
    match rank
    case 6 => a == b
    case 5 => Solid(a) == Solid(b)
    case 4 => SameTokens(u, a, b)
    case 3 => SameNames(u, a, b)
    case 2 => a <= b || b <= a
    case 1 => Within(a, b) || Within(b, a)
    case _ => false
  }

  /** The rank of the strongest shape, 0 without one. */
  ghost predicate Strongest(u: Alphabet, a: string, b: string, rank: nat) {
    (rank > 0 ==> Shape(u, rank, a, b)) && forall other :: other > rank ==> !Shape(u, other, a, b)
  }

  lemma {:induction false} WithinIs(s: string, t: string)
    ensures ContainsText(s, t) <==> Within(t, s)
  {
    if t <= s {
      assert s == "" + t + s[|t|..];
    } else if s != "" {
      WithinIs(s[1..], t);
      if Within(t, s[1..]) {
        var x, y :| s[1..] == x + t + y;
        assert s == [s[0]] + x + t + y;
        assert s == ([s[0]] + x) + t + y;
      }
      if Within(t, s) {
        var x, y :| s == x + t + y;
        NotPrefix(s, x, t, y);
        assert s[1..] == x[1..] + t + y;
      }
    }
  }

  lemma NotPrefix(s: string, x: string, t: string, y: string)
    requires s == x + t + y && !(t <= s)
    ensures x != ""
  {
  }

  lemma {:induction false} SolidIs(s: string)
    ensures ReplaceSpaces(s, "") == Solid(s)
  {
    if s != "" {
      SolidIs(s[..|s| - 1]);
      ReplaceLast(s[..|s| - 1], s[|s| - 1]);
      assert s == s[..|s| - 1] + [s[|s| - 1]];
    }
  }

  lemma {:induction false} ReplaceLast(s: string, c: char)
    ensures ReplaceSpaces(s + [c], "") == ReplaceSpaces(s, "") + (if c == ' ' then "" else [c])
  {
    if s == "" {
      assert s + [c] == [c];
    } else {
      ReplaceLast(s[1..], c);
      assert (s + [c])[1..] == s[1..] + [c];
    }
  }

  // ---------------------------------------------------------------- lists of tokens

  lemma ListedAre(u: Alphabet, kind: Kind, values: seq<string>)
    ensures var r := UniqueSorted(u, kind, values);
      Ascending(r) && forall x :: x in r <==> x != "" && exists i :: 0 <= i < |values| && Normal(u, kind, values[i]) == x
  {
    SortedAscends(Unique(Kept(u, kind, values)));
  }

  lemma TokensAre(u: Alphabet, s: string)
    ensures Ascending(TokenSet(u, s)) && forall t :: t in TokenSet(u, s) <==> IsToken(u, s, t)
  {
    var fields := Fields(NormalizeText(u, s));
    ListedAre(u, Token, fields);
    forall t ensures t in TokenSet(u, s) <==> IsToken(u, s, t) {
      if IsToken(u, s, t) {
        var i :| 0 <= i < |fields| && fields[i] == t;
        assert Normal(u, Token, fields[i]) == t;
      }
    }
  }

  lemma {:induction false} WithoutAre(tokens: seq<string>)
    requires Ascending(tokens)
    ensures Ascending(WithoutParticles(tokens)) && forall t :: t in WithoutParticles(tokens) <==> t in tokens && t !in PARTICLES
  {
    if tokens != [] {
      assert tokens == [tokens[0]] + tokens[1..];
      assert Ascending(tokens[1..]);
      WithoutAre(tokens[1..]);
      LaterAbove(tokens);
    }
  }

  /** What follows in an ascending list is above its head. */
  lemma LaterAbove(tokens: seq<string>)
    requires Ascending(tokens) && tokens != []
    ensures forall t :: t in tokens[1..] ==> StringLess(tokens[0], t)
  {
    forall t | t in tokens[1..] ensures StringLess(tokens[0], t) {
      var i :| 0 <= i < |tokens[1..]| && tokens[1..][i] == t;
      assert tokens[i + 1] == t;
    }
  }

  lemma EqualMeans(a: seq<string>, b: seq<string>)
    requires Ascending(a) && Ascending(b)
    ensures EqualTokens(a, b) <==> (exists t :: t in a) && forall t :: t in a <==> t in b
  {
    if a != [] { assert a[0] in a; }
    if forall t :: t in a <==> t in b { AscendingSame(a, b); }
  }

  lemma TokensEqual(u: Alphabet, a: string, b: string)
    ensures EqualTokens(TokenSet(u, a), TokenSet(u, b)) <==> SameTokens(u, a, b)
  {
    var x, y := TokenSet(u, a), TokenSet(u, b);
    TokensAre(u, a);
    TokensAre(u, b);
    EqualMeans(x, y);
    SameTokensBy(u, a, b, x, y);
  }

  lemma SameTokensBy(u: Alphabet, a: string, b: string, x: seq<string>, y: seq<string>)
    requires (forall t :: t in x <==> IsToken(u, a, t)) && forall t :: t in y <==> IsToken(u, b, t)
    ensures (exists t :: t in x) && (forall t :: t in x <==> t in y) <==> SameTokens(u, a, b)
  {
  }

  lemma NamesAre(u: Alphabet, s: string)
    ensures var r := WithoutParticles(TokenSet(u, s)); Ascending(r) && forall t :: t in r <==> IsName(u, s, t)
  {
    TokensAre(u, s);
    WithoutAre(TokenSet(u, s));
  }

  lemma NamesEqual(u: Alphabet, a: string, b: string)
    ensures EqualTokens(WithoutParticles(TokenSet(u, a)), WithoutParticles(TokenSet(u, b))) <==> SameNames(u, a, b)
  {
    var x, y := WithoutParticles(TokenSet(u, a)), WithoutParticles(TokenSet(u, b));
    NamesAre(u, a);
    NamesAre(u, b);
    EqualMeans(x, y);
    SameBy(u, a, b, x, y);
  }

  lemma SameBy(u: Alphabet, a: string, b: string, x: seq<string>, y: seq<string>)
    requires (forall t :: t in x <==> IsName(u, a, t)) && forall t :: t in y <==> IsName(u, b, t)
    ensures (exists t :: t in x) && (forall t :: t in x <==> t in y) <==> SameNames(u, a, b)
  {
  }

  /** The shapes as RankOf tests for them. */
  predicate Tested(u: Alphabet, rank: nat, a: string, b: string) {
    match rank
    case 6 => a == b
    case 5 => ReplaceSpaces(a, "") == ReplaceSpaces(b, "")
    case 4 => EqualTokens(TokenSet(u, a), TokenSet(u, b))
    case 3 => EqualTokens(WithoutParticles(TokenSet(u, a)), WithoutParticles(TokenSet(u, b)))
    case 2 => b <= a || a <= b
    case 1 => ContainsText(a, b) || ContainsText(b, a)
    case _ => false
  }

  lemma ShapeTested(u: Alphabet, rank: nat, a: string, b: string)
    ensures Shape(u, rank, a, b) <==> Tested(u, rank, a, b)
  {
    match rank {
      case 5 => SolidIs(a); SolidIs(b);
      case 4 => TokensEqual(u, a, b);
      case 3 => NamesEqual(u, a, b);
      case 1 => WithinIs(a, b); WithinIs(b, a);
      case _ =>
    }
  }

  /** The rank of the first test passed. */
  function FirstPassed(six: bool, five: bool, four: bool, three: bool, two: bool, one: bool): nat {
    if six then 6 else if five then 5 else if four then 4 else if three then 3 else if two then 2 else if one then 1 else 0
  }

  predicate Passed(rank: nat, six: bool, five: bool, four: bool, three: bool, two: bool, one: bool) {
    match rank
    case 6 => six
    case 5 => five
    case 4 => four
    case 3 => three
    case 2 => two
    case 1 => one
    case _ => false
  }

  lemma FirstIsHighest(six: bool, five: bool, four: bool, three: bool, two: bool, one: bool)
    ensures var r := FirstPassed(six, five, four, three, two, one);
      && r <= 6 && (r > 0 ==> Passed(r, six, five, four, three, two, one))
      && forall other: nat :: other > r ==> !Passed(other, six, five, four, three, two, one)
  {
  }

  lemma RankTested(u: Alphabet, a: string, b: string)
    ensures RankOf(u, a, b)
         == FirstPassed(Tested(u, 6, a, b), Tested(u, 5, a, b), Tested(u, 4, a, b), Tested(u, 3, a, b), Tested(u, 2, a, b), Tested(u, 1, a, b))
  {
  }

  lemma TestPassed(u: Alphabet, rank: nat, a: string, b: string)
    ensures Tested(u, rank, a, b)
        <==> Passed(rank, Tested(u, 6, a, b), Tested(u, 5, a, b), Tested(u, 4, a, b), Tested(u, 3, a, b), Tested(u, 2, a, b), Tested(u, 1, a, b))
  {
  }

  lemma FirstTested(u: Alphabet, a: string, b: string, other: nat)
    ensures var r := RankOf(u, a, b);
      r <= 6 && (r > 0 ==> Tested(u, r, a, b)) && (other > r ==> !Tested(u, other, a, b))
  {
    FirstIsHighest(Tested(u, 6, a, b), Tested(u, 5, a, b), Tested(u, 4, a, b), Tested(u, 3, a, b), Tested(u, 2, a, b), Tested(u, 1, a, b));
    RankTested(u, a, b);
    TestPassed(u, RankOf(u, a, b), a, b);
    TestPassed(u, other, a, b);
  }

  /** RankOf is the rank of the strongest shape. */
  lemma RankIs(u: Alphabet, a: string, b: string)
    ensures RankOf(u, a, b) <= 6 && Strongest(u, a, b, RankOf(u, a, b))
  {
    var r := RankOf(u, a, b);
    FirstTested(u, a, b, 0);
    ShapeTested(u, r, a, b);
    forall other: nat | other > r ensures !Shape(u, other, a, b) {
      FirstTested(u, a, b, other);
      ShapeTested(u, other, a, b);
    }
  }

  lemma OneRank(u: Alphabet, a: string, b: string, r: nat, s: nat)
    requires Strongest(u, a, b, r) && Strongest(u, a, b, s)
    ensures r == s
  {
  }

  // ---------------------------------------------------------------- the name reported

  /** Some names of the two sides read so when normalized, neither blank, and match most strongly with this rank. */
  ghost predicate Matches(u: Alphabet, subjects: seq<string>, candidates: seq<string>, m: NameMatch) {
    && m.subject != "" && m.candidate != "" && m.rank > 0 && Strongest(u, m.subject, m.candidate, m.rank)
    && (exists s :: s in subjects && NormalizeText(u, s) == m.subject)
    && (exists c :: c in candidates && NormalizeText(u, c) == m.candidate)
  }

  lemma MatchesAre(u: Alphabet, subjects: seq<string>, candidates: seq<string>, m: NameMatch)
    ensures Matches(u, subjects, candidates, m) <==> m in NameMatches(u, subjects, candidates)
  {
    MatchMembers(u, subjects, candidates, m);
    RankIs(u, m.subject, m.candidate);
    if Matches(u, subjects, candidates, m) {
      var s :| s in subjects && NormalizeText(u, s) == m.subject;
      var c :| c in candidates && NormalizeText(u, c) == m.candidate;
      OneRank(u, m.subject, m.candidate, m.rank, RankOf(u, m.subject, m.candidate));
      assert MatchOf(u, s, c) == Some(m);
      assert IsMatch(u, s, candidates, m);
    }
    if IsSomeMatch(u, subjects, candidates, m) {
      var s :| s in subjects && IsMatch(u, s, candidates, m);
      var c :| c in candidates && MatchOf(u, s, c) == Some(m);
    }
  }

  /** No pair of names matches more strongly than the one reported; of those that match as strongly it is the
      first by text. None is reported exactly if no pair matches. */
  lemma BestNameIs(u: Alphabet, subjects: seq<string>, candidates: seq<string>)
    ensures var best := BestName(u, subjects, candidates);
      && (best.None? <==> forall m :: !Matches(u, subjects, candidates, m))
      && (best.Some? ==>
            && Matches(u, subjects, candidates, best.value)
            && forall m :: Matches(u, subjects, candidates, m) && m != best.value ==>
                 || m.rank < best.value.rank
                 || (m.rank == best.value.rank && StringLess(best.value.subject, m.subject))
                 || (m.rank == best.value.rank && m.subject == best.value.subject && StringLess(best.value.candidate, m.candidate)))
  {
    var ms := NameMatches(u, subjects, candidates);
    forall m ensures Matches(u, subjects, candidates, m) <==> m in ms { MatchesAre(u, subjects, candidates, m); }
    if ms != [] {
      MatchOrder();
      LeastFirst(MatchLess, ms);
      assert Matches(u, subjects, candidates, ms[0]);
    }
  }
}
