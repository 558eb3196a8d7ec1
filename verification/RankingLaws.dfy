/** What scores and rankings owe to their inputs. */
module RankingLaws {
  import opened Wrappers
  import opened Text
  import opened Ordering
  import opened CandidateText
  import opened CandidateScoring
  import opened CandidateRanking

  /** Subjects that differ only in the order and repetition of their lists. */
  ghost predicate AlikeSubjects(a: Subject, b: Subject) {
    && SameMembers(a.names, b.names) && SameMembers(a.identifiers, b.identifiers) && SameMembers(a.countries, b.countries)
    && SameMembers(a.dates, b.dates) && a.entityType == b.entityType
  }

  ghost predicate Alike(a: Envelope, b: Envelope) {
    a.id == b.id && AlikeSubjects(a.subject, b.subject) && SameMembers(a.routes, b.routes) && SameMembers(a.reasons, b.reasons)
  }

  lemma ContributionsForget(u: Alphabet, w: Weights, s1: Subject, c1: Subject, s2: Subject, c2: Subject)
    requires AlikeSubjects(s1, s2) && AlikeSubjects(c1, c2)
    ensures Contributions(u, w, s1, c1) == Contributions(u, w, s2, c2)
  {
    BestIdentifierForgets(u, s1.identifiers, c1.identifiers, s2.identifiers, c2.identifiers);
    BestNameForgets(u, s1.names, c1.names, s2.names, c2.names);
    DatesForget(u, s1.dates, c1.dates, s2.dates, c2.dates);
    CountriesForget(u, s1.countries, c1.countries, s2.countries, c2.countries);
  }

  lemma DatesForget(u: Alphabet, s1: seq<string>, c1: seq<string>, s2: seq<string>, c2: seq<string>)
    requires SameMembers(s1, s2) && SameMembers(c1, c2)
    ensures DateComparison(u, s1, c1) == DateComparison(u, s2, c2)
  {
    UniqueSortedForgets(u, Date, s1, s2);
    UniqueSortedForgets(u, Date, c1, c2);
  }

  lemma CountriesForget(u: Alphabet, s1: seq<string>, c1: seq<string>, s2: seq<string>, c2: seq<string>)
    requires SameMembers(s1, s2) && SameMembers(c1, c2)
    ensures CountryComparison(u, s1, c1) == CountryComparison(u, s2, c2)
  {
    UniqueSortedForgets(u, Country, s1, s2);
    UniqueSortedForgets(u, Country, c1, c2);
  }

  /** A candidate's result does not depend on the order or repetition of any list in it or in the subject. */
  lemma ScoredForgets(u: Alphabet, p: Policy, s1: Subject, s2: Subject, lineage: Lineage, e1: Envelope, e2: Envelope)
    requires AlikeSubjects(s1, s2) && Alike(e1, e2)
    ensures Scored(u, p, s1, lineage, e1) == Scored(u, p, s2, lineage, e2)
  {
    ContributionsForget(u, p.weights, s1, e1.subject, s2, e2.subject);
    BestIdentifierForgets(u, s1.identifiers, e1.subject.identifiers, s2.identifiers, e2.subject.identifiers);
    BestNameForgets(u, s1.names, e1.subject.names, s2.names, e2.subject.names);
    var name := BestName(u, s1.names, e1.subject.names);
    ResultForgets(u, p, lineage, e1, e2, Contributions(u, p.weights, s1, e1.subject),
                  BestIdentifier(u, s1.identifiers, e1.subject.identifiers).Some?, name.Some? && name.value.rank == 6);
  }

  lemma ResultForgets(u: Alphabet, p: Policy, lineage: Lineage, e1: Envelope, e2: Envelope, cs: seq<Contribution>, identifier: bool, name: bool)
    requires Alike(e1, e2)
    ensures ResultOf(u, p, lineage, e1, cs, identifier, name) == ResultOf(u, p, lineage, e2, cs, identifier, name)
  {
    UniqueSortedForgets(u, Reason, e1.reasons, e2.reasons);
    UniqueSortedForgets(u, Reason, e1.routes, e2.routes);
  }

  lemma BeforeStrict()
    ensures Strict(Before)
  {
    forall x ensures !Before(x, x) { StringLessIrreflexive(x.id); }
    forall x, y, z | Before(x, y) && Before(y, z) ensures Before(x, z) {
      if StringLess(x.id, y.id) && StringLess(y.id, z.id) { StringLessTransitive(x.id, y.id, z.id); }
    }
  }

  lemma BeforeOrder(es: seq<CandidateResult>)
    requires forall i, j :: 0 <= i < j < |es| ==> es[i].id != es[j].id
    ensures Strict(Before) && Comparable(Before, es)
  {
    BeforeStrict();
    forall x, y | x in es && y in es && x != y ensures Before(x, y) || Before(y, x) {
      var i :| 0 <= i < |es| && es[i] == x;
      var j :| 0 <= j < |es| && es[j] == y;
      StringLessConnected(x.id, y.id);
    }
  }

  lemma PermutedIds(a: seq<Envelope>, b: seq<Envelope>)
    requires multiset(a) == multiset(b) && DistinctIds(a)
    ensures DistinctIds(b)
  {
    MembersSame(a, b);
    forall i, j | 0 <= i < j < |b| ensures Trim(b[i].id) != Trim(b[j].id) {
      assert b[i] in a && b[j] in a;
      var k :| 0 <= k < |a| && a[k] == b[i];
      var l :| 0 <= l < |a| && a[l] == b[j];
      if k == l { OnceOnly(a, b, k, i, j); }
    }
  }

  lemma OnceOnly(a: seq<Envelope>, b: seq<Envelope>, k: nat, i: nat, j: nat)
    requires multiset(a) == multiset(b) && k < |a| && i < j < |b| && b[i] == b[j] == a[k]
    ensures !DistinctIds(a)
  {
    WithoutAt(b, j);
    WithoutAt(a, k);
    assert (b[..j] + b[j + 1..])[i] == b[i];
    var rest := a[..k] + a[k + 1..];
    assert multiset(b)[b[i]] >= 2;
    assert a[k] in multiset(rest);
    var l :| 0 <= l < |rest| && rest[l] == a[k];
    assert a[if l < k then l else l + 1] == a[k];
  }

  /** The ranking does not depend on order: permute the candidates, and reorder or repeat entries in any list of
      theirs or of the subject, and the ranked results, or the refusal, stay the same. */
  lemma RankingOrderFree(u: Alphabet, p: Policy, r1: Request, r2: Request, arranged: seq<Envelope>)
    requires r2.header == r1.header && r2.lineage == r1.lineage && AlikeSubjects(r1.subject, r2.subject)
    requires |arranged| == |r1.candidates| && forall i :: 0 <= i < |arranged| ==> Alike(r1.candidates[i], arranged[i])
    requires multiset(arranged) == multiset(r2.candidates)
    ensures Ranked(u, p, r1) == Ranked(u, p, r2)
  {
    SameRefusal(p, r1, r2, arranged);
    if RequestOk(p, r1) && DistinctIds(r1.candidates) { SameRanking(u, p, r1, r2, arranged); }
  }

  lemma SameRefusal(p: Policy, r1: Request, r2: Request, arranged: seq<Envelope>)
    requires r2.header == r1.header && r2.lineage == r1.lineage
    requires |arranged| == |r1.candidates| && forall i :: 0 <= i < |arranged| ==> r1.candidates[i].id == arranged[i].id
    requires multiset(arranged) == multiset(r2.candidates)
    ensures RequestOk(p, r1) == RequestOk(p, r2) && DistinctIds(r1.candidates) == DistinctIds(r2.candidates)
  {
    MembersSame(arranged, r2.candidates);
    BlankIds(arranged, r2.candidates);
    if DistinctIds(arranged) { PermutedIds(arranged, r2.candidates); }
    if DistinctIds(r2.candidates) { PermutedIds(r2.candidates, arranged); }
    assert DistinctIds(arranged) == DistinctIds(r1.candidates);
  }

  lemma BlankIds(a: seq<Envelope>, b: seq<Envelope>)
    requires multiset(a) == multiset(b)
    ensures (forall i :: 0 <= i < |a| ==> !IsBlank(a[i].id)) <==> (forall i :: 0 <= i < |b| ==> !IsBlank(b[i].id))
  {
    MembersSame(a, b);
    if forall i :: 0 <= i < |a| ==> !IsBlank(a[i].id) {
      forall i | 0 <= i < |b| ensures !IsBlank(b[i].id) { assert b[i] in a; }
    }
    if forall i :: 0 <= i < |b| ==> !IsBlank(b[i].id) {
      forall i | 0 <= i < |a| ensures !IsBlank(a[i].id) { assert a[i] in b; }
    }
  }

  lemma SameRanking(u: Alphabet, p: Policy, r1: Request, r2: Request, arranged: seq<Envelope>)
    requires r2.lineage == r1.lineage && AlikeSubjects(r1.subject, r2.subject) && DistinctIds(r1.candidates)
    requires |arranged| == |r1.candidates| && forall i :: 0 <= i < |arranged| ==> Alike(r1.candidates[i], arranged[i])
    requires multiset(arranged) == multiset(r2.candidates)
    ensures SortBy(Before, ScoredAll(u, p, r1.subject, r1.lineage, r1.candidates))
         == SortBy(Before, ScoredAll(u, p, r2.subject, r2.lineage, r2.candidates))
  {
    var xs, ys := ScoredAll(u, p, r1.subject, r1.lineage, r1.candidates), ScoredAll(u, p, r2.subject, r2.lineage, r2.candidates);
    SameScores(u, p, r1.subject, r2.subject, r1.lineage, r1.candidates, arranged);
    MappedPermuted(Scorer(u, p, r2.subject, r2.lineage), arranged, r2.candidates);
    ResultIds(u, p, r1.subject, r1.lineage, r1.candidates);
    SameOrder(xs, ys);
  }

  lemma SameScores(u: Alphabet, p: Policy, s1: Subject, s2: Subject, lineage: Lineage, a: seq<Envelope>, b: seq<Envelope>)
    requires AlikeSubjects(s1, s2) && |a| == |b| && forall i :: 0 <= i < |a| ==> Alike(a[i], b[i])
    ensures ScoredAll(u, p, s1, lineage, a) == ScoredAll(u, p, s2, lineage, b)
  {
    forall i | 0 <= i < |a| ensures ScoredAll(u, p, s1, lineage, a)[i] == ScoredAll(u, p, s2, lineage, b)[i] {
      ScoredForgets(u, p, s1, s2, lineage, a[i], b[i]);
    }
  }

  lemma ResultIds(u: Alphabet, p: Policy, s: Subject, lineage: Lineage, es: seq<Envelope>)
    requires DistinctIds(es)
    ensures var xs := ScoredAll(u, p, s, lineage, es); forall i, j :: 0 <= i < j < |xs| ==> xs[i].id != xs[j].id
  {
    var xs := ScoredAll(u, p, s, lineage, es);
    forall i, j | 0 <= i < j < |xs| ensures xs[i].id != xs[j].id {
      ScoredId(u, p, s, lineage, es[i]);
      ScoredId(u, p, s, lineage, es[j]);
      assert Trim(es[i].id) != Trim(es[j].id);
    }
  }

  lemma ScoredId(u: Alphabet, p: Policy, s: Subject, lineage: Lineage, e: Envelope)
    ensures Scorer(u, p, s, lineage)(e).id == e.id
  {
  }

  lemma SameOrder(xs: seq<CandidateResult>, ys: seq<CandidateResult>)
    requires (forall i, j :: 0 <= i < j < |xs| ==> xs[i].id != xs[j].id) && multiset(xs) == multiset(ys)
    ensures SortBy(Before, xs) == SortBy(Before, ys)
  {
    BeforeOrder(xs);
    SortForgetsOrder(Before, xs, ys);
  }

  /** A score is the sum of its components clamped to the policy's bounds, and the evidence is bounded. */
  lemma ScoreIsClampedSum(u: Alphabet, p: Policy, s: Subject, lineage: Lineage, e: Envelope)
    requires PolicyOk(p)
    ensures var r := Scored(u, p, s, lineage, e);
      && p.floor <= r.score <= p.ceiling && |r.evidence| <= p.maxEvidence
      && (p.floor <= SumOf(r.components) <= p.ceiling ==> r.score == SumOf(r.components))
      && (SumOf(r.components) < p.floor ==> r.score == p.floor) && (SumOf(r.components) > p.ceiling ==> r.score == p.ceiling)
      && (forall c :: c in r.components ==> c.points != 0)
  {
    NoneZero(Contributions(u, p.weights, s, e.subject));
  }

  lemma {:induction false} NoneZero(cs: seq<Contribution>)
    ensures forall c :: c in ComponentsOf(cs) ==> c.points != 0
  {
    if cs != [] { NoneZero(cs[..|cs| - 1]); }
  }

  /** The ranking lists every candidate once, best first. */
  lemma RankingSorted(u: Alphabet, p: Policy, r: Request, ranked: seq<CandidateResult>)
    requires Ranked(u, p, r) == Ok(ranked)
    ensures multiset(ranked) == multiset(ScoredAll(u, p, r.subject, r.lineage, r.candidates))
    ensures BestFirst(ranked)
  {
    SortedScores(ScoredAll(u, p, r.subject, r.lineage, r.candidates));
  }

  /** Scores never rise along the list; among equal scores those with an exact identifier come first, then those
      with an exact name, then in the order of ids. */
  ghost predicate BestFirst(rs: seq<CandidateResult>) { forall i, j :: 0 <= i < j < |rs| ==> NotBehind(rs[i], rs[j]) }

  predicate NotBehind(a: CandidateResult, b: CandidateResult) {
    && a.score >= b.score
    && (a.score == b.score ==> b.exactIdentifier ==> a.exactIdentifier)
    && (a.score == b.score && a.exactIdentifier == b.exactIdentifier ==> b.exactName ==> a.exactName)
    && (a.score == b.score && a.exactIdentifier == b.exactIdentifier && a.exactName == b.exactName ==> !StringLess(b.id, a.id))
  }

  lemma SortedScores(xs: seq<CandidateResult>)
    ensures BestFirst(SortBy(Before, xs))
  {
    BeforeStrict();
    SortSorted(Before, xs);
  }
}
