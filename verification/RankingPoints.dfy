/** What every comparison finds, what it earns, and what becomes of the points. */
module RankingPoints {
  import opened Wrappers
  import opened Ordering
  import opened Text
  import opened CandidateText
  import opened CandidateScoring
  import opened CandidateRanking
  import opened RankingEvidence

  // ---------------------------------------------------------------- dates

  /** The dates among the values, in order and each once: trimmed, and of four bytes or more. */
  ghost predicate DatesOf(values: seq<string>, dates: seq<string>) {
    && Ascending(dates)
    && forall d :: d in dates <==> |Bytes(d)| >= 4 && exists i :: 0 <= i < |values| && Trim(values[i]) == d
  }

  /** A date of either side: the same date, or dates of one year. */
  predicate Test(exact: bool, a: string, b: string) { if exact then a == b else OneYear(a, b) }

  predicate Pair(exact: bool, s: seq<string>, c: seq<string>, a: string, b: string) { a in s && b in c && Test(exact, a, b) }

  ghost predicate NoPair(exact: bool, s: seq<string>, c: seq<string>) { forall a, b :: !Pair(exact, s, c, a, b) }

  /** The first such pair by text. */
  ghost predicate FirstOfPairs(exact: bool, s: seq<string>, c: seq<string>, a: string, b: string) {
    && Pair(exact, s, c, a, b)
    && forall x, y :: Pair(exact, s, c, x, y) && (x, y) != (a, b) ==> StringLess(a, x) || (x == a && StringLess(b, y))
  }

  ghost predicate First(xs: seq<string>, x: string) { x in xs && forall y :: y in xs ==> y == x || StringLess(x, y) }

  /** A shared date, else one year, else a conflict of the first dates; nothing if a side has none. */
  ghost predicate DatesCompare(s: seq<string>, c: seq<string>, r: Comparison) {
    match r
    case NoComparison => s == [] || c == []
    case Exact(a, b) => FirstOfPairs(true, s, c, a, b)
    case SameYear(a, b) => NoPair(true, s, c) && FirstOfPairs(false, s, c, a, b)
    case Conflict(a, b) => NoPair(true, s, c) && NoPair(false, s, c) && First(s, a) && First(c, b)
  }

  lemma DatesListed(u: Alphabet, values: seq<string>)
    ensures DatesOf(values, UniqueSorted(u, Date, values))
  {
    var r := UniqueSorted(u, Date, values);
    ListedAre(u, Date, values);
    forall d ensures d in r <==> |Bytes(d)| >= 4 && exists i :: 0 <= i < |values| && Trim(values[i]) == d {
      if i :| 0 <= i < |values| && Trim(values[i]) == d && |Bytes(d)| >= 4 { assert Normal(u, Date, values[i]) == d; }
      if d in r {
        var i :| 0 <= i < |values| && Normal(u, Date, values[i]) == d;
        assert Trim(values[i]) == d;
      }
    }
  }

  lemma HeadOrRest(xs: seq<string>)
    requires xs != []
    ensures forall x :: x in xs <==> x == xs[0] || x in xs[1..]
    ensures Ascending(xs) ==> Ascending(xs[1..])
  {
    assert xs == [xs[0]] + xs[1..];
  }

  lemma {:induction false} FirstInIs(exact: bool, a: string, c: seq<string>)
    requires Ascending(c)
    ensures var r := FirstIn(exact, a, c);
      && (r.None? <==> forall y :: y in c ==> !Test(exact, a, y))
      && (r.Some? ==> r.value in c && Test(exact, a, r.value)
                      && forall y :: y in c && Test(exact, a, y) ==> y == r.value || StringLess(r.value, y))
  {
    if c != [] {
      HeadOrRest(c);
      LaterAbove(c);
      FirstInIs(exact, a, c[1..]);
      assert c[0] in c;
    }
  }

  lemma {:induction false} FirstPairIs(exact: bool, s: seq<string>, c: seq<string>)
    requires Ascending(s) && Ascending(c)
    ensures var r := FirstPair(exact, s, c);
      && (r.None? <==> forall x, y :: x in s && y in c ==> !Test(exact, x, y))
      && (r.Some? ==> r.value.0 in s && r.value.1 in c && Test(exact, r.value.0, r.value.1)
                      && forall x, y :: x in s && y in c && Test(exact, x, y) && (x, y) != r.value
                           ==> StringLess(r.value.0, x) || (x == r.value.0 && StringLess(r.value.1, y)))
  {
    if s != [] {
      HeadOrRest(s);
      LaterAbove(s);
      FirstInIs(exact, s[0], c);
      FirstPairIs(exact, s[1..], c);
      assert s[0] in s;
    }
  }

  lemma PairsFound(exact: bool, s: seq<string>, c: seq<string>)
    requires Ascending(s) && Ascending(c)
    ensures var r := FirstPair(exact, s, c);
      (r.None? <==> NoPair(exact, s, c)) && (r.Some? ==> FirstOfPairs(exact, s, c, r.value.0, r.value.1))
  {
    FirstPairIs(exact, s, c);
    var r := FirstPair(exact, s, c);
    if r.Some? {
      PairFirst(exact, s, c, r.value.0, r.value.1);
    } else {
      forall a, b ensures !Pair(exact, s, c, a, b) {
        if a in s && b in c { assert !Test(exact, a, b); }
      }
    }
  }

  lemma PairFirst(exact: bool, s: seq<string>, c: seq<string>, a: string, b: string)
    requires a in s && b in c && Test(exact, a, b)
    requires forall x, y :: x in s && y in c && Test(exact, x, y) && (x, y) != (a, b) ==> StringLess(a, x) || (x == a && StringLess(b, y))
    ensures FirstOfPairs(exact, s, c, a, b) && !NoPair(exact, s, c)
  {
    assert Pair(exact, s, c, a, b);
    forall x, y | Pair(exact, s, c, x, y) && (x, y) != (a, b) ensures StringLess(a, x) || (x == a && StringLess(b, y)) {
      assert x in s && y in c && Test(exact, x, y);
    }
  }

  /** The head of an ascending list is its least member. */
  lemma HeadIsFirst(xs: seq<string>)
    requires Ascending(xs) && xs != []
    ensures First(xs, xs[0])
  {
    HeadOrRest(xs);
    LaterAbove(xs);
  }

  /** The dates of both sides compare as described. */
  lemma DatesAre(u: Alphabet, subject: seq<string>, candidate: seq<string>) returns (s: seq<string>, c: seq<string>)
    ensures DatesOf(subject, s) && DatesOf(candidate, c) && DatesCompare(s, c, DateComparison(u, subject, candidate))
  {
    s, c := UniqueSorted(u, Date, subject), UniqueSorted(u, Date, candidate);
    DatesListed(u, subject);
    DatesListed(u, candidate);
    PairsFound(true, s, c);
    PairsFound(false, s, c);
    if s != [] && c != [] {
      HeadIsFirst(s);
      HeadIsFirst(c);
    }
  }

  // ---------------------------------------------------------------- countries

  /** The country codes among the values, in order and each once: normalized, without spaces, not blank. */
  ghost predicate CodesOf(u: Alphabet, values: seq<string>, codes: seq<string>) {
    && Ascending(codes)
    && forall x :: x in codes <==> x != "" && exists i :: 0 <= i < |values| && Solid(NormalizeText(u, values[i])) == x
  }

  /** The first shared country, else a conflict of the first ones; nothing if a side has none. */
  ghost predicate CountriesCompare(s: seq<string>, c: seq<string>, r: Comparison) {
    match r
    case NoComparison => s == [] || c == []
    case Exact(a, b) => a == b && a in s && a in c && forall x :: x in s && x in c ==> x == a || StringLess(a, x)
    case SameYear(_, _) => false
    case Conflict(a, b) => (forall x :: x in s ==> x !in c) && First(s, a) && First(c, b)
  }

  lemma CodesListed(u: Alphabet, values: seq<string>)
    ensures CodesOf(u, values, UniqueSorted(u, Country, values))
  {
    ListedAre(u, Country, values);
    forall i | 0 <= i < |values| ensures Normal(u, Country, values[i]) == Solid(NormalizeText(u, values[i])) {
      SolidIs(NormalizeText(u, values[i]));
    }
  }

  lemma {:induction false} FirstSharedIs(s: seq<string>, c: seq<string>)
    requires Ascending(s)
    ensures var r := FirstShared(s, c);
      && (r.None? <==> forall x :: x in s ==> x !in c)
      && (r.Some? ==> r.value in s && r.value in c && forall x :: x in s && x in c ==> x == r.value || StringLess(r.value, x))
  {
    if s != [] {
      HeadOrRest(s);
      LaterAbove(s);
      FirstSharedIs(s[1..], c);
      assert s[0] in s;
    }
  }

  /** So do the countries. */
  lemma CountriesAre(u: Alphabet, subject: seq<string>, candidate: seq<string>) returns (s: seq<string>, c: seq<string>)
    ensures CodesOf(u, subject, s) && CodesOf(u, candidate, c) && CountriesCompare(s, c, CountryComparison(u, subject, candidate))
  {
    s, c := UniqueSorted(u, Country, subject), UniqueSorted(u, Country, candidate);
    CodesListed(u, subject);
    CodesListed(u, candidate);
    FirstSharedIs(s, c);
    if s != [] && c != [] {
      HeadIsFirst(s);
      HeadIsFirst(c);
    }
  }

  // ---------------------------------------------------------------- identifiers

  /** A typed identifier among the given ones, normalized: neither part is blank. */
  ghost predicate Typed(u: Alphabet, ids: seq<Identifier>, k: Identifier) {
    && k.kind != "" && k.value != ""
    && exists i :: i in ids && ReplaceSpaces(NormalizeText(u, i.kind), "_") == k.kind && Solid(NormalizeText(u, i.value)) == k.value
  }

  /** The least identifier both sides have, by type and value; none if they share none. */
  ghost predicate IdentifierIs(u: Alphabet, s: seq<Identifier>, c: seq<Identifier>, r: Option<Identifier>) {
    if r.None? then forall k :: !(Typed(u, s, k) && Typed(u, c, k))
    else
      && Typed(u, s, r.value) && Typed(u, c, r.value)
      && forall k :: Typed(u, s, k) && Typed(u, c, k) && k != r.value ==>
           StringLess(r.value.kind, k.kind) || (k.kind == r.value.kind && StringLess(r.value.value, k.value))
  }

  lemma TypedIs(u: Alphabet, ids: seq<Identifier>, k: Identifier)
    ensures Typed(u, ids, k) <==> CompleteKey(k) && HasKey(u, ids, k)
  {
    forall i | i in ids ensures Compact(u, i.value) == Solid(NormalizeText(u, i.value)) { SolidIs(NormalizeText(u, i.value)); }
  }

  lemma IdentifiersAre(u: Alphabet, s: seq<Identifier>, c: seq<Identifier>)
    ensures IdentifierIs(u, s, c, BestIdentifier(u, s, c))
  {
    var shared := CandidateScoring.Shared(u, s, KeysOf(u, c));
    forall k ensures k in shared <==> Typed(u, s, k) && Typed(u, c, k) {
      SharedAre(u, s, KeysOf(u, c), k);
      KeysAre(u, c, k);
      TypedIs(u, s, k);
      TypedIs(u, c, k);
    }
    if shared != [] {
      IdentifierOrder();
      LeastFirst(IdentifierLess, shared);
    } else {
      assert forall k :: k !in shared;
    }
  }

  // ---------------------------------------------------------------- what the outcomes earn

  /** What a name match of each rank earns, and is called. */
  function NamePoints(w: Weights, rank: nat): int {
    match rank
    case 1 => w.nameContainment
    case 2 => w.namePrefix
    case 3 => w.nameParticle
    case 4 => w.nameTokenSet
    case 5 => w.nameConcatenation
    case 6 => w.nameExact
    case _ => 0
  }

  function NameReason(rank: nat): string {
    match rank
    case 1 => "name_containment"
    case 2 => "name_prefix"
    case 3 => "name_particle_stripped"
    case 4 => "name_token_set_exact"
    case 5 => "name_concatenation_normalized"
    case 6 => "name_exact"
    case _ => ""
  }

  predicate NameEarns(w: Weights, best: Option<NameMatch>, part: seq<Contribution>) {
    if best.None? then part == []
    else part == [Contribution("name", NamePoints(w, best.value.rank), NameReason(best.value.rank), true, best.value.subject, best.value.candidate)]
  }

  predicate IdentifierEarns(w: Weights, best: Option<Identifier>, part: seq<Contribution>) {
    if best.None? then part == []
    else
      |part| == 1 && part[0].component == "typed_identifier" && part[0].points == w.identifier && part[0].reason == "typed_identifier_exact"
      && part[0].support && part[0].subject == part[0].candidate == best.value.kind + ":" + best.value.value
  }

  predicate DateEarns(w: Weights, r: Comparison, part: seq<Contribution>) {
    match r
    case NoComparison => part == []
    case _ =>
      && |part| == 1 && part[0].component == "date_of_birth" && part[0].subject == r.subject && part[0].candidate == r.candidate
      && (part[0].support <==> !r.Conflict?)
      && part[0].points == (if r.Conflict? then w.dobConflict else if r.SameYear? then w.dobYear else w.dobExact)
      && part[0].reason == (if r.Conflict? then "date_of_birth_conflict" else if r.SameYear? then "date_of_birth_year_exact" else "date_of_birth_exact")
  }

  predicate CountryEarns(w: Weights, r: Comparison, part: seq<Contribution>) {
    if !r.Exact? && !r.Conflict? then part == []
    else
      && |part| == 1 && part[0].component == "country" && part[0].subject == r.subject && part[0].candidate == r.candidate
      && (part[0].support <==> r.Exact?)
      && part[0].points == (if r.Exact? then w.country else w.countryConflict)
      && part[0].reason == (if r.Exact? then "country_exact" else "country_conflict")
  }

  predicate TypeEarns(w: Weights, a: string, b: string, part: seq<Contribution>) {
    if a == "" || b == "" then part == []
    else
      && |part| == 1 && part[0].component == "entity_type" && part[0].subject == a && part[0].candidate == b
      && (part[0].support <==> a == b)
      && part[0].points == (if a == b then w.entityType else w.entityTypeConflict)
      && part[0].reason == (if a == b then "entity_type_exact" else "entity_type_conflict")
  }

  /** The contributions of a candidate are what its five comparisons earn, in this order. */
  ghost predicate Earned(w: Weights, i: Option<Identifier>, n: Option<NameMatch>, d: Comparison, c: Comparison, a: string, b: string, cs: seq<Contribution>) {
    exists p, q, r, s, t ::
      && IdentifierEarns(w, i, p) && NameEarns(w, n, q) && DateEarns(w, d, r) && CountryEarns(w, c, s) && TypeEarns(w, a, b, t)
      && cs == p + q + r + s + t
  }

  lemma PartsEarned(w: Weights, i: Option<Identifier>, n: Option<NameMatch>, d: Comparison, c: Comparison, a: string, b: string)
    requires n.Some? ==> 1 <= n.value.rank <= 6
    ensures Earned(w, i, n, d, c, a, b, PartsOf(w, i, n, d, c, a, b))
  {
    assert IdentifierEarns(w, i, IdentifierPart(w, i)) && NameEarns(w, n, NamePart(w, n)) && DateEarns(w, d, DatePart(w, d));
    assert CountryEarns(w, c, CountryPart(w, c)) && TypeEarns(w, a, b, EntityPart(w, a, b));
  }

  /** What a candidate's contributions rest on: the best name match, the shared identifier, and how dates, countries and types compare. */
  lemma ContributionsAre(u: Alphabet, w: Weights, s: Subject, c: Subject)
    ensures Earned(w, BestIdentifier(u, s.identifiers, c.identifiers), BestName(u, s.names, c.names), DateComparison(u, s.dates, c.dates),
      CountryComparison(u, s.countries, c.countries), EntityType(u, s.entityType), EntityType(u, c.entityType), Contributions(u, w, s, c))
  {
    var n := BestName(u, s.names, c.names);
    BestNameIs(u, s.names, c.names);
    if n.Some? { RankBound(u, n.value); }
    PartsEarned(w, BestIdentifier(u, s.identifiers, c.identifiers), n, DateComparison(u, s.dates, c.dates),
      CountryComparison(u, s.countries, c.countries), EntityType(u, s.entityType), EntityType(u, c.entityType));
  }

  lemma RankBound(u: Alphabet, m: NameMatch)
    requires m.rank > 0 && Strongest(u, m.subject, m.candidate, m.rank)
    ensures 1 <= m.rank <= 6
  {
    assert Shape(u, m.rank, m.subject, m.candidate);
  }

  // ---------------------------------------------------------------- the result

  function Points(cs: seq<Contribution>): int { if cs == [] then 0 else cs[0].points + Points(cs[1..]) }

  lemma {:induction false} PointsLast(cs: seq<Contribution>, c: Contribution)
    ensures Points(cs + [c]) == Points(cs) + c.points
  {
    if cs == [] {
      assert cs + [c] == [c];
    } else {
      assert (cs + [c])[1..] == cs[1..] + [c];
      PointsLast(cs[1..], c);
    }
  }

  lemma {:induction false} ComponentsSum(cs: seq<Contribution>)
    ensures SumOf(ComponentsOf(cs)) == Points(cs)
  {
    if cs != [] {
      var front, last := cs[..|cs| - 1], cs[|cs| - 1];
      assert cs == front + [last];
      ComponentsSum(front);
      PointsLast(front, last);
      if last.points != 0 {
        assert ComponentsOf(cs)[..|ComponentsOf(cs)| - 1] == ComponentsOf(front);
      } else {
        assert ComponentsOf(front) + [] == ComponentsOf(front);
      }
    }
  }

  /** The components are the contributions that score, in order. */
  predicate Scoring(cs: seq<Contribution>, components: seq<Component>) {
    if cs == [] then components == []
    else if cs[0].points == 0 then Scoring(cs[1..], components)
    else
      && components != [] && components[0] == Component(cs[0].component, cs[0].points, cs[0].reason)
      && Scoring(cs[1..], components[1..])
  }

  lemma {:induction false} ScoringMore(cs: seq<Contribution>, components: seq<Component>, c: Contribution)
    requires Scoring(cs, components)
    ensures Scoring(cs + [c], components + (if c.points != 0 then [Component(c.component, c.points, c.reason)] else []))
  {
    var more := components + (if c.points != 0 then [Component(c.component, c.points, c.reason)] else []);
    if cs == [] {
      assert cs + [c] == [c];
    } else {
      assert (cs + [c])[1..] == cs[1..] + [c];
      if cs[0].points == 0 {
        ScoringMore(cs[1..], components, c);
      } else {
        ScoringMore(cs[1..], components[1..], c);
        assert more[1..] == components[1..] + (if c.points != 0 then [Component(c.component, c.points, c.reason)] else []);
      }
    }
  }

  lemma {:induction false} ComponentsScoring(cs: seq<Contribution>)
    ensures Scoring(cs, ComponentsOf(cs))
  {
    if cs != [] {
      var front, last := cs[..|cs| - 1], cs[|cs| - 1];
      assert cs == front + [last];
      ComponentsScoring(front);
      ScoringMore(front, ComponentsOf(front), last);
      assert ComponentsOf(front) + [] == ComponentsOf(front);
    }
  }

  /** The band of a score. */
  predicate InBand(score: int, p: Policy, band: string) {
    && (band == "strong_candidate" <==> score >= p.strong)
    && (band == "review_candidate" <==> p.review <= score < p.strong)
    && (band == "weak_candidate" <==> p.weak <= score < p.review)
    && (band == "no_candidate_support" <==> score < p.weak)
  }

  /** The score lies within the policy's bounds and as near to the total as they allow. */
  predicate Bounded(total: int, p: Policy, score: int) {
    && p.floor <= score <= p.ceiling
    && (score < total ==> score == p.ceiling) && (score > total ==> score == p.floor)
  }

  /** The result for a candidate: its contributions, in evidence as far as the policy has room; those that score as
      components; their total within bounds as its score, with the band; and whether an identifier and a name match exactly. */
  lemma ResultIs(u: Alphabet, p: Policy, s: Subject, lineage: Lineage, e: Envelope) returns (cs: seq<Contribution>)
    requires PolicyOk(p)
    ensures Earned(p.weights, BestIdentifier(u, s.identifiers, e.subject.identifiers), BestName(u, s.names, e.subject.names),
      DateComparison(u, s.dates, e.subject.dates), CountryComparison(u, s.countries, e.subject.countries),
      EntityType(u, s.entityType), EntityType(u, e.subject.entityType), cs)
    ensures Rests(p, cs, Scored(u, p, s, lineage, e)) && Scored(u, p, s, lineage, e).id == e.id && Scored(u, p, s, lineage, e).lineage == lineage
  {
    cs := Contributions(u, p.weights, s, e.subject);
    ContributionsAre(u, p.weights, s, e.subject);
    ResultRests(u, p, lineage, e, cs, BestIdentifier(u, s.identifiers, e.subject.identifiers).Some?,
                BestName(u, s.names, e.subject.names).Some? && BestName(u, s.names, e.subject.names).value.rank == 6);
  }

  /** The result rests on these contributions. */
  predicate Rests(p: Policy, cs: seq<Contribution>, r: CandidateResult) {
    && Scoring(cs, r.components) && Bounded(Points(cs), p, r.score) && InBand(r.score, p, r.band)
    && r.evidence <= cs && |r.evidence| == (if |cs| < p.maxEvidence then |cs| else p.maxEvidence)
  }

  lemma ResultRests(u: Alphabet, p: Policy, lineage: Lineage, e: Envelope, cs: seq<Contribution>, identifier: bool, name: bool)
    requires PolicyOk(p)
    ensures Rests(p, cs, ResultOf(u, p, lineage, e, cs, identifier, name))
  {
    var r := ResultOf(u, p, lineage, e, cs, identifier, name);
    RestsOn(p, cs, r.components, r.score, r.band, r.evidence);
  }

  lemma RestsOn(p: Policy, cs: seq<Contribution>, components: seq<Component>, score: int, band: string, evidence: seq<Contribution>)
    requires PolicyOk(p) && components == ComponentsOf(cs) && evidence == FirstItems(cs, p.maxEvidence)
    requires score == Clamped(SumOf(ComponentsOf(cs)), p) && band == Band(score, p)
    ensures Scoring(cs, components) && Bounded(Points(cs), p, score) && InBand(score, p, band)
    ensures evidence <= cs && |evidence| == (if |cs| < p.maxEvidence then |cs| else p.maxEvidence)
  {
    ComponentsSum(cs);
    ComponentsScoring(cs);
    BandIs(score, p);
  }

  lemma BandIs(score: int, p: Policy)
    requires PolicyOk(p)
    ensures InBand(score, p, Band(score, p))
  {
  }

  /** A candidate is marked exact on an identifier exactly if it shares one, and on the name exactly if two names are
      the same when normalized. */
  lemma ExactlyMarked(u: Alphabet, p: Policy, s: Subject, lineage: Lineage, e: Envelope)
    ensures var r := Scored(u, p, s, lineage, e);
      && (r.exactIdentifier <==> exists k :: Typed(u, s.identifiers, k) && Typed(u, e.subject.identifiers, k))
      && (r.exactName <==> exists x, y :: x in s.names && y in e.subject.names && NormalizeText(u, x) == NormalizeText(u, y) != "")
  {
    IdentifiersAre(u, s.identifiers, e.subject.identifiers);
    ExactNameIs(u, s.names, e.subject.names);
  }

  lemma ExactNameIs(u: Alphabet, subjects: seq<string>, candidates: seq<string>)
    ensures var best := BestName(u, subjects, candidates);
      (best.Some? && best.value.rank == 6) <==>
      exists x, y :: x in subjects && y in candidates && NormalizeText(u, x) == NormalizeText(u, y) != ""
  {
    BestNameIs(u, subjects, candidates);
    if x, y :| x in subjects && y in candidates && NormalizeText(u, x) == NormalizeText(u, y) != "" {
      var m := NameMatch(6, NormalizeText(u, x), NormalizeText(u, y));
      ExactMatches(u, subjects, candidates, m);
      RankBound(u, BestName(u, subjects, candidates).value);
    }
    if BestName(u, subjects, candidates).Some? && BestName(u, subjects, candidates).value.rank == 6 {
      var m := BestName(u, subjects, candidates).value;
      assert Shape(u, 6, m.subject, m.candidate);
    }
  }

  lemma ExactMatches(u: Alphabet, subjects: seq<string>, candidates: seq<string>, m: NameMatch)
    requires m.rank == 6 && m.subject == m.candidate != ""
    requires (exists s :: s in subjects && NormalizeText(u, s) == m.subject) && exists c :: c in candidates && NormalizeText(u, c) == m.candidate
    ensures Matches(u, subjects, candidates, m)
  {
  }

  /** The codes among the values, in order and each once. */
  ghost predicate ReasonCodes(u: Alphabet, values: seq<string>, codes: seq<string>) {
    Ascending(codes) && forall x :: x in codes <==> x != "" && exists i :: 0 <= i < |values| && ReasonCode(u, values[i]) == x
  }

  lemma ReasonCodesAre(u: Alphabet, values: seq<string>)
    ensures ReasonCodes(u, values, UniqueSorted(u, Reason, values))
  {
    ListedAre(u, Reason, values);
    forall i | 0 <= i < |values| ensures Normal(u, Reason, values[i]) == ReasonCode(u, values[i]) { }
  }

  /** The reasons: those of the contributions, and the codes of the retrieval under a prefix. */
  predicate Reasons(cs: seq<Contribution>, retrieval: seq<string>, reasons: seq<string>) {
    && |reasons| == |cs| + |retrieval|
    && (forall i :: 0 <= i < |cs| ==> reasons[i] == cs[i].reason)
    && (forall i :: 0 <= i < |retrieval| ==> reasons[|cs| + i] == "retrieval_" + retrieval[i])
  }

  lemma {:induction false} ReasonsListed(cs: seq<Contribution>)
    ensures |ReasonsOf(cs)| == |cs| && forall i :: 0 <= i < |cs| ==> ReasonsOf(cs)[i] == cs[i].reason
  {
    if cs != [] { ReasonsListed(cs[..|cs| - 1]); }
  }

  lemma {:induction false} PrefixedListed(prefix: string, xs: seq<string>)
    ensures |Prefixed(prefix, xs)| == |xs| && forall i :: 0 <= i < |xs| ==> Prefixed(prefix, xs)[i] == prefix + xs[i]
  {
    if xs != [] { PrefixedListed(prefix, xs[..|xs| - 1]); }
  }

  /** What a result lists besides: the routes and reasons it was retrieved by, and all reasons together. */
  lemma ReasonsAre(u: Alphabet, p: Policy, s: Subject, lineage: Lineage, e: Envelope) returns (reasons: seq<string>)
    ensures var r := Scored(u, p, s, lineage, e);
      && ReasonCodes(u, e.routes, r.routes) && ReasonCodes(u, e.reasons, r.retrieval)
      && Reasons(Contributions(u, p.weights, s, e.subject), r.retrieval, reasons) && ReasonCodes(u, reasons, r.reasons)
  {
    var cs, retrieval := Contributions(u, p.weights, s, e.subject), UniqueSorted(u, Reason, e.reasons);
    reasons := ReasonsOf(cs) + Prefixed("retrieval_", retrieval);
    AllReasons(cs, retrieval);
    ReasonCodesAre(u, e.routes);
    ReasonCodesAre(u, e.reasons);
    ReasonCodesAre(u, reasons);
    ListedIn(u, p, s, lineage, e);
  }

  lemma AllReasons(cs: seq<Contribution>, retrieval: seq<string>)
    ensures Reasons(cs, retrieval, ReasonsOf(cs) + Prefixed("retrieval_", retrieval))
  {
    ReasonsListed(cs);
    PrefixedListed("retrieval_", retrieval);
  }

  lemma ListedIn(u: Alphabet, p: Policy, s: Subject, lineage: Lineage, e: Envelope)
    ensures var r, retrieval := Scored(u, p, s, lineage, e), UniqueSorted(u, Reason, e.reasons);
      && r.routes == UniqueSorted(u, Reason, e.routes) && r.retrieval == retrieval
      && r.reasons == UniqueSorted(u, Reason, ReasonsOf(Contributions(u, p.weights, s, e.subject)) + Prefixed("retrieval_", retrieval))
  {
  }

  // ---------------------------------------------------------------- which requests are ranked

  /** The first 1000 candidates or fewer, each with an id, under a complete lineage of the policy's profile. */
  predicate Rankable(p: Policy, r: Request) {
    && r.header && r.lineage.complete && r.lineage.profile == p.profile
    && 1 <= |r.candidates| <= 1000 && forall e :: e in r.candidates ==> Trim(e.id) != ""
  }

  /** Two candidates have one id, white space aside. */
  predicate Repeats(r: Request) { exists i, j :: 0 <= i < j < |r.candidates| && Trim(r.candidates[i].id) == Trim(r.candidates[j].id) }

  /** A request is ranked exactly if it is rankable and repeats no id. */
  lemma RankingNeeds(u: Alphabet, p: Policy, r: Request)
    ensures Ranked(u, p, r).Ok? <==> Rankable(p, r) && !Repeats(r)
    ensures !Rankable(p, r) ==> Ranked(u, p, r) == Err(InvalidRequest)
    ensures Rankable(p, r) && Repeats(r) ==> Ranked(u, p, r) == Err(DuplicateCandidate)
  {
    if RequestOk(p, r) { forall e | e in r.candidates ensures Trim(e.id) != "" { var i :| 0 <= i < |r.candidates| && r.candidates[i] == e; } }
    if Rankable(p, r) { forall i | 0 <= i < |r.candidates| ensures !IsBlank(r.candidates[i].id) { assert r.candidates[i] in r.candidates; } }
  }

  /** The words for one type of entity. */
  const PERSON := {"PERSON", "INDIVIDUAL", "NATURAL PERSON"}
  const ORGANIZATION := {"ORGANIZATION", "ORGANISATION", "ENTITY", "COMPANY", "BUSINESS"}
  const VESSEL := {"VESSEL", "SHIP"}
  const AIRCRAFT := {"AIRCRAFT", "PLANE"}

  predicate OneType(a: string, b: string) {
    || a == b || (a in PERSON && b in PERSON) || (a in ORGANIZATION && b in ORGANIZATION)
    || (a in VESSEL && b in VESSEL) || (a in AIRCRAFT && b in AIRCRAFT)
  }

  /** Two entity types agree exactly if their normalized words are the same or stand for the same type; a type is blank
      only if its word is. */
  lemma TypesAgree(u: Alphabet, a: string, b: string)
    ensures EntityType(u, a) == EntityType(u, b) <==> OneType(NormalizeText(u, a), NormalizeText(u, b))
    ensures EntityType(u, a) == "" <==> NormalizeText(u, a) == ""
  {
    TypeIs(NormalizeText(u, a), NormalizeText(u, b), EntityType(u, a), EntityType(u, b));
  }

  /** The words by the type each stands for. */
  function TypeOf(t: string): string {
    if t in PERSON then "PERSON" else if t in ORGANIZATION then "ORGANIZATION" else if t in VESSEL then "VESSEL" else if t in AIRCRAFT then "AIRCRAFT" else t
  }

  lemma TypeIs(a: string, b: string, x: string, y: string)
    requires x == TypeOf(a) && y == TypeOf(b)
    ensures x == y <==> OneType(a, b)
    ensures x == "" <==> a == ""
  {
  }
}
