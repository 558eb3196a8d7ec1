/** Scoring one candidate, and ranking them all. */
module CandidateRanking {
  import opened Wrappers
  import opened Text
  import opened Ordering
  import opened CandidateText
  import opened CandidateScoring

  /** One call of `add`: what is compared, with which outcome, for how many points. */
  datatype Contribution = Contribution(component: string, points: int, reason: string, support: bool, subject: string, candidate: string)

  datatype Component = Component(component: string, points: int, reason: string)

  datatype CandidateResult = CandidateResult(
    id: string,
    score: int,
    band: string,
    exactIdentifier: bool,
    exactName: bool,
    reasons: seq<string>,
    components: seq<Component>,
    evidence: seq<Contribution>,
    routes: seq<string>,
    retrieval: seq<string>,
    lineage: Lineage)

  function IdentifierPart(w: Weights, m: Option<Identifier>): seq<Contribution> {
    if m.None? then []
    else
      var shown := m.value.kind + ":" + m.value.value;
      [Contribution("typed_identifier", w.identifier, "typed_identifier_exact", true, shown, shown)]
  }

  function NamePart(w: Weights, m: Option<NameMatch>): seq<Contribution> {
    if m.None? then []
    else
      var a, b := m.value.subject, m.value.candidate;
      match m.value.rank
      case 6 => [Contribution("name", w.nameExact, "name_exact", true, a, b)]
      case 5 => [Contribution("name", w.nameConcatenation, "name_concatenation_normalized", true, a, b)]
      case 4 => [Contribution("name", w.nameTokenSet, "name_token_set_exact", true, a, b)]
      case 3 => [Contribution("name", w.nameParticle, "name_particle_stripped", true, a, b)]
      case 2 => [Contribution("name", w.namePrefix, "name_prefix", true, a, b)]
      case 1 => [Contribution("name", w.nameContainment, "name_containment", true, a, b)]
      case _ => []
  }

  function DatePart(w: Weights, c: Comparison): seq<Contribution> {
    match c
    case NoComparison => []
    case Exact(a, b) => [Contribution("date_of_birth", w.dobExact, "date_of_birth_exact", true, a, b)]
    case SameYear(a, b) => [Contribution("date_of_birth", w.dobYear, "date_of_birth_year_exact", true, a, b)]
    case Conflict(a, b) => [Contribution("date_of_birth", w.dobConflict, "date_of_birth_conflict", false, a, b)]
  }

  function CountryPart(w: Weights, c: Comparison): seq<Contribution> {
    match c
    case Exact(a, b) => [Contribution("country", w.country, "country_exact", true, a, b)]
    case Conflict(a, b) => [Contribution("country", w.countryConflict, "country_conflict", false, a, b)]
    case _ => []
  }

  function EntityPart(w: Weights, a: string, b: string): seq<Contribution> {
    if a == "" || b == "" then []
    else if a == b then [Contribution("entity_type", w.entityType, "entity_type_exact", true, a, b)]
    else [Contribution("entity_type", w.entityTypeConflict, "entity_type_conflict", false, a, b)]
  }

  /** The contributions of the five comparisons, in the order they are added. */
  function PartsOf(w: Weights, i: Option<Identifier>, n: Option<NameMatch>, d: Comparison, c: Comparison, e1: string, e2: string): seq<Contribution> {
    IdentifierPart(w, i) + NamePart(w, n) + DatePart(w, d) + CountryPart(w, c) + EntityPart(w, e1, e2)
  }

  function Contributions(u: Alphabet, w: Weights, s: Subject, c: Subject): seq<Contribution> {
    PartsOf(w, BestIdentifier(u, s.identifiers, c.identifiers), BestName(u, s.names, c.names), DateComparison(u, s.dates, c.dates),
      CountryComparison(u, s.countries, c.countries), EntityType(u, s.entityType), EntityType(u, c.entityType))
  }

  /** The contributions that score, as components. */
  function ComponentsOf(cs: seq<Contribution>): seq<Component> {
    if cs == [] then []
    else
      var last := cs[|cs| - 1];
      ComponentsOf(cs[..|cs| - 1]) + (if last.points != 0 then [Component(last.component, last.points, last.reason)] else [])
  }

  function ReasonsOf(cs: seq<Contribution>): seq<string> {
    if cs == [] then [] else ReasonsOf(cs[..|cs| - 1]) + [cs[|cs| - 1].reason]
  }

  function Prefixed(prefix: string, xs: seq<string>): seq<string> {
    if xs == [] then [] else Prefixed(prefix, xs[..|xs| - 1]) + [prefix + xs[|xs| - 1]]
  }

  function FirstItems<T>(xs: seq<T>, n: int): seq<T> { if 0 <= n < |xs| then xs[..n] else if n < 0 then [] else xs }

  function SumOf(cs: seq<Component>): int { if cs == [] then 0 else SumOf(cs[..|cs| - 1]) + cs[|cs| - 1].points }

  function Clamped(score: int, p: Policy): int {
    var raised := if score < p.floor then p.floor else score;
    if raised > p.ceiling then p.ceiling else raised
  }

  function Band(score: int, p: Policy): string {
    if score >= p.strong then "strong_candidate"
    else if score >= p.review then "review_candidate"
    else if score >= p.weak then "weak_candidate"
    else "no_candidate_support"
  }

  function ResultOf(u: Alphabet, p: Policy, lineage: Lineage, e: Envelope, cs: seq<Contribution>, identifier: bool, name: bool): CandidateResult {
    var score := Clamped(SumOf(ComponentsOf(cs)), p);
    var retrieval := UniqueSorted(u, Reason, e.reasons);
    CandidateResult(e.id, score, Band(score, p), identifier, name,
      UniqueSorted(u, Reason, ReasonsOf(cs) + Prefixed("retrieval_", retrieval)),
      ComponentsOf(cs), FirstItems(cs, p.maxEvidence), UniqueSorted(u, Reason, e.routes), retrieval, lineage)
  }

  function Scored(u: Alphabet, p: Policy, s: Subject, lineage: Lineage, e: Envelope): CandidateResult {
    var name := BestName(u, s.names, e.subject.names);
    ResultOf(u, p, lineage, e, Contributions(u, p.weights, s, e.subject),
      BestIdentifier(u, s.identifiers, e.subject.identifiers).Some?, name.Some? && name.value.rank == 6)
  }

  /** The lists scoreCandidate appends to. */
  class Tally {
    const max: int
    var components: seq<Component>
    var evidence: seq<Contribution>
    var reasons: seq<string>

    ghost predicate Holds(cs: seq<Contribution>)
      reads this
    {
      components == ComponentsOf(cs) && evidence == FirstItems(cs, max) && reasons == ReasonsOf(cs)
    }

    constructor (max: int)
      requires max >= 0
      ensures this.max == max && Holds([])
    {
      this.max := max;
      components, evidence, reasons := [], [], [];
    }

    method Add(c: Contribution, ghost before: seq<Contribution>)
      requires Holds(before) && max >= 0
      modifies this
      ensures Holds(before + [c])
    {
      assert (before + [c])[..|before|] == before;
      if c.points != 0 { components := components + [Component(c.component, c.points, c.reason)]; }
      reasons := reasons + [c.reason];
      if |evidence| < max { evidence := evidence + [c]; }
    }

    method AddAll(cs: seq<Contribution>, ghost before: seq<Contribution>)
      requires Holds(before) && max >= 0
      modifies this
      ensures Holds(before + cs)
    {
      assert before + cs[..0] == before;
      for i := 0 to |cs|
        invariant Holds(before + cs[..i])
      {
        assert before + cs[..i] + [cs[i]] == before + cs[..i + 1];
        Add(cs[i], before + cs[..i]);
      }
      assert cs[..|cs|] == cs;
    }
  }

  method ScoreCandidate(u: Alphabet, p: Policy, s: Subject, lineage: Lineage, e: Envelope) returns (r: CandidateResult)
    requires p.maxEvidence >= 0
    ensures r == Scored(u, p, s, lineage, e)
  {
    var c := e.subject;
    var tally := new Tally(p.maxEvidence);
    var identifier := IdentifierMatch(u, s.identifiers, c.identifiers);
    var name := BestNameMatch(u, s.names, c.names);
    var dates := DateMatch(u, s.dates, c.dates);
    var countries := SetMatch(u, s.countries, c.countries);
    var parts := PartsOf(p.weights, identifier, name, dates, countries, EntityType(u, s.entityType), EntityType(u, c.entityType));
    tally.AddAll(parts, []);
    assert [] + parts == parts;
    r := Finish(u, p, lineage, e, parts, tally, identifier.Some?, name.Some? && name.value.rank == 6);
  }

  method AddUp(cs: seq<Component>) returns (score: int)
    ensures score == SumOf(cs)
  {
    score := 0;
    for i := 0 to |cs|
      invariant score == SumOf(cs[..i])
    {
      assert cs[..i + 1][..i] == cs[..i];
      score := score + cs[i].points;
    }
    assert cs[..|cs|] == cs;
  }

  /** The end of scoreCandidate: reasons, the sum clamped to the policy's bounds, and the band. */
  method Finish(u: Alphabet, p: Policy, lineage: Lineage, e: Envelope, ghost cs: seq<Contribution>, tally: Tally, identifier: bool, name: bool)
    returns (r: CandidateResult)
    requires tally.max == p.maxEvidence && tally.Holds(cs)
    ensures r == ResultOf(u, p, lineage, e, cs, identifier, name)
  {
    var retrieval := CollectUnique(u, Reason, e.reasons);
    var routes := CollectUnique(u, Reason, e.routes);
    var reasons := CollectUnique(u, Reason, tally.reasons + Prefixed("retrieval_", retrieval));
    var score := AddUp(tally.components);
    if score < p.floor { score := p.floor; }
    if score > p.ceiling { score := p.ceiling; }
    return CandidateResult(e.id, score, Band(score, p), identifier, name, reasons, tally.components, tally.evidence, routes, retrieval, lineage);
  }

  // ---------------------------------------------------------------- ranking

  /** Higher score first, then an exact identifier, then an exact name, then the id. */
  predicate Before(a: CandidateResult, b: CandidateResult) {
    if a.score != b.score then a.score > b.score
    else if a.exactIdentifier != b.exactIdentifier then a.exactIdentifier
    else if a.exactName != b.exactName then a.exactName
    else StringLess(a.id, b.id)
  }

  predicate RequestOk(p: Policy, r: Request) {
    && r.header && 1 <= |r.candidates| <= 1000
    && (forall i :: 0 <= i < |r.candidates| ==> !IsBlank(r.candidates[i].id))
    && r.lineage.complete && r.lineage.profile == p.profile
  }

  /** No two candidates share an id, white space at its ends aside. */
  predicate DistinctIds(es: seq<Envelope>) { forall i, j :: 0 <= i < j < |es| ==> Trim(es[i].id) != Trim(es[j].id) }

  /** scoreCandidate for one subject, as a function of the candidate. */
  function Scorer(u: Alphabet, p: Policy, s: Subject, lineage: Lineage): Envelope -> CandidateResult { e => Scored(u, p, s, lineage, e) }

  function ScoredAll(u: Alphabet, p: Policy, s: Subject, lineage: Lineage, es: seq<Envelope>): seq<CandidateResult> {
    Mapped(Scorer(u, p, s, lineage), es)
  }

  function Ranked(u: Alphabet, p: Policy, r: Request): Result<seq<CandidateResult>, Error> {
    if !RequestOk(p, r) then Err(InvalidRequest)
    else if !DistinctIds(r.candidates) then Err(DuplicateCandidate)
    else Ok(SortBy(Before, ScoredAll(u, p, r.subject, r.lineage, r.candidates)))
  }

  method Score(u: Alphabet, p: Policy, r: Request) returns (result: Result<seq<CandidateResult>, Error>)
    requires PolicyOk(p)
    ensures result == Ranked(u, p, r)
  {
    if !RequestOk(p, r) { return Err(InvalidRequest); }
    var distinct := CheckIds(r.candidates);
    if !distinct { return Err(DuplicateCandidate); }
    var results := ScoreEach(u, p, r);
    return Ok(SortBy(Before, results));
  }

  /** The duplicate check of Score's loop. */
  method CheckIds(es: seq<Envelope>) returns (ok: bool)
    ensures ok <==> DistinctIds(es)
  {
    var seen: set<string> := {};
    for i := 0 to |es|
      invariant seen == set k | 0 <= k < i :: Trim(es[k].id)
      invariant forall k, l :: 0 <= k < l < i ==> Trim(es[k].id) != Trim(es[l].id)
    {
      if Trim(es[i].id) in seen { return false; }
      seen := seen + {Trim(es[i].id)};
    }
    return true;
  }

  /** The scoring of Score's loop. */
  method ScoreEach(u: Alphabet, p: Policy, r: Request) returns (results: seq<CandidateResult>)
    requires PolicyOk(p)
    ensures results == ScoredAll(u, p, r.subject, r.lineage, r.candidates)
  {
    ghost var f := Scorer(u, p, r.subject, r.lineage);
    results := [];
    for i := 0 to |r.candidates|
      invariant results == Mapped(f, r.candidates[..i])
    {
      MappedNext(f, r.candidates, i);
      var scored := ScoreCandidate(u, p, r.subject, r.lineage, r.candidates[i]);
      results := results + [scored];
    }
    assert r.candidates[..|r.candidates|] == r.candidates;
  }
}
