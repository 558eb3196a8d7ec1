/** Candidate scoring of internal/candidatescoring: points for matching identifiers, names, dates, countries and entity
    types, clamped and banded, and a ranking that does not depend on the order of its inputs. */
module CandidateScoring {
  import opened Wrappers
  import opened Ordering
  import opened Text
  import opened CandidateText

  // ---------------------------------------------------------------- policy and requests

  datatype Weights = Weights(
    identifier: int,
    nameExact: int,
    nameConcatenation: int,
    nameTokenSet: int,
    nameParticle: int,
    namePrefix: int,
    nameContainment: int,
    dobExact: int,
    dobYear: int,
    country: int,
    entityType: int,
    dobConflict: int,
    countryConflict: int,
    entityTypeConflict: int)

  /** `complete` is the verdict of the checks on the policy's names and version. */
  datatype Policy = Policy(
    complete: bool,
    profile: string,
    maxEvidence: int,
    floor: int,
    ceiling: int,
    weights: Weights,
    strong: int,
    review: int,
    weak: int)

  /** validatePolicy. */
  predicate PolicyOk(p: Policy) {
    var w := p.weights;
    && p.complete && 1 <= p.maxEvidence <= 64 && 0 <= p.floor < p.ceiling
    && p.floor <= p.weak <= p.review <= p.strong <= p.ceiling
    && w.identifier >= 0 && w.nameExact >= 0 && w.nameConcatenation >= 0 && w.nameTokenSet >= 0 && w.nameParticle >= 0
    && w.namePrefix >= 0 && w.nameContainment >= 0 && w.dobExact >= 0 && w.dobYear >= 0 && w.country >= 0 && w.entityType >= 0
    && w.dobConflict <= 0 && w.countryConflict <= 0 && w.entityTypeConflict <= 0
  }

  datatype Identifier = Identifier(kind: string, value: string)

  datatype Subject = Subject(names: seq<string>, identifiers: seq<Identifier>, countries: seq<string>, dates: seq<string>, entityType: string)

  datatype Envelope = Envelope(id: string, subject: Subject, routes: seq<string>, reasons: seq<string>)

  datatype Lineage = Lineage(complete: bool, profile: string, rest: string)

  /** `header` is the verdict of the checks on the request's schema and id. */
  datatype Request = Request(header: bool, subject: Subject, lineage: Lineage, candidates: seq<Envelope>)

  datatype Error = InvalidRequest | DuplicateCandidate

  // ---------------------------------------------------------------- names

  /** How a subject's name matches a candidate's, the strongest shape first. */
  datatype NameMatch = NameMatch(rank: nat, subject: string, candidate: string)

  predicate ContainsText(s: string, t: string) { t <= s || (s != "" && ContainsText(s[1..], t)) }

  predicate EqualTokens(a: seq<string>, b: seq<string>) { a != [] && a == b }

  /** The strongest shape of two normalized names: 6 exact, 5 equal without spaces, 4 same tokens, 3 same tokens
      without particles, 2 prefix, 1 containment, 0 none. */
  function RankOf(u: Alphabet, a: string, b: string): nat {
    if a == b then 6
    else if ReplaceSpaces(a, "") == ReplaceSpaces(b, "") then 5
    else if EqualTokens(TokenSet(u, a), TokenSet(u, b)) then 4
    else if EqualTokens(WithoutParticles(TokenSet(u, a)), WithoutParticles(TokenSet(u, b))) then 3
    else if b <= a || a <= b then 2
    else if ContainsText(a, b) || ContainsText(b, a) then 1
    else 0
  }

  function MatchOf(u: Alphabet, subject: string, candidate: string): Option<NameMatch> {
    var a, b := NormalizeText(u, subject), NormalizeText(u, candidate);
    if a == "" || b == "" || RankOf(u, a, b) == 0 then None else Some(NameMatch(RankOf(u, a, b), a, b))
  }

  function MatchesFor(u: Alphabet, subject: string, candidates: seq<string>): seq<NameMatch> {
    if candidates == [] then []
    else
      var m := MatchOf(u, subject, candidates[|candidates| - 1]);
      MatchesFor(u, subject, candidates[..|candidates| - 1]) + (if m.Some? then [m.value] else [])
  }

  function NameMatches(u: Alphabet, subjects: seq<string>, candidates: seq<string>): seq<NameMatch> {
    if subjects == [] then []
    else NameMatches(u, subjects[..|subjects| - 1], candidates) + MatchesFor(u, subjects[|subjects| - 1], candidates)
  }

  /** Higher rank first, then by subject, then by candidate. */
  predicate MatchLess(a: NameMatch, b: NameMatch) {
    a.rank > b.rank
    || (a.rank == b.rank && (StringLess(a.subject, b.subject) || (a.subject == b.subject && StringLess(a.candidate, b.candidate))))
  }

  function BestName(u: Alphabet, subjects: seq<string>, candidates: seq<string>): Option<NameMatch> {
    var ms := NameMatches(u, subjects, candidates);
    if ms == [] then None else Some(SortBy(MatchLess, ms)[0])
  }

  method BestNameMatch(u: Alphabet, subjects: seq<string>, candidates: seq<string>) returns (best: Option<NameMatch>)
    ensures best == BestName(u, subjects, candidates)
  {
    var ms: seq<NameMatch> := [];
    for i := 0 to |subjects|
      invariant ms == NameMatches(u, subjects[..i], candidates)
    {
      assert subjects[..i + 1][..i] == subjects[..i];
      var found := NameRow(u, subjects[i], candidates);
      ms := ms + found;
    }
    assert subjects[..|subjects|] == subjects;
    if ms == [] { return None; }
    return Some(SortBy(MatchLess, ms)[0]);
  }

  /** The inner loop of bestNameMatch; a blank subject matches nothing. */
  method NameRow(u: Alphabet, subject: string, candidates: seq<string>) returns (ms: seq<NameMatch>)
    ensures ms == MatchesFor(u, subject, candidates)
  {
    ms := [];
    var a := Normalize(u, subject);
    for j := 0 to |candidates|
      invariant ms == MatchesFor(u, subject, candidates[..j])
    {
      assert candidates[..j + 1][..j] == candidates[..j];
      var b := Normalize(u, candidates[j]);
      if a != "" && b != "" {
        var rank := RankOf(u, a, b);
        if rank > 0 { ms := ms + [NameMatch(rank, a, b)]; }
      }
    }
    assert candidates[..|candidates|] == candidates;
  }

  predicate IsMatch(u: Alphabet, subject: string, candidates: seq<string>, m: NameMatch) {
    exists c :: c in candidates && MatchOf(u, subject, c) == Some(m)
  }

  predicate IsSomeMatch(u: Alphabet, subjects: seq<string>, candidates: seq<string>, m: NameMatch) {
    exists s :: s in subjects && IsMatch(u, s, candidates, m)
  }

  lemma {:induction false} RowMembers(u: Alphabet, subject: string, candidates: seq<string>, m: NameMatch)
    ensures m in MatchesFor(u, subject, candidates) <==> IsMatch(u, subject, candidates, m)
  {
    if candidates != [] {
      var front, last := candidates[..|candidates| - 1], candidates[|candidates| - 1];
      assert candidates == front + [last];
      RowMembers(u, subject, front, m);
      assert IsMatch(u, subject, candidates, m) <==> IsMatch(u, subject, front, m) || MatchOf(u, subject, last) == Some(m);
    }
  }

  lemma {:induction false} MatchMembers(u: Alphabet, subjects: seq<string>, candidates: seq<string>, m: NameMatch)
    ensures m in NameMatches(u, subjects, candidates) <==> IsSomeMatch(u, subjects, candidates, m)
  {
    if subjects != [] {
      var front, last := subjects[..|subjects| - 1], subjects[|subjects| - 1];
      assert subjects == front + [last];
      MatchMembers(u, front, candidates, m);
      RowMembers(u, last, candidates, m);
      assert IsSomeMatch(u, subjects, candidates, m) <==> IsSomeMatch(u, front, candidates, m) || IsMatch(u, last, candidates, m);
    }
  }

  lemma IsSomeMatchForgets(u: Alphabet, s1: seq<string>, c1: seq<string>, s2: seq<string>, c2: seq<string>, m: NameMatch)
    requires SameMembers(s1, s2) && SameMembers(c1, c2) && IsSomeMatch(u, s1, c1, m)
    ensures IsSomeMatch(u, s2, c2, m)
  {
    var s :| s in s1 && IsMatch(u, s, c1, m);
    var c :| c in c1 && MatchOf(u, s, c) == Some(m);
    assert c in c2 && s in s2;
    assert IsMatch(u, s, c2, m);
  }

  lemma MatchOrder()
    ensures Strict(MatchLess) && Total(MatchLess)
  {
    StringOrder();
    forall x, y: NameMatch ensures x == y || MatchLess(x, y) || MatchLess(y, x) {
      if x.subject != y.subject { StringLessConnected(x.subject, y.subject); }
      if x.candidate != y.candidate { StringLessConnected(x.candidate, y.candidate); }
    }
  }

  /** The best name match depends on the sets of names only. */
  lemma BestNameForgets(u: Alphabet, s1: seq<string>, c1: seq<string>, s2: seq<string>, c2: seq<string>)
    requires SameMembers(s1, s2) && SameMembers(c1, c2)
    ensures BestName(u, s1, c1) == BestName(u, s2, c2)
  {
    var xs, ys := NameMatches(u, s1, c1), NameMatches(u, s2, c2);
    forall m ensures m in xs <==> m in ys {
      MatchMembers(u, s1, c1, m);
      MatchMembers(u, s2, c2, m);
      if m in xs { IsSomeMatchForgets(u, s1, c1, s2, c2, m); }
      if m in ys { IsSomeMatchForgets(u, s2, c2, s1, c1, m); }
    }
    MatchOrder();
    EmptyTogether(xs, ys);
    if xs != [] { LeastForgets(MatchLess, xs, ys); }
  }

  lemma EmptyTogether<T(!new)>(xs: seq<T>, ys: seq<T>)
    requires SameMembers(xs, ys)
    ensures xs == [] <==> ys == []
  {
    assert xs != [] ==> xs[0] in xs;
    assert ys != [] ==> ys[0] in ys;
  }

  // ---------------------------------------------------------------- identifiers

  function KeyOf(u: Alphabet, i: Identifier): Identifier { Identifier(IdentifierType(u, i.kind), Compact(u, i.value)) }

  predicate CompleteKey(k: Identifier) { k.kind != "" && k.value != "" }

  predicate HasKey(u: Alphabet, ids: seq<Identifier>, k: Identifier) { exists i :: i in ids && KeyOf(u, i) == k }

  /** The normalized identifiers that are complete. */
  function KeysOf(u: Alphabet, ids: seq<Identifier>): set<Identifier> {
    if ids == [] then {}
    else
      var k := KeyOf(u, ids[|ids| - 1]);
      KeysOf(u, ids[..|ids| - 1]) + (if CompleteKey(k) then {k} else {})
  }

  lemma {:induction false} KeysAre(u: Alphabet, ids: seq<Identifier>, k: Identifier)
    ensures k in KeysOf(u, ids) <==> CompleteKey(k) && HasKey(u, ids, k)
  {
    if ids != [] {
      var front, last := ids[..|ids| - 1], ids[|ids| - 1];
      assert ids == front + [last];
      KeysAre(u, front, k);
      assert HasKey(u, ids, k) <==> HasKey(u, front, k) || KeyOf(u, last) == k;
    }
  }

  /** The subject's normalized identifiers among the candidate's. */
  function Shared(u: Alphabet, subject: seq<Identifier>, keys: set<Identifier>): seq<Identifier> {
    if subject == [] then []
    else
      var k := KeyOf(u, subject[|subject| - 1]);
      Shared(u, subject[..|subject| - 1], keys) + (if k in keys then [k] else [])
  }

  lemma {:induction false} SharedAre(u: Alphabet, subject: seq<Identifier>, keys: set<Identifier>, k: Identifier)
    ensures k in Shared(u, subject, keys) <==> k in keys && HasKey(u, subject, k)
  {
    if subject != [] {
      var front, last := subject[..|subject| - 1], subject[|subject| - 1];
      assert subject == front + [last];
      SharedAre(u, front, keys, k);
      assert HasKey(u, subject, k) <==> HasKey(u, front, k) || KeyOf(u, last) == k;
    }
  }

  predicate IdentifierLess(a: Identifier, b: Identifier) {
    StringLess(a.kind, b.kind) || (a.kind == b.kind && StringLess(a.value, b.value))
  }

  function BestIdentifier(u: Alphabet, subject: seq<Identifier>, candidate: seq<Identifier>): Option<Identifier> {
    var shared := Shared(u, subject, KeysOf(u, candidate));
    if shared == [] then None else Some(SortBy(IdentifierLess, shared)[0])
  }

  /** The loop of identifierMatch over the candidate's identifiers. */
  method CollectKeys(u: Alphabet, ids: seq<Identifier>) returns (keys: set<Identifier>)
    ensures keys == KeysOf(u, ids)
  {
    keys := {};
    for i := 0 to |ids|
      invariant keys == KeysOf(u, ids[..i])
    {
      assert ids[..i + 1][..i] == ids[..i];
      var k := KeyOf(u, ids[i]);
      if k.kind != "" && k.value != "" { keys := keys + {k}; }
    }
    assert ids[..|ids|] == ids;
  }

  method IdentifierMatch(u: Alphabet, subject: seq<Identifier>, candidate: seq<Identifier>) returns (best: Option<Identifier>)
    ensures best == BestIdentifier(u, subject, candidate)
  {
    var keys := CollectKeys(u, candidate);
    var shared: seq<Identifier> := [];
    for i := 0 to |subject|
      invariant shared == Shared(u, subject[..i], keys)
    {
      assert subject[..i + 1][..i] == subject[..i];
      var k := KeyOf(u, subject[i]);
      if k in keys { shared := shared + [k]; }
    }
    assert subject[..|subject|] == subject;
    if shared == [] { return None; }
    return Some(SortBy(IdentifierLess, shared)[0]);
  }

  lemma IdentifierOrder()
    ensures Strict(IdentifierLess) && Total(IdentifierLess)
  {
    StringOrder();
    forall x, y: Identifier ensures x == y || IdentifierLess(x, y) || IdentifierLess(y, x) {
      if x.kind != y.kind { StringLessConnected(x.kind, y.kind); }
      if x.value != y.value { StringLessConnected(x.value, y.value); }
    }
  }

  lemma HasKeyForgets(u: Alphabet, xs: seq<Identifier>, ys: seq<Identifier>, k: Identifier)
    requires SameMembers(xs, ys)
    ensures HasKey(u, xs, k) <==> HasKey(u, ys, k)
  {
    if HasKey(u, xs, k) {
      var i :| i in xs && KeyOf(u, i) == k;
      assert i in ys;
    }
    if HasKey(u, ys, k) {
      var i :| i in ys && KeyOf(u, i) == k;
      assert i in xs;
    }
  }

  /** The shared identifier depends on the sets of identifiers only. */
  lemma BestIdentifierForgets(u: Alphabet, s1: seq<Identifier>, c1: seq<Identifier>, s2: seq<Identifier>, c2: seq<Identifier>)
    requires SameMembers(s1, s2) && SameMembers(c1, c2)
    ensures BestIdentifier(u, s1, c1) == BestIdentifier(u, s2, c2)
  {
    forall k ensures k in KeysOf(u, c1) <==> k in KeysOf(u, c2) {
      KeysAre(u, c1, k);
      KeysAre(u, c2, k);
      HasKeyForgets(u, c1, c2, k);
    }
    assert KeysOf(u, c1) == KeysOf(u, c2);
    SharedForgets(u, s1, s2, KeysOf(u, c1));
  }

  lemma SharedForgets(u: Alphabet, s1: seq<Identifier>, s2: seq<Identifier>, keys: set<Identifier>)
    requires SameMembers(s1, s2)
    ensures var xs, ys := Shared(u, s1, keys), Shared(u, s2, keys);
      (xs == [] <==> ys == []) && (xs != [] && ys != [] ==> SortBy(IdentifierLess, xs)[0] == SortBy(IdentifierLess, ys)[0])
  {
    var xs, ys := Shared(u, s1, keys), Shared(u, s2, keys);
    forall k ensures k in xs <==> k in ys {
      SharedAre(u, s1, keys, k);
      SharedAre(u, s2, keys, k);
      HasKeyForgets(u, s1, s2, k);
    }
    EmptyTogether(xs, ys);
    IdentifierOrder();
    if xs != [] { LeastForgets(IdentifierLess, xs, ys); }
  }

  // ---------------------------------------------------------------- dates and countries

  datatype Comparison = NoComparison | Exact(subject: string, candidate: string) | SameYear(subject: string, candidate: string)
    | Conflict(subject: string, candidate: string)

  /** The first four bytes agree. */
  predicate OneYear(a: string, b: string) { |Bytes(a)| >= 4 && |Bytes(b)| >= 4 && Bytes(a)[..4] == Bytes(b)[..4] }

  /** The first candidate value equal to, or of the year of, the subject's. */
  function FirstIn(exact: bool, a: string, candidates: seq<string>): Option<string> {
    if candidates == [] then None
    else if (exact && a == candidates[0]) || (!exact && OneYear(a, candidates[0])) then Some(candidates[0])
    else FirstIn(exact, a, candidates[1..])
  }

  /** The first such pair, subject values first. */
  function FirstPair(exact: bool, subjects: seq<string>, candidates: seq<string>): Option<(string, string)> {
    if subjects == [] then None
    else
      var b := FirstIn(exact, subjects[0], candidates);
      if b.Some? then Some((subjects[0], b.value)) else FirstPair(exact, subjects[1..], candidates)
  }

  function DateComparison(u: Alphabet, subject: seq<string>, candidate: seq<string>): Comparison {
    CompareDates(UniqueSorted(u, Date, subject), UniqueSorted(u, Date, candidate))
  }

  function CompareDates(s: seq<string>, c: seq<string>): Comparison {
    if s == [] || c == [] then NoComparison
    else if FirstPair(true, s, c).Some? then Exact(FirstPair(true, s, c).value.0, FirstPair(true, s, c).value.1)
    else if FirstPair(false, s, c).Some? then SameYear(FirstPair(false, s, c).value.0, FirstPair(false, s, c).value.1)
    else Conflict(s[0], c[0])
  }

  /** One of the nested loops of dateMatch. */
  method ScanPairs(exact: bool, subjects: seq<string>, candidates: seq<string>) returns (r: Option<(string, string)>)
    ensures r == FirstPair(exact, subjects, candidates)
  {
    for i := 0 to |subjects|
      invariant FirstPair(exact, subjects, candidates) == FirstPair(exact, subjects[i..], candidates)
    {
      for j := 0 to |candidates|
        invariant FirstIn(exact, subjects[i], candidates) == FirstIn(exact, subjects[i], candidates[j..])
      {
        if (exact && subjects[i] == candidates[j]) || (!exact && OneYear(subjects[i], candidates[j])) {
          return Some((subjects[i], candidates[j]));
        }
      }
    }
    return None;
  }

  method DateMatch(u: Alphabet, subject: seq<string>, candidate: seq<string>) returns (r: Comparison)
    ensures r == DateComparison(u, subject, candidate)
  {
    var s := CollectUnique(u, Date, subject);
    var c := CollectUnique(u, Date, candidate);
    if s == [] || c == [] { return NoComparison; }
    var exact := ScanPairs(true, s, c);
    if exact.Some? { return Exact(exact.value.0, exact.value.1); }
    var year := ScanPairs(false, s, c);
    if year.Some? { return SameYear(year.value.0, year.value.1); }
    return Conflict(s[0], c[0]);
  }

  /** The first listed value that the other list has too. */
  function FirstShared(s: seq<string>, c: seq<string>): Option<string> {
    if s == [] then None else if s[0] in c then Some(s[0]) else FirstShared(s[1..], c)
  }

  function CountryComparison(u: Alphabet, subject: seq<string>, candidate: seq<string>): Comparison {
    CompareCountries(UniqueSorted(u, Country, subject), UniqueSorted(u, Country, candidate))
  }

  function CompareCountries(s: seq<string>, c: seq<string>): Comparison {
    if s == [] || c == [] then NoComparison
    else if FirstShared(s, c).Some? then Exact(FirstShared(s, c).value, FirstShared(s, c).value)
    else Conflict(s[0], c[0])
  }

  method SetMatch(u: Alphabet, subject: seq<string>, candidate: seq<string>) returns (r: Comparison)
    ensures r == CountryComparison(u, subject, candidate)
  {
    var s := CollectUnique(u, Country, subject);
    var c := CollectUnique(u, Country, candidate);
    if s == [] || c == [] { return NoComparison; }
    for i := 0 to |s|
      invariant FirstShared(s, c) == FirstShared(s[i..], c)
    {
      if s[i] in c { return Exact(s[i], s[i]); }
    }
    return Conflict(s[0], c[0]);
  }
}
