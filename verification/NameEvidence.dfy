/** What each measure of a name score means, and that each counts with its own weight. */
module NameEvidence {
  import opened EditDistance
  import opened TokenMatching
  import opened Ordering
  import opened Text
  import opened Similarity
  import opened NameScore

  /** The five measures, by the names they have in the evidence. */
  datatype Measure = OfEdits | OfLength | OfOrder | OfSound | OfAlignment

  function NameOf(m: Measure): string {
    match m
    case OfEdits => "edit_similarity"
    case OfLength => "length_similarity"
    case OfOrder => "ordered_token_similarity"
    case OfSound => "phonetic_similarity"
    case OfAlignment => "token_alignment_similarity"
  }

  function WeightOf(m: Measure, p: Profile): nat {
    match m
    case OfEdits => p.edit
    case OfLength => p.length
    case OfOrder => p.ordered
    case OfSound => p.phonetic
    case OfAlignment => p.alignment
  }

  // ---------------------------------------------------------------- the measures

  /** r is part of whole in basis points, rounded down; all of nothing is everything. */
  predicate BasisPoints(part: int, whole: nat, r: nat) {
    if whole == 0 then r == 10000 else r * whole <= part * 10000 < (r + 1) * whole
  }

  /** The least number of edits that turn one text into the other. */
  ghost predicate IsDistance(a: string, b: string, d: nat) {
    Turns(a, b, d) && forall n: nat :: Turns(a, b, n) ==> d <= n
  }

  /** The share of the longer text that the distance leaves. */
  ghost predicate EditIs(a: string, b: string, r: nat) {
    exists d: nat :: IsDistance(a, b, d) && BasisPoints(Max(|a|, |b|) - d, Max(|a|, |b|), r)
  }

  /** The tokens in order, joined by blanks. */
  ghost predicate Arranged(tokens: seq<string>, text: string) {
    exists s :: multiset(s) == multiset(tokens) && SortedBy(StringLess, s) && text == Join(s, " ")
  }

  /** The edit similarity of the names or, if a side has two tokens or more and this is higher, of their tokens in order. */
  ghost predicate BestEditIs(query: string, candidate: string, qt: seq<string>, ct: seq<string>, r: nat) {
    exists raw: nat, sorted: nat, q: string, c: string ::
      && EditIs(query, candidate, raw) && Arranged(qt, q) && Arranged(ct, c) && EditIs(q, c, sorted)
      && r == if |qt| >= 2 || |ct| >= 2 then Max(raw, sorted) else raw
  }

  /** The share of the longer name that the shorter one is long. */
  predicate LengthIs(query: string, candidate: string, r: nat) {
    BasisPoints(if |query| < |candidate| then |query| else |candidate|, Max(|query|, |candidate|), r)
  }

  /** Two tokens are near with an edit similarity of 7000 or more. */
  ghost predicate NearTokens(x: string, y: string) { exists r: nat :: EditIs(x, y, r) && r >= 7000 }

  /** Pairs of near tokens, both sides in order. */
  ghost predicate NearPairs(a: seq<string>, b: seq<string>, m: seq<(nat, nat)>) {
    && (forall k :: 0 <= k < |m| ==> m[k].0 < |a| && m[k].1 < |b| && NearTokens(a[m[k].0], b[m[k].1]))
    && (forall k, l :: 0 <= k < l < |m| ==> m[k].0 < m[l].0 && m[k].1 < m[l].1)
  }

  ghost predicate OrderedIs(a: seq<string>, b: seq<string>, r: nat) {
    exists m :: && NearPairs(a, b, m) && (forall other :: NearPairs(a, b, other) ==> |other| <= |m|)
                && BasisPoints(|m|, Max(|a|, |b|), r)
  }

  /** Pairs of tokens with one Soundex code that is not empty, each token in one pair at most. */
  ghost predicate SoundPairs(a: seq<string>, b: seq<string>, m: seq<(nat, nat)>) {
    && (forall k :: 0 <= k < |m| ==> m[k].0 < |a| && m[k].1 < |b| && SoundexOf(a[m[k].0]) == SoundexOf(b[m[k].1]) != "")
    && (forall k, l :: 0 <= k < l < |m| ==> m[k].0 != m[l].0 && m[k].1 != m[l].1)
  }

  ghost predicate PhoneticIs(a: seq<string>, b: seq<string>, r: nat) {
    exists m :: && SoundPairs(a, b, m) && (forall other :: SoundPairs(a, b, other) ==> |other| <= |m|)
                && BasisPoints(|m|, Max(|a|, |b|), r)
  }

  /** The highest edit similarity of s with a token of the other side. */
  ghost predicate NearestIs(s: string, target: seq<string>, r: nat) {
    && (forall t :: t in target ==> exists v: nat :: EditIs(s, t, v) && v <= r)
    && (r == 0 || exists t :: t in target && EditIs(s, t, r))
  }

  function SumOf(values: seq<nat>): nat { if values == [] then 0 else SumOf(values[..|values| - 1]) + values[|values| - 1] }

  /** The average of the highest similarities of one side's tokens, rounded down. */
  ghost predicate DirectedIs(source: seq<string>, target: seq<string>, r: nat) {
    exists values: seq<nat> ::
      && |values| == |source| && (forall i :: 0 <= i < |source| ==> NearestIs(source[i], target, values[i]))
      && r * |source| <= SumOf(values) < (r + 1) * |source|
  }

  /** The average of both directions; 0 against no tokens, unless both sides have none. */
  ghost predicate AlignmentIs(a: seq<string>, b: seq<string>, r: nat) {
    if a == [] && b == [] then r == 10000
    else if a == [] || b == [] then r == 0
    else exists forth: nat, back: nat :: DirectedIs(a, b, forth) && DirectedIs(b, a, back) && 2 * r <= forth + back <= 2 * r + 1
  }

  ghost predicate MeasureIs(m: Measure, query: string, candidate: string, qt: seq<string>, ct: seq<string>, r: nat) {
    match m
    case OfEdits => BestEditIs(query, candidate, qt, ct, r)
    case OfLength => LengthIs(query, candidate, r)
    case OfOrder => OrderedIs(qt, ct, r)
    case OfSound => PhoneticIs(qt, ct, r)
    case OfAlignment => AlignmentIs(qt, ct, r)
  }

  // ---------------------------------------------------------------- the scores are the measures

  lemma RoundedDown(x: nat, d: nat)
    requires 0 < d
    ensures x / d * d <= x < (x / d + 1) * d
  {
  }

  lemma ShareIs(whole: nat, missing: nat)
    requires missing <= whole
    ensures BasisPoints(whole - missing, whole, Share(whole, missing))
  {
    if whole > 0 { RoundedDown((whole - missing) * 10000, whole); }
  }

  lemma LevIsDistance(a: string, b: string)
    ensures IsDistance(a, b, Lev(a, b))
  {
    LevOptimal(a, b);
  }

  lemma EditScoreIs(a: string, b: string)
    ensures EditIs(a, b, EditScore(a, b))
  {
    LevIsDistance(a, b);
    LevMetric(a, b, b);
    ShareIs(Max(|a|, |b|), Lev(a, b));
  }

  lemma OneQuotient(x: int, d: nat, p: nat, q: nat)
    requires 0 < d && p * d <= x < (p + 1) * d && q * d <= x < (q + 1) * d
    ensures p == q
  {
    Scaled(p, q, d);
    Scaled(q, p, d);
  }

  lemma OneShare(part: int, whole: nat, r: nat, s: nat)
    requires BasisPoints(part, whole, r) && BasisPoints(part, whole, s)
    ensures r == s
  {
    if whole > 0 { OneQuotient(part * 10000, whole, r, s); }
  }

  /** There is one edit similarity. */
  lemma EditIsScore(a: string, b: string, r: nat)
    requires EditIs(a, b, r)
    ensures r == EditScore(a, b)
  {
    var d: nat :| IsDistance(a, b, d) && BasisPoints(Max(|a|, |b|) - d, Max(|a|, |b|), r);
    LevIsDistance(a, b);
    LevMetric(a, b, b);
    ShareIs(Max(|a|, |b|), d);
    OneShare(Max(|a|, |b|) - d, Max(|a|, |b|), r, EditScore(a, b));
  }

  lemma SortedJoinIs(tokens: seq<string>)
    ensures Arranged(tokens, SortedJoin(tokens))
  {
    StringOrder();
    SortSorted(StringLess, tokens);
    var s := SortStrings(tokens);
    assert multiset(s) == multiset(tokens) && SortedBy(StringLess, s) && SortedJoin(tokens) == Join(s, " ");
  }

  lemma BestEditScoreIs(query: string, candidate: string, qt: seq<string>, ct: seq<string>)
    ensures BestEditIs(query, candidate, qt, ct, BestEditScore(query, candidate, qt, ct))
  {
    var q, c := SortedJoin(qt), SortedJoin(ct);
    EditScoreIs(query, candidate);
    EditScoreIs(q, c);
    SortedJoinIs(qt);
    SortedJoinIs(ct);
    BestOfBoth(query, candidate, qt, ct, EditScore(query, candidate), EditScore(q, c), q, c);
  }

  lemma BestOfBoth(query: string, candidate: string, qt: seq<string>, ct: seq<string>, raw: nat, sorted: nat, q: string, c: string)
    requires EditIs(query, candidate, raw) && Arranged(qt, q) && Arranged(ct, c) && EditIs(q, c, sorted)
    ensures BestEditIs(query, candidate, qt, ct, if |qt| >= 2 || |ct| >= 2 then Max(raw, sorted) else raw)
  {
  }

  lemma LengthScoreIs(query: string, candidate: string)
    ensures LengthIs(query, candidate, LengthScore(query, candidate))
  {
    var d := if |query| < |candidate| then |candidate| - |query| else |query| - |candidate|;
    ShareIs(Max(|query|, |candidate|), d);
  }

  lemma NearIs(x: string, y: string)
    ensures NearTokens(x, y) <==> Near(x, y)
  {
    EditScoreIs(x, y);
    if NearTokens(x, y) {
      var r: nat :| EditIs(x, y, r) && r >= 7000;
      EditIsScore(x, y, r);
    }
  }

  lemma NearPairsAre(a: seq<string>, b: seq<string>, m: seq<(nat, nat)>)
    ensures NearPairs(a, b, m) <==> Ordered(Near, a, b, |a|, |b|, m)
  {
    forall x, y ensures NearTokens(x, y) <==> Near(x, y) { NearIs(x, y); }
  }

  lemma OrderedScoreIs(a: seq<string>, b: seq<string>)
    ensures OrderedIs(a, b, OrderedScore(a, b))
  {
    LongestOptimal(Near, a, b);
    var m :| Ordered(Near, a, b, |a|, |b|, m) && |m| == Longest(Near, a, b);
    NearPairsAre(a, b, m);
    forall other | NearPairs(a, b, other) ensures |other| <= |m| { NearPairsAre(a, b, other); }
    ShareIs(Max(|a|, |b|), Max(|a|, |b|) - |m|);
  }

  lemma SoundPairsAre(a: seq<string>, b: seq<string>, m: seq<(nat, nat)>)
    ensures SoundPairs(a, b, m) <==> Disjoint(Codes(a), Codes(b), m)
  {
  }

  lemma PhoneticScoreIs(a: seq<string>, b: seq<string>)
    ensures PhoneticIs(a, b, PhoneticScore(a, b))
  {
    CommonOptimal(Codes(a), Codes(b));
    CommonBounds(Codes(a), Codes(b));
    var m :| Disjoint(Codes(a), Codes(b), m) && |m| == Common(Codes(a), Codes(b));
    SoundPairsAre(a, b, m);
    forall other | SoundPairs(a, b, other) ensures |other| <= |m| { SoundPairsAre(a, b, other); }
    ShareIs(Max(|a|, |b|), Max(|a|, |b|) - |m|);
  }

  lemma BestIs(s: string, target: seq<string>)
    ensures NearestIs(s, target, Best(s, target))
  {
    BestIsBest(s, target);
    forall t | t in target ensures exists v: nat :: EditIs(s, t, v) && v <= Best(s, target) { EditScoreIs(s, t); }
    if Best(s, target) > 0 {
      var t :| t in target && EditScore(s, t) == Best(s, target);
      EditScoreIs(s, t);
    }
  }

  function Bests(source: seq<string>, target: seq<string>): (r: seq<nat>)
    ensures |r| == |source| && forall i :: 0 <= i < |source| ==> r[i] == Best(source[i], target)
  {
    seq(|source|, i requires 0 <= i < |source| => Best(source[i], target))
  }

  lemma {:induction false} TotalIs(source: seq<string>, target: seq<string>)
    ensures NameScore.Total(source, target) == SumOf(Bests(source, target))
  {
    if source != [] {
      var front := source[..|source| - 1];
      TotalIs(front, target);
      assert Bests(source, target)[..|source| - 1] == Bests(front, target);
    }
  }

  lemma DirectedScoreIs(source: seq<string>, target: seq<string>)
    requires source != []
    ensures DirectedIs(source, target, DirectedScore(source, target))
  {
    var values := Bests(source, target);
    forall i | 0 <= i < |source| ensures NearestIs(source[i], target, values[i]) { BestIs(source[i], target); }
    TotalIs(source, target);
    RoundedDown(NameScore.Total(source, target), |source|);
  }

  lemma AlignmentScoreIs(a: seq<string>, b: seq<string>)
    ensures AlignmentIs(a, b, AlignmentScore(a, b))
  {
    if a != [] && b != [] {
      DirectedScoreIs(a, b);
      DirectedScoreIs(b, a);
      Halved(a, b, DirectedScore(a, b), DirectedScore(b, a));
    }
  }

  lemma Halved(a: seq<string>, b: seq<string>, forth: nat, back: nat)
    requires a != [] && b != [] && DirectedIs(a, b, forth) && DirectedIs(b, a, back)
    ensures AlignmentIs(a, b, (forth + back) / 2)
  {
  }

  // ---------------------------------------------------------------- the evidence and the score

  /** The entry of one measure: its own name, similarity and weight, and the share of 10000 that these contribute. */
  ghost predicate EntryOf(m: Measure, f: Feature, query: string, candidate: string, qt: seq<string>, ct: seq<string>, p: Profile) {
    && f.name == NameOf(m) && f.weight == WeightOf(m, p) && MeasureIs(m, query, candidate, qt, ct, f.score)
    && f.contribution * 10000 <= f.score * f.weight < (f.contribution + 1) * 10000
  }

  function Listed(m: Measure): nat {
    match m
    case OfEdits => 0
    case OfLength => 1
    case OfOrder => 2
    case OfSound => 3
    case OfAlignment => 4
  }

  function ScoreOf(m: Measure, query: string, candidate: string, qt: seq<string>, ct: seq<string>): (r: nat)
    ensures r <= 10000
  {
    match m
    case OfEdits => BestEditScore(query, candidate, qt, ct)
    case OfLength => LengthScore(query, candidate)
    case OfOrder => OrderedScore(qt, ct)
    case OfSound => PhoneticScore(qt, ct)
    case OfAlignment => AlignmentScore(qt, ct)
  }

  lemma ScoreOfIs(m: Measure, query: string, candidate: string, qt: seq<string>, ct: seq<string>)
    ensures MeasureIs(m, query, candidate, qt, ct, ScoreOf(m, query, candidate, qt, ct))
  {
    match m
    case OfEdits => BestEditScoreIs(query, candidate, qt, ct);
    case OfLength => LengthScoreIs(query, candidate);
    case OfOrder => OrderedScoreIs(qt, ct);
    case OfSound => PhoneticScoreIs(qt, ct);
    case OfAlignment => AlignmentScoreIs(qt, ct);
  }

  lemma ListedEntry(m: Measure, query: string, candidate: string, qt: seq<string>, ct: seq<string>, p: Profile)
    ensures var f, s, w := Features(query, candidate, qt, ct, p)[Listed(m)], ScoreOf(m, query, candidate, qt, ct), WeightOf(m, p);
      f == Feature(NameOf(m), s, w, s * w / 10000)
  {
  }

  /** The evidence has one entry for each measure, in the order of their names. */
  lemma EvidenceIs(query: string, candidate: string, qt: seq<string>, ct: seq<string>, p: Profile, m: Measure)
    ensures |Features(query, candidate, qt, ct, p)| == 5
    ensures EntryOf(m, Features(query, candidate, qt, ct, p)[Listed(m)], query, candidate, qt, ct, p)
  {
    ListedEntry(m, query, candidate, qt, ct, p);
    ScoreOfIs(m, query, candidate, qt, ct);
    RoundedDown(ScoreOf(m, query, candidate, qt, ct) * WeightOf(m, p), 10000);
  }

  /** The penalty is taken exactly if the names differ and a side has a single token. */
  predicate PenaltyIs(query: string, candidate: string, qt: seq<string>, ct: seq<string>, p: Profile, taken: nat) {
    taken == if query == candidate then 0 else if |qt| == 1 || |ct| == 1 then p.singlePenalty else 0
  }

  /** The score is what the five entries contribute, less the penalty, and never below 0. */
  lemma ScoreIs(query: string, candidate: string, qt: seq<string>, ct: seq<string>, p: Profile, taken: nat)
    requires PenaltyIs(query, candidate, qt, ct, p, taken)
    ensures Penalty(query, candidate, qt, ct, p) == taken
    ensures var f := Features(query, candidate, qt, ct, p);
      var sum := f[0].contribution + f[1].contribution + f[2].contribution + f[3].contribution + f[4].contribution;
      NameScore.NameScore(query, candidate, qt, ct, p) == if sum < taken then 0 else sum - taken
  {
    SumOfFive(Features(query, candidate, qt, ct, p));
  }

  /** The profile has only this measure count. */
  predicate Alone(m: Measure, p: Profile) {
    p.edit + p.length + p.ordered + p.phonetic + p.alignment == 10000 == WeightOf(m, p)
  }

  lemma WholeOrNothing(score: nat, weight: nat)
    ensures weight == 10000 ==> score * weight / 10000 == score
    ensures weight == 0 ==> score * weight / 10000 == 0
  {
    Exact(score, 10000);
  }

  lemma EntryAlone(m: Measure, n: Measure, query: string, candidate: string, qt: seq<string>, ct: seq<string>, p: Profile)
    requires Alone(m, p)
    ensures Features(query, candidate, qt, ct, p)[Listed(n)].contribution
         == if n == m then ScoreOf(m, query, candidate, qt, ct) else 0
  {
    ListedEntry(n, query, candidate, qt, ct, p);
    WholeOrNothing(ScoreOf(n, query, candidate, qt, ct), WeightOf(n, p));
    if n != m { NoOther(m, n, p); }
  }

  lemma NoOther(m: Measure, n: Measure, p: Profile)
    requires Alone(m, p) && n != m
    ensures WeightOf(n, p) == 0
  {
  }

  /** A measure that alone counts decides the score: it is the measure less the penalty, never below 0. */
  lemma AloneDecides(m: Measure, query: string, candidate: string, qt: seq<string>, ct: seq<string>, p: Profile, taken: nat) returns (r: nat)
    requires Alone(m, p) && PenaltyIs(query, candidate, qt, ct, p, taken)
    ensures MeasureIs(m, query, candidate, qt, ct, r)
    ensures NameScore.NameScore(query, candidate, qt, ct, p) == if r < taken then 0 else r - taken
  {
    r := ScoreOf(m, query, candidate, qt, ct);
    ScoreOfIs(m, query, candidate, qt, ct);
    ScoreAlone(m, query, candidate, qt, ct, p, taken);
  }

  lemma ScoreAlone(m: Measure, query: string, candidate: string, qt: seq<string>, ct: seq<string>, p: Profile, taken: nat)
    requires Alone(m, p) && PenaltyIs(query, candidate, qt, ct, p, taken)
    ensures var r := ScoreOf(m, query, candidate, qt, ct);
      NameScore.NameScore(query, candidate, qt, ct, p) == if r < taken then 0 else r - taken
  {
    EntryAlone(m, OfEdits, query, candidate, qt, ct, p);
    EntryAlone(m, OfLength, query, candidate, qt, ct, p);
    EntryAlone(m, OfOrder, query, candidate, qt, ct, p);
    EntryAlone(m, OfSound, query, candidate, qt, ct, p);
    EntryAlone(m, OfAlignment, query, candidate, qt, ct, p);
    ScoreIs(query, candidate, qt, ct, p, taken);
  }

  // ---------------------------------------------------------------- Soundex

  /** The letters that sound alike share a digit; the others have none. */
  const GROUPS: seq<string> := ["BFPV", "CGJKQSXZ", "DT", "L", "MN", "R"]

  lemma DigitsAre(c: char, i: nat)
    requires i < 6
    ensures SoundexDigit(c) == ('1' as int + i) as char <==> c in GROUPS[i]
  {
  }

  /** The A to Z letters of a value in upper case; of the characters outside ASCII two have one. */
  lemma LetterIs(c: char, x: char)
    ensures UpperLetter(c) == [x] <==>
      'A' <= x <= 'Z' && (c == x || c as int == x as int + 32 || (c == '\U{0131}' && x == 'I') || (c == '\U{017F}' && x == 'S'))
  {
  }

  /** A letter after the first adds its digit, unless it has none or that of the letter before. */
  predicate Adds(letters: string, i: nat)
    requires i < |letters|
  {
    i > 0 && SoundexDigit(letters[i]) != '0' && SoundexDigit(letters[i]) != SoundexDigit(letters[i - 1])
  }

  /** These are the positions that do, in order. */
  predicate Adding(letters: string, positions: seq<nat>) {
    && (forall k, l :: 0 <= k < l < |positions| ==> positions[k] < positions[l])
    && (forall i :: 0 <= i < |letters| ==> (i in positions <==> Adds(letters, i)))
    && (forall k :: 0 <= k < |positions| ==> positions[k] < |letters|)
  }

  lemma {:induction false} KeptIs(letters: string) returns (positions: seq<nat>)
    ensures Adding(letters, positions) && |Kept(letters)| == |positions|
    ensures forall k :: 0 <= k < |positions| ==> Kept(letters)[k] == SoundexDigit(letters[positions[k]])
  {
    if |letters| <= 1 {
      positions := [];
    } else {
      var n := |letters| - 1;
      var before := KeptIs(letters[..n]);
      positions := before + (if Adds(letters, n) then [n] else []);
      AddingNext(letters, before);
    }
  }

  lemma AddingNext(letters: string, before: seq<nat>)
    requires |letters| > 1 && Adding(letters[..|letters| - 1], before)
    ensures Adding(letters, before + (if Adds(letters, |letters| - 1) then [|letters| - 1] else []))
  {
    var n := |letters| - 1;
    var positions := before + (if Adds(letters, n) then [n] else []);
    forall i | 0 <= i < n ensures i in positions <==> Adds(letters, i) {
      assert i in before <==> Adds(letters[..n], i);
    }
    assert forall k :: 0 <= k < |before| ==> before[k] < n;
  }

  /** The code of a value with a letter: its first letter, the digits its other letters add, and zeros, cut to four. */
  lemma CodeIs(value: string) returns (positions: seq<nat>, digits: string)
    requires Letters(value) != ""
    ensures Adding(Letters(value), positions) && |digits| == |positions|
    ensures forall k :: 0 <= k < |positions| ==> digits[k] == SoundexDigit(Letters(value)[positions[k]])
    ensures SoundexOf(value) == ([Letters(value)[0]] + digits + "000")[..4]
  {
    positions := KeptIs(Letters(value));
    digits := Kept(Letters(value));
  }
}
