/** Token alignment and the score of a name. */
module NameScore {
  import opened EditDistance
  import opened TokenMatching
  import opened Ordering
  import opened Text
  import opened Similarity

  /** The edit score of the nearest target token. */
  function Best(s: string, target: seq<string>): nat {
    if target == [] then 0
    else
      var rest, v := Best(s, target[..|target| - 1]), EditScore(s, target[|target| - 1]);
      if v > rest then v else rest
  }

  lemma {:induction false} BestIsBest(s: string, target: seq<string>)
    ensures Best(s, target) <= 10000
    ensures Best(s, target) == 10000 <==> s in target
    ensures forall t :: t in target ==> EditScore(s, t) <= Best(s, target)
    ensures Best(s, target) == 0 || exists t :: t in target && EditScore(s, t) == Best(s, target)
  {
    if target != [] {
      var front, last := target[..|target| - 1], target[|target| - 1];
      assert target == front + [last];
      BestIsBest(s, front);
      if EditScore(s, last) > Best(s, front) { assert last in target; }
    }
  }

  function Total(source: seq<string>, target: seq<string>): nat {
    if source == [] then 0
    else Total(source[..|source| - 1], target) + Best(source[|source| - 1], target)
  }

  lemma {:induction false} TotalBounds(source: seq<string>, target: seq<string>)
    ensures Total(source, target) <= 10000 * |source|
    ensures Total(source, target) == 10000 * |source| <==> forall s :: s in source ==> s in target
  {
    if source != [] {
      var front, last := source[..|source| - 1], source[|source| - 1];
      assert source == front + [last];
      TotalBounds(front, target);
      BestIsBest(last, target);
    }
  }

  function DirectedScore(source: seq<string>, target: seq<string>): (r: nat)
    requires source != []
    ensures r <= 10000
    ensures r == 10000 <==> forall s :: s in source ==> s in target
  {
    TotalBounds(source, target);
    AverageBounds(Total(source, target), |source|);
    Total(source, target) / |source|
  }

  /** The inner loop of directedTokenScore. */
  method BestOf(s: string, target: seq<string>) returns (best: nat)
    ensures best == Best(s, target)
  {
    best := 0;
    for j := 0 to |target|
      invariant best == Best(s, target[..j])
    {
      assert target[..j + 1][..j] == target[..j];
      var v := EditSimilarity(s, target[j]);
      if v > best { best := v; }
    }
    assert target[..|target|] == target;
  }

  /** The outer loop of directedTokenScore. */
  method TotalOf(source: seq<string>, target: seq<string>) returns (total: nat)
    ensures total == Total(source, target)
  {
    total := 0;
    for i := 0 to |source|
      invariant total == Total(source[..i], target)
    {
      assert source[..i + 1][..i] == source[..i];
      var best := BestOf(source[i], target);
      total := total + best;
    }
    assert source[..|source|] == source;
  }

  method DirectedTokenScore(source: seq<string>, target: seq<string>) returns (r: nat)
    requires source != []
    ensures r == DirectedScore(source, target)
  {
    var total := TotalOf(source, target);
    return total / |source|;
  }

  function AlignmentScore(left: seq<string>, right: seq<string>): (r: nat)
    ensures r <= 10000
  {
    if left == [] && right == [] then 10000
    else if left == [] || right == [] then 0
    else (DirectedScore(left, right) + DirectedScore(right, left)) / 2
  }

  method TokenAlignmentSimilarity(left: seq<string>, right: seq<string>) returns (r: nat)
    ensures r == AlignmentScore(left, right)
  {
    if |left| == 0 && |right| == 0 { return 10000; }
    if |left| == 0 || |right| == 0 { return 0; }
    var forth := DirectedTokenScore(left, right);
    var back := DirectedTokenScore(right, left);
    return (forth + back) / 2;
  }

  /** Perfect alignment is having the same tokens, in any order and number. */
  lemma PerfectAlignment(left: seq<string>, right: seq<string>)
    ensures AlignmentScore(left, right) == 10000 <==> forall t :: t in left <==> t in right
    ensures AlignmentScore(left, right) == AlignmentScore(right, left)
  {
    if left != [] && right == [] { assert left[0] in left; }
    if left == [] && right != [] { assert right[0] in right; }
  }

  // ---------------------------------------------------------------- best edit similarity

  function SortedJoin(tokens: seq<string>): string { Join(SortStrings(tokens), " ") }

  function BestEditScore(query: string, candidate: string, qt: seq<string>, ct: seq<string>): (r: nat)
    ensures r <= 10000
    ensures EditScore(query, candidate) <= r
  {
    var raw, sorted := EditScore(query, candidate), EditScore(SortedJoin(qt), SortedJoin(ct));
    if |qt| < 2 && |ct| < 2 then raw else Max(raw, sorted)
  }

  method BestEditSimilarity(query: string, candidate: string, qt: seq<string>, ct: seq<string>) returns (r: nat)
    ensures r == BestEditScore(query, candidate, qt, ct)
  {
    var raw := EditSimilarity(query, candidate);
    if |qt| < 2 && |ct| < 2 { return raw; }
    var sorted := EditSimilarity(SortedJoin(qt), SortedJoin(ct));
    if sorted > raw { return sorted; }
    return raw;
  }

  lemma BestEditSymmetric(query: string, candidate: string, qt: seq<string>, ct: seq<string>)
    ensures BestEditScore(query, candidate, qt, ct) == BestEditScore(candidate, query, ct, qt)
  {
    EditScoreSymmetric(query, candidate);
    EditScoreSymmetric(SortedJoin(qt), SortedJoin(ct));
  }

  /** A pure reordering of two or more tokens costs nothing in edit or alignment similarity, and
      phonetically scores as the name against itself. */
  lemma ReorderingIsFree(query: string, candidate: string, qt: seq<string>, ct: seq<string>)
    requires multiset(qt) == multiset(ct) && |qt| >= 2
    ensures BestEditScore(query, candidate, qt, ct) == 10000
    ensures AlignmentScore(qt, ct) == 10000
    ensures PhoneticScore(qt, ct) == PhoneticScore(qt, qt)
  {
    SortStringsForgetsOrder(qt, ct);
    MembersSame(qt, ct);
    PerfectAlignment(qt, ct);
    PhoneticOfReordered(qt, ct);
  }

  lemma WithoutOne(b: seq<string>, j: nat)
    requires j < |b|
    ensures multiset(Codes(b)) == multiset(Codes(b[..j] + b[j + 1..])) + multiset{SoundexOf(b[j])}
  {
    assert Codes(b[..j] + b[j + 1..]) == Codes(b)[..j] + Codes(b)[j + 1..];
    WithoutAt(Codes(b), j);
  }

  lemma {:induction false} CodesForgetOrder(a: seq<string>, b: seq<string>)
    requires multiset(a) == multiset(b)
    ensures multiset(Codes(a)) == multiset(Codes(b))
    decreases |a|
  {
    if a == [] {
      MembersSame(a, b);
    } else {
      var j := FirstElsewhere(a, b);
      CodesForgetOrder(a[1..], b[..j] + b[j + 1..]);
      assert Codes(a) == [SoundexOf(a[0])] + Codes(a[1..]);
      WithoutOne(b, j);
    }
  }

  lemma PhoneticOfReordered(a: seq<string>, b: seq<string>)
    requires multiset(a) == multiset(b)
    ensures PhoneticScore(a, b) == PhoneticScore(a, a)
  {
    CodesForgetOrder(a, b);
    MembersSame(a, b);
    assert Common(Codes(a), Codes(b)) == Common(Codes(a), Codes(a));
  }

  // ---------------------------------------------------------------- the name score

  datatype Profile = Profile(edit: nat, length: nat, ordered: nat, phonetic: nat, alignment: nat, singlePenalty: nat)

  /** What ValidateProfileSet demands of a profile's weights and single-token penalty. */
  predicate Balanced(p: Profile) {
    && p.edit + p.length + p.ordered + p.phonetic + p.alignment == 10000
    && p.singlePenalty <= 10000
  }

  datatype Feature = Feature(name: string, score: nat, weight: nat, contribution: nat)

  function Weigh(name: string, score: nat, weight: nat): Feature { Feature(name, score, weight, score * weight / 10000) }

  /** The evidence: the five features in name order. */
  function Features(query: string, candidate: string, qt: seq<string>, ct: seq<string>, p: Profile): (r: seq<Feature>)
    ensures |r| == 5
  {
    [Weigh("edit_similarity", BestEditScore(query, candidate, qt, ct), p.edit),
     Weigh("length_similarity", LengthScore(query, candidate), p.length),
     Weigh("ordered_token_similarity", OrderedScore(qt, ct), p.ordered),
     Weigh("phonetic_similarity", PhoneticScore(qt, ct), p.phonetic),
     Weigh("token_alignment_similarity", AlignmentScore(qt, ct), p.alignment)]
  }

  function Sum(features: seq<Feature>): nat {
    if features == [] then 0 else Sum(features[..|features| - 1]) + features[|features| - 1].contribution
  }

  function Penalty(query: string, candidate: string, qt: seq<string>, ct: seq<string>, p: Profile): nat {
    if query != candidate && (|qt| == 1 || |ct| == 1) then p.singlePenalty else 0
  }

  function NameScore(query: string, candidate: string, qt: seq<string>, ct: seq<string>, p: Profile): nat {
    var total, penalty := Sum(Features(query, candidate, qt, ct, p)), Penalty(query, candidate, qt, ct, p);
    if total < penalty then 0 else total - penalty
  }

  /** The loop of scoreName: fill in every contribution and add them up. */
  method Contribute(features: seq<Feature>, ghost weighed: seq<Feature>) returns (total: nat, r: seq<Feature>)
    requires |features| == |weighed|
    requires forall k :: 0 <= k < |features| ==> weighed[k] == Weigh(features[k].name, features[k].score, features[k].weight)
    ensures r == weighed && total == Sum(weighed)
  {
    r, total := features, 0;
    for i := 0 to |features|
      invariant |r| == |features|
      invariant forall k :: 0 <= k < i ==> r[k] == weighed[k]
      invariant forall k :: i <= k < |features| ==> r[k] == features[k]
      invariant total == Sum(weighed[..i])
    {
      r := r[i := r[i].(contribution := r[i].score * r[i].weight / 10000)];
      assert weighed[..i + 1][..i] == weighed[..i];
      total := total + r[i].contribution;
    }
    assert weighed[..|weighed|] == weighed;
  }

  /** scoreName; the token lists of the two names are given. */
  method ScoreName(query: string, candidate: string, qt: seq<string>, ct: seq<string>, p: Profile)
    returns (score: int, features: seq<Feature>, penalty: nat)
    ensures score == NameScore(query, candidate, qt, ct, p)
    ensures features == Features(query, candidate, qt, ct, p)
    ensures penalty == Penalty(query, candidate, qt, ct, p)
  {
    var edit := BestEditSimilarity(query, candidate, qt, ct);
    var ordered := OrderedTokenSimilarity(qt, ct);
    var phonetic := PhoneticSimilarity(qt, ct);
    var alignment := TokenAlignmentSimilarity(qt, ct);
    features := [
      Feature("edit_similarity", edit, p.edit, 0),
      Feature("length_similarity", LengthScore(query, candidate), p.length, 0),
      Feature("ordered_token_similarity", ordered, p.ordered, 0),
      Feature("phonetic_similarity", phonetic, p.phonetic, 0),
      Feature("token_alignment_similarity", alignment, p.alignment, 0)];
    ghost var weighed := Features(query, candidate, qt, ct, p);
    score, features := Contribute(features, weighed);
    penalty := 0;
    if query != candidate && (|qt| == 1 || |ct| == 1) { penalty := penalty + p.singlePenalty; }
    score := score - penalty;
    if score < 0 { score := 0; }
  }

  lemma Contribution(score: nat, weight: nat)
    requires score <= 10000
    ensures score * weight / 10000 <= weight
    ensures score == 10000 ==> score * weight / 10000 == weight
    ensures score < 10000 && 0 < weight ==> score * weight / 10000 < weight
  {
    Exact(weight, 10000);
    Monotone(score * weight, 10000 * weight, 10000);
    if score < 10000 && 0 < weight {
      assert score * weight <= 9999 * weight;
      assert 9999 * weight < 10000 * weight;
      Monotone(score * weight, (weight - 1) * 10000 + 9999, 10000);
      Remainder(weight - 1, 9999, 10000);
    }
  }

  lemma SumOfFive(f: seq<Feature>)
    requires |f| == 5
    ensures Sum(f) == f[0].contribution + f[1].contribution + f[2].contribution + f[3].contribution + f[4].contribution
  {
    assert f[..4][..3] == f[..3] && f[..3][..2] == f[..2] && f[..2][..1] == f[..1] && f[..1][..0] == [];
    assert Sum(f[..1]) == f[0].contribution;
    assert Sum(f[..2]) == Sum(f[..1]) + f[1].contribution;
    assert Sum(f[..3]) == Sum(f[..2]) + f[2].contribution;
    assert Sum(f[..4]) == Sum(f[..3]) + f[3].contribution;
  }

  /** Under a balanced profile the score is in basis points. */
  lemma ScoreInRange(query: string, candidate: string, qt: seq<string>, ct: seq<string>, p: Profile)
    requires Balanced(p)
    ensures NameScore(query, candidate, qt, ct, p) <= 10000
  {
    SumOfFive(Features(query, candidate, qt, ct, p));
    Contribution(BestEditScore(query, candidate, qt, ct), p.edit);
    Contribution(LengthScore(query, candidate), p.length);
    Contribution(OrderedScore(qt, ct), p.ordered);
    Contribution(PhoneticScore(qt, ct), p.phonetic);
    Contribution(AlignmentScore(qt, ct), p.alignment);
  }

  /** Query and candidate may be swapped: score, evidence and penalty are the same. */
  lemma ScoreSymmetric(query: string, candidate: string, qt: seq<string>, ct: seq<string>, p: Profile)
    ensures Features(query, candidate, qt, ct, p) == Features(candidate, query, ct, qt, p)
    ensures NameScore(query, candidate, qt, ct, p) == NameScore(candidate, query, ct, qt, p)
  {
    BestEditSymmetric(query, candidate, qt, ct);
    OrderedScoreSymmetric(qt, ct);
    PhoneticScoreSymmetric(qt, ct);
    PerfectAlignment(qt, ct);
  }

  /** A name scores 10000 against itself exactly when all its tokens have a letter, or phonetics carry no weight. */
  lemma IdenticalNames(name: string, tokens: seq<string>, p: Profile)
    requires Balanced(p)
    ensures NameScore(name, name, tokens, tokens, p) == 10000
      <==> (p.phonetic == 0 || forall t :: t in tokens ==> Letters(t) != "")
  {
    SumOfFive(Features(name, name, tokens, tokens, p));
    PerfectAlignment(tokens, tokens);
    OrderedScoreOfSame(tokens);
    PhoneticScoreOfSame(tokens);
    assert BestEditScore(name, name, tokens, tokens) == 10000;
    Contribution(10000, p.edit);
    Contribution(10000, p.length);
    Contribution(10000, p.ordered);
    Contribution(10000, p.alignment);
    Contribution(PhoneticScore(tokens, tokens), p.phonetic);
  }

  /** For example a name of one digit. */
  lemma DigitName(p: Profile)
    requires Balanced(p) && p.phonetic > 0
    ensures NameScore("7", "7", ["7"], ["7"], p) < 10000
  {
    assert Letters("7") == "" && "7" in ["7"];
    IdenticalNames("7", ["7"], p);
    ScoreInRange("7", "7", ["7"], ["7"], p);
  }
}
