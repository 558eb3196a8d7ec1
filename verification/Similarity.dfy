/** The name score of internal/matcherbaseline: edit, length, ordered-token, phonetic and alignment similarities in basis points. */
module Similarity {
  import opened EditDistance
  import opened TokenMatching

  // ---------------------------------------------------------------- edit and length similarity

  /** Basis points: the share of `whole` left after `missing`. */
  function Share(whole: nat, missing: nat): (r: nat)
    requires missing <= whole
    ensures r <= 10000
    ensures r == 10000 <==> missing == 0
  {
    if whole == 0 then 10000
    else
      ShareBounds(whole, missing);
      (whole - missing) * 10000 / whole
  }

  lemma ShareBounds(whole: nat, missing: nat)
    requires 0 < whole && missing <= whole
    ensures 0 <= (whole - missing) * 10000 / whole <= 10000
    ensures (whole - missing) * 10000 / whole == 10000 <==> missing == 0
  {
    AverageBounds((whole - missing) * 10000, whole);
  }

  lemma AverageBounds(total: nat, n: nat)
    requires 0 < n && total <= 10000 * n
    ensures total / n <= 10000
    ensures total / n == 10000 <==> total == 10000 * n
  {
    Monotone(total, 10000 * n, n);
    Exact(10000, n);
    if total < 10000 * n {
      Monotone(total, 9999 * n + (n - 1), n);
      Remainder(9999, n - 1, n);
    }
  }

  lemma Remainder(q: nat, r: nat, d: nat)
    requires r < d
    ensures (q * d + r) / d == q
  {
    var p := (q * d + r) / d;
    assert p * d <= q * d + r < (p + 1) * d;
    Scaled(p, q, d);
    Scaled(q, p, d);
  }

  lemma Exact(q: nat, d: nat)
    requires 0 < d
    ensures q * d / d == q
  {
    Remainder(q, 0, d);
  }

  lemma Scaled(p: nat, q: nat, d: nat)
    ensures p < q ==> (p + 1) * d <= q * d
  {
  }

  lemma Monotone(x: nat, y: nat, d: nat)
    requires x <= y && 0 < d
    ensures x / d <= y / d
  {
    var p, q := x / d, y / d;
    assert p * d <= x && y < (q + 1) * d;
    Scaled(q, p, d);
  }

  function EditScore(left: string, right: string): (r: nat)
    ensures r <= 10000
    ensures r == 10000 <==> left == right
  {
    LevMetric(left, right, right);
    Share(Max(|left|, |right|), Lev(left, right))
  }

  method EditSimilarity(left: string, right: string) returns (r: nat)
    ensures r == EditScore(left, right)
  {
    LevMetric(left, right, right);
    var m := |left|;
    if |right| > m { m := |right|; }
    if m == 0 { return 10000; }
    var d := Levenshtein(left, right);
    ShareBounds(m, d);
    return (m - d) * 10000 / m;
  }

  lemma EditScoreSymmetric(left: string, right: string)
    ensures EditScore(left, right) == EditScore(right, left)
  {
    LevMetric(left, right, right);
  }

  function LengthScore(left: string, right: string): (r: nat)
    ensures r <= 10000
    ensures r == 10000 <==> |left| == |right|
  {
    var d := if |left| < |right| then |right| - |left| else |left| - |right|;
    Share(Max(|left|, |right|), d)
  }

  /** Names differ in length by no more than they differ by edits. */
  lemma LengthBoundsEdit(left: string, right: string)
    ensures EditScore(left, right) <= LengthScore(left, right)
  {
    LevMetric(left, right, right);
    var m, d, e := Max(|left|, |right|), if |left| < |right| then |right| - |left| else |left| - |right|, Lev(left, right);
    if m > 0 { Monotone((m - e) * 10000, (m - d) * 10000, m); }
  }

  // ---------------------------------------------------------------- ordered tokens

  predicate Near(x: string, y: string) { EditScore(x, y) >= 7000 }

  lemma NearSymmetric()
    ensures forall x, y :: Near(x, y) == Near(y, x)
    ensures forall x :: Near(x, x)
  {
    forall x, y ensures Near(x, y) == Near(y, x) { EditScoreSymmetric(x, y); }
  }

  /** The share of the longer list that a longest order-preserving matching of near tokens covers. */
  function OrderedScore(left: seq<string>, right: seq<string>): (r: nat)
    ensures r <= 10000
  {
    Share(Max(|left|, |right|), Max(|left|, |right|) - Longest(Near, left, right))
  }

  /** Row x of the table is filled. */
  ghost predicate Filled(left: seq<string>, right: seq<string>, matrix: array2<nat>, x: nat)
    requires x <= |left| && matrix.Length0 == |left| + 1 && matrix.Length1 == |right| + 1
    reads matrix
  {
    forall y :: 0 <= y <= |right| ==> matrix[x, y] == LongestAt(Near, left, right, x, y)
  }

  /** Row i of the table from the row above. */
  method FillRow(left: seq<string>, right: seq<string>, matrix: array2<nat>, i: nat)
    requires 1 <= i <= |left| && matrix.Length0 == |left| + 1 && matrix.Length1 == |right| + 1
    requires Filled(left, right, matrix, i - 1) && matrix[i, 0] == 0
    modifies matrix
    ensures Filled(left, right, matrix, i)
    ensures forall x, y :: 0 <= x <= |left| && 0 <= y <= |right| && x != i ==> matrix[x, y] == old(matrix[x, y])
  {
    for j := 1 to |right| + 1
      invariant forall x, y :: 0 <= x <= |left| && 0 <= y <= |right| && x != i ==> matrix[x, y] == old(matrix[x, y])
      invariant forall y :: 0 <= y < j ==> matrix[i, y] == LongestAt(Near, left, right, i, y)
    {
      var v := EditSimilarity(left[i - 1], right[j - 1]);
      assert matrix[i - 1, j - 1] == LongestAt(Near, left, right, i - 1, j - 1);
      assert matrix[i - 1, j] == LongestAt(Near, left, right, i - 1, j);
      if v >= 7000 {
        matrix[i, j] := matrix[i - 1, j - 1] + 1;
      } else if matrix[i - 1, j] > matrix[i, j - 1] {
        matrix[i, j] := matrix[i - 1, j];
      } else {
        matrix[i, j] := matrix[i, j - 1];
      }
    }
  }

  method LongestMatching(left: seq<string>, right: seq<string>) returns (n: nat)
    ensures n == Longest(Near, left, right)
  {
    var matrix := new nat[|left| + 1, |right| + 1]((i, j) => 0);
    for i := 1 to |left| + 1
      invariant Filled(left, right, matrix, i - 1)
      invariant forall x :: i <= x <= |left| ==> matrix[x, 0] == 0
    {
      FillRow(left, right, matrix, i);
    }
    return matrix[|left|, |right|];
  }

  lemma OrderedRatio(left: seq<string>, right: seq<string>)
    ensures var m := Max(|left|, |right|);
      OrderedScore(left, right) == if m == 0 then 10000 else Longest(Near, left, right) * 10000 / m
  {
    var m, n := Max(|left|, |right|), Longest(Near, left, right);
    assert m - (m - n) == n;
  }

  method OrderedTokenSimilarity(left: seq<string>, right: seq<string>) returns (r: nat)
    ensures r == OrderedScore(left, right)
  {
    OrderedRatio(left, right);
    var m := |left|;
    if |right| > m { m := |right|; }
    if m == 0 { return 10000; }
    var n := LongestMatching(left, right);
    return n * 10000 / m;
  }

  lemma OrderedScoreSymmetric(left: seq<string>, right: seq<string>)
    ensures OrderedScore(left, right) == OrderedScore(right, left)
  {
    NearSymmetric();
    CellSymmetric(Near, left, right, |left|, |right|);
  }

  lemma OrderedScoreOfSame(tokens: seq<string>)
    ensures OrderedScore(tokens, tokens) == 10000
  {
    NearSymmetric();
    CellOfSame(Near, tokens, |tokens|);
  }

  // ---------------------------------------------------------------- phonetic codes

  /** The upper-case letter of a character, if it has one in A to Z: two letters outside ASCII do. */
  function UpperLetter(c: char): (r: seq<char>)
    ensures |r| <= 1 && forall x :: x in r ==> 'A' <= x <= 'Z'
  {
    if 'A' <= c <= 'Z' then [c]
    else if 'a' <= c <= 'z' then [(c as int - 32) as char]
    else if c == '\U{0131}' then "I"
    else if c == '\U{017F}' then "S"
    else []
  }

  function Letters(value: string): (r: string)
    ensures forall x :: x in r ==> 'A' <= x <= 'Z'
  {
    if value == "" then "" else UpperLetter(value[0]) + Letters(value[1..])
  }

  function SoundexDigit(v: char): (r: char)
    ensures '0' <= r <= '6'
  {
    if v in {'B', 'F', 'P', 'V'} then '1'
    else if v in {'C', 'G', 'J', 'K', 'Q', 'S', 'X', 'Z'} then '2'
    else if v in {'D', 'T'} then '3'
    else if v == 'L' then '4'
    else if v in {'M', 'N'} then '5'
    else if v == 'R' then '6'
    else '0'
  }

  /** The digits after the first letter that are not 0 and differ from the digit of the letter before. */
  function Kept(letters: string): string {
    if |letters| <= 1 then ""
    else
      var d := SoundexDigit(letters[|letters| - 1]);
      Kept(letters[..|letters| - 1]) + (if d != '0' && d != SoundexDigit(letters[|letters| - 2]) then [d] else "")
  }

  function Code(letters: string): (r: string)
    requires letters != ""
    ensures |r| == 4
  {
    ([letters[0]] + Kept(letters) + "000")[..4]
  }

  /** The code of a value: empty exactly when it has no letter. */
  function SoundexOf(value: string): (r: string)
    ensures r == "" <==> Letters(value) == ""
  {
    if Letters(value) == "" then "" else Code(Letters(value))
  }

  lemma {:induction false} KeptExtends(letters: string, i: nat)
    requires i <= |letters|
    ensures Kept(letters[..i]) <= Kept(letters)
    decreases |letters|
  {
    if i == |letters| {
      assert letters[..i] == letters;
    } else {
      var front := letters[..|letters| - 1];
      assert front[..i] == letters[..i];
      KeptExtends(front, i);
    }
  }

  /** Reading stops once the code has four characters; the rest of the letters could not change it. */
  method Soundex(value: string) returns (r: string)
    ensures r == SoundexOf(value)
  {
    var letters := Letters(value);
    if letters == "" { return ""; }
    var out := ReadLetters(letters);
    r := Padded(out);
  }

  method ReadLetters(letters: string) returns (out: string)
    requires letters != ""
    ensures 1 <= |out| <= 4 && (out + "000")[..4] == Code(letters)
  {
    FirstRead(letters);
    var prev := SoundexDigit(letters[0]);
    out := [letters[0]];
    var i := 1;
    while i < |letters| && |out| < 4
      invariant 1 <= i <= |letters| && 1 <= |out| <= 4 && ReadUpto(letters, i, out, prev)
    {
      out, prev := ReadLetter(letters, i, out, prev);
      i := i + 1;
    }
    ReadEnough(letters, i, out, prev);
  }

  /** One letter more: its digit, unless it is 0 or that of the letter before. */
  method ReadLetter(letters: string, i: nat, out: string, prev: char) returns (r: string, d: char)
    requires 1 <= i < |letters| && ReadUpto(letters, i, out, prev)
    ensures ReadUpto(letters, i + 1, r, d) && |out| <= |r| <= |out| + 1
  {
    ReadNext(letters, i, out, prev);
    d := SoundexDigit(letters[i]);
    r := if d != '0' && d != prev then out + [d] else out;
  }

  lemma FirstRead(letters: string)
    requires letters != ""
    ensures ReadUpto(letters, 1, [letters[0]], SoundexDigit(letters[0]))
  {
    assert Kept(letters[..1]) == "";
  }

  /** What the loop holds after i letters. */
  predicate ReadUpto(letters: string, i: nat, out: string, prev: char)
    requires 1 <= i <= |letters|
  {
    out == [letters[0]] + Kept(letters[..i]) && prev == SoundexDigit(letters[i - 1])
  }

  lemma ReadNext(letters: string, i: nat, out: string, prev: char)
    requires 1 <= i < |letters| && ReadUpto(letters, i, out, prev)
    ensures var d := SoundexDigit(letters[i]); ReadUpto(letters, i + 1, if d != '0' && d != prev then out + [d] else out, d)
  {
    assert letters[..i + 1][..i] == letters[..i];
  }

  /** Once all letters are read, or four characters found, the padded code is that of all the letters. */
  lemma ReadEnough(letters: string, i: nat, out: string, prev: char)
    requires 1 <= i <= |letters| && ReadUpto(letters, i, out, prev) && (i == |letters| || |out| == 4)
    ensures |out| <= 4 ==> (out + "000")[..4] == Code(letters)
  {
    KeptExtends(letters, i);
    if i == |letters| {
      assert letters[..i] == letters;
    } else {
      FourSuffice([letters[0]], Kept(letters[..i]), Kept(letters));
    }
  }

  lemma FourSuffice(first: string, kept: string, all: string)
    requires |first| == 1 && kept <= all && |kept| == 3
    ensures (first + kept + "000")[..4] == (first + all + "000")[..4]
  {
    assert (first + kept + "000")[..4] == first + kept;
    assert (first + all + "000")[..4] == first + all[..3];
  }

  /** Zeros up to four characters. */
  method Padded(code: string) returns (r: string)
    requires 1 <= |code| <= 4
    ensures r == (code + "000")[..4]
  {
    r := code;
    while |r| < 4
      invariant |code| <= |r| <= 4 && r == code + "000"[..|r| - |code|]
    {
      r := r + "0";
    }
  }

  function Codes(tokens: seq<string>): (r: seq<string>)
    ensures |r| == |tokens| && forall i :: 0 <= i < |r| ==> r[i] == SoundexOf(tokens[i])
  {
    seq(|tokens|, i requires 0 <= i < |tokens| => SoundexOf(tokens[i]))
  }

  /** The share of the longer list covered by a largest matching of equal, non-empty codes. */
  function PhoneticScore(left: seq<string>, right: seq<string>): (r: nat)
    ensures r <= 10000
  {
    CommonBounds(Codes(left), Codes(right));
    Share(Max(|left|, |right|), Max(|left|, |right|) - Common(Codes(left), Codes(right)))
  }

  method CodesOf(tokens: seq<string>) returns (codes: seq<string>)
    ensures codes == Codes(tokens)
  {
    var out := new string[|tokens|](i => "");
    for i := 0 to |tokens|
      invariant CodedUpto(tokens, out[..], i)
    {
      var code := Soundex(tokens[i]);
      out[i] := code;
    }
    assert out[..] == Codes(tokens);
    return out[..];
  }

  /** The first n codes are in place. */
  predicate CodedUpto(tokens: seq<string>, codes: seq<string>, n: nat) {
    |codes| == |tokens| && n <= |tokens| && forall k :: 0 <= k < n ==> codes[k] == SoundexOf(tokens[k])
  }

  /** Position i is the first one with code c that is still free; the length if there is none. */
  ghost predicate IsFirstFree(rc: seq<string>, used: seq<bool>, c: string, i: nat)
    requires |used| == |rc|
  {
    && i <= |rc|
    && (i < |rc| ==> !used[i] && c != "" && c == rc[i])
    && (forall j :: 0 <= j < i ==> used[j] || c == "" || c != rc[j])
  }

  function Taken(used: seq<bool>, i: nat): (r: seq<bool>)
    ensures |r| == |used|
  {
    if i < |used| then used[i := true] else used
  }

  /** The inner loop: mark the first free position with the code and stop. */
  method TakeFirstFree(rc: seq<string>, used: array<bool>, c: string) returns (i: nat)
    requires used.Length == |rc|
    modifies used
    ensures IsFirstFree(rc, old(used[..]), c, i)
    ensures used[..] == Taken(old(used[..]), i)
  {
    i := 0;
    while i < |rc|
      invariant 0 <= i <= |rc| && used[..] == old(used[..])
      invariant forall j :: 0 <= j < i ==> used[j] || c == "" || c != rc[j]
    {
      if !used[i] && c != "" && c == rc[i] {
        used[i] := true;
        return;
      }
      i := i + 1;
    }
  }

  /** The codes at the positions still free, blanks elsewhere. */
  ghost function Free(rc: seq<string>, used: seq<bool>): (r: seq<string>)
    requires |used| == |rc|
    ensures |r| == |rc| && forall i :: 0 <= i < |rc| ==> r[i] == if used[i] then "" else rc[i]
  {
    seq(|rc|, i requires 0 <= i < |rc| => if used[i] then "" else rc[i])
  }

  /** What the greedy loop has found after k codes: the rest is what multiset difference leaves. */
  ghost predicate Progress(lc: seq<string>, k: nat, rc: seq<string>, used: seq<bool>, matches: nat) {
    && k <= |lc| && |used| == |rc|
    && Named(Free(rc, used)) == Named(rc) - Named(lc[..k])
    && matches == Common(lc[..k], rc)
  }

  /** The greedy loop: every code takes the first free equal one. */
  method GreedyMatches(lc: seq<string>, rc: seq<string>) returns (matches: nat)
    ensures matches == Common(lc, rc)
  {
    var used := new bool[|rc|](i => false);
    matches := 0;
    GreedyStart(lc, rc, used[..]);
    for k := 0 to |lc|
      invariant Progress(lc, k, rc, used[..], matches)
    {
      ghost var before := used[..];
      var i := TakeFirstFree(rc, used, lc[k]);
      GreedyStep(lc, k, rc, before, matches, i);
      if i < |rc| { matches := matches + 1; }
    }
    assert lc[..|lc|] == lc;
  }

  lemma GreedyStart(lc: seq<string>, rc: seq<string>, used: seq<bool>)
    requires |used| == |rc| && forall i :: 0 <= i < |rc| ==> !used[i]
    ensures Progress(lc, 0, rc, used, 0)
  {
    assert Free(rc, used) == rc;
  }

  lemma GreedyStep(lc: seq<string>, k: nat, rc: seq<string>, used: seq<bool>, matches: nat, i: nat)
    requires k < |lc| && Progress(lc, k, rc, used, matches) && IsFirstFree(rc, used, lc[k], i)
    ensures Progress(lc, k + 1, rc, Taken(used, i), if i < |rc| then matches + 1 else matches)
  {
    NamedNext(lc, k);
    FreeNext(rc, used, lc[k], i);
    if lc[k] != "" {
      Intersect(Named(lc[..k]), Named(rc), lc[k]);
      Subtract(Named(rc), Named(lc[..k]), lc[k]);
    }
  }

  lemma FreeNext(rc: seq<string>, used: seq<bool>, c: string, i: nat)
    requires |used| == |rc| && IsFirstFree(rc, used, c, i)
    ensures Named(Free(rc, Taken(used, i))) == Named(Free(rc, used)) - (if i < |rc| then multiset{c} else multiset{})
    ensures c != "" ==> (i < |rc| <==> c in Named(Free(rc, used)))
  {
    var rest := Free(rc, used);
    if i < |rc| {
      assert Free(rc, Taken(used, i)) == rest[i := ""];
      Blanked(rest, i);
    } else if c != "" {
      assert c !in rest;
      assert c !in multiset(rest);
    }
  }

  lemma NamedNext(lc: seq<string>, k: nat)
    requires k < |lc|
    ensures Named(lc[..k + 1]) == if lc[k] == "" then Named(lc[..k]) else Named(lc[..k]) + multiset{lc[k]}
  {
    assert lc[..k + 1] == lc[..k] + [lc[k]];
  }

  lemma Subtract(t: multiset<string>, s: multiset<string>, c: string)
    ensures t - (s + multiset{c}) == if c in t - s then (t - s) - multiset{c} else t - s
    ensures c in t - s <==> t[c] > s[c]
  {
  }

  lemma Intersect(s: multiset<string>, t: multiset<string>, c: string)
    ensures |(s + multiset{c}) * t| == |s * t| + (if t[c] > s[c] then 1 else 0)
  {
    if t[c] > s[c] {
      assert (s + multiset{c}) * t == s * t + multiset{c};
    } else {
      assert (s + multiset{c}) * t == s * t;
    }
  }

  lemma PhoneticRatio(left: seq<string>, right: seq<string>)
    ensures left == [] && right == [] ==> PhoneticScore(left, right) == 10000
    ensures left != [] || right != [] ==>
      PhoneticScore(left, right) == Common(Codes(left), Codes(right)) * 10000 / Max(|left|, |right|)
    ensures (left == []) != (right == []) ==> PhoneticScore(left, right) == 0
  {
    var n, m := Common(Codes(left), Codes(right)), Max(|left|, |right|);
    CommonBounds(Codes(left), Codes(right));
    if m > 0 {
      assert m - (m - n) == n;
      Exact(0, m);
    }
  }

  method PhoneticSimilarity(left: seq<string>, right: seq<string>) returns (r: nat)
    ensures r == PhoneticScore(left, right)
  {
    PhoneticRatio(left, right);
    if |left| == 0 && |right| == 0 { return 10000; }
    if |left| == 0 || |right| == 0 { return 0; }
    var lc := CodesOf(left);
    var rc := CodesOf(right);
    var matches := GreedyMatches(lc, rc);
    var m := |lc|;
    if |rc| > m { m := |rc|; }
    return matches * 10000 / m;
  }

  lemma PhoneticScoreSymmetric(left: seq<string>, right: seq<string>)
    ensures PhoneticScore(left, right) == PhoneticScore(right, left)
  {
    CommonBounds(Codes(left), Codes(right));
  }

  /** Tokens without a letter never match, not even themselves. */
  lemma PhoneticScoreOfSame(tokens: seq<string>)
    ensures PhoneticScore(tokens, tokens) == 10000 <==> forall t :: t in tokens ==> Letters(t) != ""
  {
    CommonBounds(Codes(tokens), Codes(tokens));
    CommonOfSame(Codes(tokens));
    forall t | t in tokens ensures SoundexOf(t) in Codes(tokens) {
      var i :| 0 <= i < |tokens| && tokens[i] == t;
      assert Codes(tokens)[i] == SoundexOf(t);
    }
    if "" in Codes(tokens) {
      var i :| 0 <= i < |tokens| && Codes(tokens)[i] == "";
      assert Letters(tokens[i]) == "";
    }
  }
}
