/** The canonical text forms of internal/candidatescoring: upper case, letters and digits, single spaces. */
module CandidateText {
  import opened Text
  import opened Ordering

  /** Unicode's view of a character: its upper and lower case, and whether it is a letter or digit. */
  datatype Alphabet = Alphabet(upper: char -> char, lower: char -> char, word: char -> bool)

  /** Upper-casing twice is upper-casing once, and white space stays outside words. */
  ghost predicate Sound(u: Alphabet) {
    && (forall c :: u.upper(u.upper(c)) == u.upper(c))
    && (forall c :: IsSpace(c) ==> !u.word(u.upper(c)) && !u.word(c))
  }

  // ---------------------------------------------------------------- normalizeText

  /** The loop of normalizeText: what is written so far, and whether it ends in a space or is empty. */
  function Squeezed(u: Alphabet, s: string): (string, bool) {
    if s == "" then ("", true)
    else
      var (b, lastSpace) := Squeezed(u, s[..|s| - 1]);
      var c := u.upper(s[|s| - 1]);
      if u.word(c) then (b + [c], false) else if lastSpace then (b, true) else (b + " ", true)
  }

  function NormalizeText(u: Alphabet, value: string): string { Trim(Squeezed(u, Trim(value)).0) }

  method Normalize(u: Alphabet, value: string) returns (r: string)
    ensures r == NormalizeText(u, value)
  {
    var s := Trim(value);
    var b, lastSpace := "", true;
    for i := 0 to |s|
      invariant Squeezed(u, s[..i]) == (b, lastSpace)
    {
      assert s[..i + 1][..i] == s[..i];
      var c := u.upper(s[i]);
      if u.word(c) {
        b, lastSpace := b + [c], false;
      } else if !lastSpace {
        b, lastSpace := b + " ", true;
      }
    }
    assert s[..|s|] == s;
    return Trim(b);
  }

  /** A character the loop writes: an upper-case word character, or a space between words. */
  predicate Written(u: Alphabet, s: string, i: nat)
    requires i < |s|
  {
    if s[i] == ' ' then i > 0 && s[i - 1] != ' ' else u.word(s[i]) && u.upper(s[i]) == s[i]
  }

  /** Words of upper-case letters and digits, one space between them and perhaps one after the last. */
  predicate Spaced(u: Alphabet, s: string) { forall i :: 0 <= i < |s| ==> Written(u, s, i) }

  lemma {:induction false} SqueezedSpaced(u: Alphabet, s: string)
    requires Sound(u)
    ensures Spaced(u, Squeezed(u, s).0)
    ensures Squeezed(u, s).1 <==> Squeezed(u, s).0 == "" || Squeezed(u, s).0[|Squeezed(u, s).0| - 1] == ' '
  {
    if s != "" {
      SqueezedSpaced(u, s[..|s| - 1]);
      var b, r := Squeezed(u, s[..|s| - 1]).0, Squeezed(u, s).0;
      assert IsSpace(' ');
      forall i | 0 <= i < |r| ensures Written(u, r, i) {
        if i < |b| { assert Written(u, b, i) && r[..|b|] == b; }
      }
    }
  }

  /** Trimming takes off at most the one space at the end. */
  lemma SpacedTrim(u: Alphabet, s: string)
    requires Sound(u) && Spaced(u, s)
    ensures Trim(s) == if s != "" && s[|s| - 1] == ' ' then s[..|s| - 1] else s
  {
    if s != "" {
      assert Written(u, s, 0) && Written(u, s, |s| - 1);
      assert !IsSpace(s[0]);
      assert TrimLeft(s) == s;
      if s[|s| - 1] == ' ' {
        assert Written(u, s, |s| - 2);
        var front := s[..|s| - 1];
        assert !IsSpace(front[|front| - 1]);
        assert TrimRight(front) == front;
      }
    }
  }

  /** Spaced text is what the loop makes of it. */
  lemma {:induction false} SqueezedFixed(u: Alphabet, s: string)
    requires Sound(u) && Spaced(u, s)
    ensures Squeezed(u, s) == (s, s == "" || s[|s| - 1] == ' ')
  {
    if s != "" {
      var front := s[..|s| - 1];
      forall i | 0 <= i < |front| ensures Written(u, front, i) { assert Written(u, s, i); }
      SqueezedFixed(u, front);
      assert Written(u, s, |s| - 1);
      assert IsSpace(' ') && front + [s[|s| - 1]] == s;
    }
  }

  /** Normalizing twice is normalizing once. */
  lemma NormalizeIdempotent(u: Alphabet, value: string)
    requires Sound(u)
    ensures NormalizeText(u, NormalizeText(u, value)) == NormalizeText(u, value)
  {
    var b, r := Squeezed(u, Trim(value)).0, NormalizeText(u, value);
    SqueezedSpaced(u, Trim(value));
    SpacedTrim(u, b);
    assert r <= b;
    forall i | 0 <= i < |r| ensures Written(u, r, i) { assert Written(u, b, i); }
    if b != "" { assert Written(u, b, |b| - 1); }
    SpacedTrim(u, r);
    SqueezedFixed(u, r);
  }

  predicate WordChar(u: Alphabet, c: char) { u.word(u.upper(c)) }

  /** The longest runs of word characters, in upper case. */
  function Words(u: Alphabet, s: string): (r: seq<string>)
    ensures s != "" && WordChar(u, s[|s| - 1]) ==> r != []
  {
    if s == "" then []
    else
      var before, c := Words(u, s[..|s| - 1]), s[|s| - 1];
      if !WordChar(u, c) then before
      else if |s| > 1 && WordChar(u, s[|s| - 2]) then before[..|before| - 1] + [before[|before| - 1] + [u.upper(c)]]
      else before + [[u.upper(c)]]
  }

  /** The last word grows by a character. */
  lemma JoinGrows(words: seq<string>, c: char)
    requires words != []
    ensures Join(words[..|words| - 1] + [words[|words| - 1] + [c]], " ") == Join(words, " ") + [c]
  {
    var front, last := words[..|words| - 1], words[|words| - 1];
    assert words == front + [last];
    GrownLast(front, last, c);
  }

  lemma GrownLast(front: seq<string>, last: string, c: char)
    ensures Join(front + [last + [c]], " ") == Join(front + [last], " ") + [c]
  {
    JoinLast(front, last, " ");
    JoinLast(front, last + [c], " ");
    assert Join(front, " ") + " " + (last + [c]) == (Join(front, " ") + " " + last) + [c];
  }

  lemma {:induction false} SqueezedWords(u: Alphabet, s: string)
    requires Sound(u)
    ensures var (b, lastSpace) := Squeezed(u, s); var words := Words(u, s);
      && (lastSpace <==> s == "" || !WordChar(u, s[|s| - 1]) )
      && b == (if words == [] then "" else if lastSpace then Join(words, " ") + " " else Join(words, " "))
  {
    if s != "" {
      var front, c := s[..|s| - 1], s[|s| - 1];
      var words := Words(u, front);
      SqueezedWords(u, front);
      if WordChar(u, c) {
        if |s| > 1 && WordChar(u, s[|s| - 2]) {
          JoinGrows(words, u.upper(c));
        } else {
          JoinLast(words, [u.upper(c)], " ");
        }
      }
    }
  }

  lemma {:induction false} WordsAfterSpace(u: Alphabet, c: char, s: string)
    requires !WordChar(u, c)
    ensures Words(u, [c] + s) == Words(u, s)
  {
    var all := [c] + s;
    if s == "" {
      assert all[..0] == "";
    } else {
      var front := s[..|s| - 1];
      assert all[..|all| - 1] == [c] + front && all[|all| - 1] == s[|s| - 1];
      assert |s| > 1 ==> all[|all| - 2] == s[|s| - 2];
      WordsAfterSpace(u, c, front);
    }
  }

  lemma {:induction false} WordsTrimLeft(u: Alphabet, s: string)
    requires Sound(u)
    ensures Words(u, TrimLeft(s)) == Words(u, s)
  {
    if s != "" && IsSpace(s[0]) {
      WordsTrimLeft(u, s[1..]);
      WordsAfterSpace(u, s[0], s[1..]);
      assert [s[0]] + s[1..] == s;
    }
  }

  lemma {:induction false} WordsTrimRight(u: Alphabet, s: string)
    requires Sound(u)
    ensures Words(u, TrimRight(s)) == Words(u, s)
  {
    if s != "" && IsSpace(s[|s| - 1]) { WordsTrimRight(u, s[..|s| - 1]); }
  }

  lemma TrimmedWords(u: Alphabet, s: string)
    requires Sound(u)
    ensures Trim(Squeezed(u, s).0) == Join(Words(u, s), " ")
  {
    var b := Squeezed(u, s).0;
    SqueezedWords(u, s);
    SqueezedSpaced(u, s);
    SpacedTrim(u, b);
    if Words(u, s) != [] && Squeezed(u, s).1 { assert (Join(Words(u, s), " ") + " ")[..|b| - 1] == Join(Words(u, s), " "); }
  }

  /** Normalized text is the words of the value in upper case, with one space between them. */
  lemma NormalizedWords(u: Alphabet, value: string)
    requires Sound(u)
    ensures NormalizeText(u, value) == Join(Words(u, value), " ")
  {
    TrimmedWords(u, Trim(value));
    WordsTrimLeft(u, value);
    WordsTrimRight(u, TrimLeft(value));
  }

  // ---------------------------------------------------------------- derived forms

  /** Every space replaced by the given text. */
  function ReplaceSpaces(s: string, by_text: string): string {
    if s == "" then "" else (if s[0] == ' ' then by_text else [s[0]]) + ReplaceSpaces(s[1..], by_text)
  }

  function IdentifierType(u: Alphabet, value: string): string { ReplaceSpaces(NormalizeText(u, value), "_") }

  function Compact(u: Alphabet, value: string): string { ReplaceSpaces(NormalizeText(u, value), "") }

  function EntityType(u: Alphabet, value: string): string {
    var t := NormalizeText(u, value);
    if t in {"PERSON", "INDIVIDUAL", "NATURAL PERSON"} then "PERSON"
    else if t in {"ORGANIZATION", "ORGANISATION", "ENTITY", "COMPANY", "BUSINESS"} then "ORGANIZATION"
    else if t in {"VESSEL", "SHIP"} then "VESSEL"
    else if t in {"AIRCRAFT", "PLANE"} then "AIRCRAFT"
    else t
  }

  function DateText(value: string): string { if |Bytes(Trim(value))| >= 4 then Trim(value) else "" }

  /** The loop of normalizeReasonCode. */
  function Underscored(u: Alphabet, s: string): (string, bool) {
    if s == "" then ("", false)
    else
      var (b, lastUnderscore) := Underscored(u, s[..|s| - 1]);
      var c := u.lower(s[|s| - 1]);
      if 'a' <= c <= 'z' || '0' <= c <= '9' then (b + [c], false)
      else if !lastUnderscore && b != "" then (b + "_", true)
      else (b, lastUnderscore)
  }

  function StripUnderscores(s: string): string {
    if s != "" && s[0] == '_' then StripUnderscores(s[1..])
    else if s != "" && s[|s| - 1] == '_' then StripUnderscores(s[..|s| - 1])
    else s
  }

  function ReasonCode(u: Alphabet, value: string): string { StripUnderscores(Underscored(u, Trim(value)).0) }

  datatype Kind = Country | Date | Reason | Token

  function Normal(u: Alphabet, kind: Kind, value: string): string {
    match kind
    case Country => Compact(u, value)
    case Date => DateText(value)
    case Reason => ReasonCode(u, value)
    case Token => value
  }

  // ---------------------------------------------------------------- uniqueSorted and tokenSet

  /** The normalized values that are not empty, in order. */
  function Kept(u: Alphabet, kind: Kind, values: seq<string>): (r: seq<string>)
    ensures forall x :: x in r <==> x != "" && exists i :: 0 <= i < |values| && Normal(u, kind, values[i]) == x
  {
    if values == [] then []
    else
      var n := Normal(u, kind, values[|values| - 1]);
      Kept(u, kind, values[..|values| - 1]) + (if n != "" then [n] else [])
  }

  function UniqueSorted(u: Alphabet, kind: Kind, values: seq<string>): seq<string> { SortStrings(Unique(Kept(u, kind, values))) }

  /** The sorted unique values depend on the set of values only. */
  lemma UniqueSortedForgets(u: Alphabet, kind: Kind, xs: seq<string>, ys: seq<string>)
    requires SameMembers(xs, ys)
    ensures UniqueSorted(u, kind, xs) == UniqueSorted(u, kind, ys)
  {
    forall x ensures x in Kept(u, kind, xs) <==> x in Kept(u, kind, ys) {
      if x in Kept(u, kind, xs) {
        var i :| 0 <= i < |xs| && Normal(u, kind, xs[i]) == x;
        assert xs[i] in ys;
      }
      if x in Kept(u, kind, ys) {
        var i :| 0 <= i < |ys| && Normal(u, kind, ys[i]) == x;
        assert ys[i] in xs;
      }
    }
    UniqueForgets(Kept(u, kind, xs), Kept(u, kind, ys));
  }

  /** The members of a set in whatever order it yields them. */
  method ListSet(s: set<string>) returns (out: seq<string>)
    ensures forall x :: x in out <==> x in s
    ensures forall i, j :: 0 <= i < j < |out| ==> out[i] != out[j]
  {
    out := [];
    var todo := s;
    while todo != {}
      invariant todo <= s && forall x :: x in out <==> x in s && x !in todo
      invariant forall i, j :: 0 <= i < j < |out| ==> out[i] != out[j]
      decreases |todo|
    {
      var x :| x in todo;
      assert x !in out;
      out := out + [x];
      todo := todo - {x};
    }
  }

  /** The loops of uniqueSorted: a set of what was seen, listed in any order and sorted. */
  method CollectUnique(u: Alphabet, kind: Kind, values: seq<string>) returns (r: seq<string>)
    ensures r == UniqueSorted(u, kind, values)
  {
    var seen: set<string> := {};
    for i := 0 to |values|
      invariant forall x :: x in seen <==> x in Kept(u, kind, values[..i])
    {
      assert values[..i + 1][..i] == values[..i];
      var n := Normal(u, kind, values[i]);
      if n != "" { seen := seen + {n}; }
    }
    assert values[..|values|] == values;
    var out := ListSet(seen);
    ListedOnce(out, Kept(u, kind, values));
    return SortStrings(out);
  }

  /** A list without repetitions sorts like the unique members of any list with the same members. */
  lemma ListedOnce(out: seq<string>, values: seq<string>)
    requires (forall i, j :: 0 <= i < j < |out| ==> out[i] != out[j]) && SameMembers(out, values)
    ensures SortStrings(out) == SortStrings(Unique(values))
  {
    forall x ensures multiset(out)[x] == multiset(Unique(values))[x] {
      OnceEach(out, x);
      OnceEach(Unique(values), x);
    }
    assert multiset(out) == multiset(Unique(values));
    SortStringsForgetsOrder(out, Unique(values));
  }

  function TokenSet(u: Alphabet, value: string): seq<string> { UniqueSorted(u, Token, Fields(NormalizeText(u, value))) }

  const PARTICLES := {"AL", "BIN", "VAN", "DER", "DE", "DA", "DEL", "DOS", "DAS", "LA", "LE", "VON", "IBN"}

  function WithoutParticles(tokens: seq<string>): seq<string> {
    if tokens == [] then [] else (if tokens[0] in PARTICLES then [] else [tokens[0]]) + WithoutParticles(tokens[1..])
  }
}
