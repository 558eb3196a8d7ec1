/** White space, identifiers, numerals and joined text. */
module Text {
  /** White space as unicode.IsSpace has it. */
  predicate IsSpace(c: char) { c == ' ' || '\t' <= c <= '\r' || (c > '~' && IsWideSpace(c)) }

  /** White space outside ASCII. */
  predicate IsWideSpace(c: char) {
    || c in {'\U{0085}', '\U{00A0}', '\U{1680}', '\U{2028}', '\U{2029}', '\U{202F}', '\U{205F}', '\U{3000}'}
    || '\U{2000}' <= c <= '\U{200A}'
  }

  function TrimLeft(s: string): (r: string)
    ensures r != [] ==> !IsSpace(r[0])
  {
    if s != [] && IsSpace(s[0]) then TrimLeft(s[1..]) else s
  }

  function TrimRight(s: string): (r: string)
    ensures r <= s
    ensures r != [] ==> !IsSpace(r[|r| - 1])
  {
    if s != [] && IsSpace(s[|s| - 1]) then TrimRight(s[..|s| - 1]) else s
  }

  /** The text without leading and trailing white space. */
  function Trim(s: string): (r: string)
    ensures r != [] ==> !IsSpace(r[0]) && !IsSpace(r[|r| - 1])
  {
    TrimRight(TrimLeft(s))
  }

  predicate IsBlank(s: string) { Trim(s) == "" }

  lemma {:induction false} TrimFixed(s: string)
    requires s == [] || (!IsSpace(s[0]) && !IsSpace(s[|s| - 1]))
    ensures Trim(s) == s
  {
  }

  predicate AlphaNumeric(c: char) {
    'A' <= c <= 'Z' || 'a' <= c <= 'z' || '0' <= c <= '9'
  }

  lemma {:induction false} KeepsFirst(s: string)
    requires s != "" && !IsSpace(s[0])
    ensures TrimRight(s) != ""
  {
    if |s| > 1 && IsSpace(s[|s| - 1]) { KeepsFirst(s[..|s| - 1]); }
  }

  /** Text that starts with a visible character is not blank, and neither is trimmed text unless empty. */
  lemma Visible(s: string)
    ensures s != "" && !IsSpace(s[0]) ==> !IsBlank(s)
    ensures Trim(Trim(s)) == Trim(s)
  {
    if s != "" && !IsSpace(s[0]) { KeepsFirst(s); }
    TrimFixed(Trim(s));
  }

  /** strings.Fields: the words between white space. */
  function Fields(s: string): seq<string> {
    var i := WordEnd(s);
    if s == "" then [] else if IsSpace(s[0]) then Fields(s[1..]) else [s[..i]] + Fields(s[i..])
  }

  function WordEnd(s: string): (i: nat)
    ensures i <= |s|
    ensures s != "" && !IsSpace(s[0]) ==> i > 0
  {
    if s == "" || IsSpace(s[0]) then 0 else 1 + WordEnd(s[1..])
  }

  /** The UTF-8 bytes of a character. */
  function Utf8(c: char): (r: seq<int>)
    ensures 1 <= |r| <= 4
  {
    var n := c as int;
    if n < 0x80 then [n]
    else if n < 0x800 then [0xC0 + n / 0x40, 0x80 + n % 0x40]
    else if n < 0x1_0000 then [0xE0 + n / 0x1000, 0x80 + n / 0x40 % 0x40, 0x80 + n % 0x40]
    else [0xF0 + n / 0x4_0000, 0x80 + n / 0x1000 % 0x40, 0x80 + n / 0x40 % 0x40, 0x80 + n % 0x40]
  }

  function Bytes(s: string): seq<int> { if s == "" then [] else Bytes(s[..|s| - 1]) + Utf8(s[|s| - 1]) }

  // ---------------------------------------------------------------- numbers as text

  function DigitChar(d: nat): char
    requires d < 10
  {
    ('0' as int + d) as char
  }

  /** A number in decimal digits. */
  function NumberText(n: nat): (r: string)
    ensures r != "" && forall c :: c in r ==> '0' <= c <= '9'
  {
    if n < 10 then [DigitChar(n)] else NumberText(n / 10) + [DigitChar(n % 10)]
  }

  lemma {:induction false} NumberTextInjective(m: nat, n: nat)
    requires NumberText(m) == NumberText(n)
    ensures m == n
  {
    var s, t := NumberText(m), NumberText(n);
    assert s[|s| - 1] == t[|t| - 1];
    if m >= 10 && n >= 10 {
      assert s[..|s| - 1] == NumberText(m / 10) && t[..|t| - 1] == NumberText(n / 10);
      NumberTextInjective(m / 10, n / 10);
    }
  }

  // ---------------------------------------------------------------- joining and splitting

  function Join(words: seq<string>, separator: string): string {
    if words == [] then "" else if |words| == 1 then words[0] else words[0] + separator + Join(words[1..], separator)
  }

  lemma {:induction false} JoinLast(words: seq<string>, word: string, separator: string)
    ensures Join(words + [word], separator) == if words == [] then word else Join(words, separator) + separator + word
  {
    if |words| > 1 {
      JoinLast(words[1..], word, separator);
      assert (words + [word])[1..] == words[1..] + [word];
      assert words[0] + separator + (Join(words[1..], separator) + separator + word) == Join(words, separator) + separator + word;
    } else if |words| == 1 {
      assert (words + [word])[1..] == [word];
    }
  }

  /** A separator that occurs on neither left side splits equal texts alike. */
  lemma SplitFirst(a: string, b: string, x: string, y: string, c: char)
    requires c !in a && c !in b && a + [c] + x == b + [c] + y
    ensures a == b && x == y
  {
    var s, t := a + [c] + x, b + [c] + y;
    assert forall i :: 0 <= i < |a| ==> s[i] == a[i];
    assert forall i :: 0 <= i < |b| ==> t[i] == b[i];
    assert s[|a|] == c && t[|b|] == c;
    assert |a| == |b|;
    assert s[..|a|] == a && t[..|b|] == b && s[|a| + 1..] == x && t[|b| + 1..] == y;
  }

  /** Nor does one that occurs on neither right side. */
  lemma SplitLast(a: string, b: string, x: string, y: string, c: char)
    requires c !in x && c !in y && a + [c] + x == b + [c] + y
    ensures a == b && x == y
  {
    var s, t := a + [c] + x, b + [c] + y;
    assert s[|a|] == c && t[|b|] == c;
    assert forall i :: |a| < i < |s| ==> s[i] == x[i - |a| - 1];
    assert forall i :: |b| < i < |t| ==> t[i] == y[i - |b| - 1];
    assert |a| == |b|;
    assert s[..|a|] == a && t[..|b|] == b && s[|a| + 1..] == x && t[|b| + 1..] == y;
  }
}
