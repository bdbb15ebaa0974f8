/** Character classes and string helpers that Python's str and re modules provide to the parser. */
module Text {

  /** The characters for which Python's str.isspace() holds: what str.strip() removes and
      what the regular-expression class \s matches in a str pattern. */
  predicate IsSpace(c: char) {
    || c == ' '
    || ('\t' <= c <= '\r')
    || ('\U{1c}' <= c <= '\U{1f}')
    || c == '\U{85}' || c == '\U{a0}' || c == '\U{1680}'
    || ('\U{2000}' <= c <= '\U{200a}')
    || c == '\U{2028}' || c == '\U{2029}' || c == '\U{202f}' || c == '\U{205f}' || c == '\U{3000}'
  }

  predicate IsDigit(c: char) {
    '0' <= c <= '9'
  }

  function DigitValue(c: char): (d: nat)
    requires IsDigit(c)
    ensures d < 10
  {
    c as int - '0' as int
  }

  /** Leading whitespace removed. */
  function TrimLeft(s: string): (r: string)
    ensures |r| <= |s| && r == s[|s| - |r|..]
    ensures forall i :: 0 <= i < |s| - |r| ==> IsSpace(s[i])
    ensures r != [] ==> !IsSpace(r[0])
  {
    if s != [] && IsSpace(s[0]) then TrimLeft(s[1..]) else s
  }

  /** Trailing whitespace removed. */
  function TrimRight(s: string): (r: string)
    ensures |r| <= |s| && r == s[..|r|]
    ensures forall i :: |r| <= i < |s| ==> IsSpace(s[i])
    ensures r != [] ==> !IsSpace(r[|r| - 1])
  {
    if s != [] && IsSpace(s[|s| - 1]) then TrimRight(s[..|s| - 1]) else s
  }

  /** Python's str.strip() with no argument. */
  function Strip(s: string): (r: string)
    ensures |r| <= |s|
    ensures r != [] ==> !IsSpace(r[0]) && !IsSpace(r[|r| - 1])
    ensures (s == [] || (!IsSpace(s[0]) && !IsSpace(s[|s| - 1]))) ==> r == s
  {
    TrimRight(TrimLeft(s))
  }

  /** The stripped text starts at some offset o of the text, and its first and last characters
      are there, neither of them whitespace. */
  lemma StripSpan(s: string) returns (o: nat)
    ensures o + |Strip(s)| <= |s|
    ensures Strip(s) != [] ==> !IsSpace(s[o]) && !IsSpace(s[o + |Strip(s)| - 1])
  {
    var l := TrimLeft(s);
    o := |s| - |l|;
    var k := |Strip(s)|;
    if k > 0 {
      assert l == s[o..];
      assert Strip(s) == l[..k];
      assert Strip(s)[0] == l[0] == s[o];
      assert Strip(s)[k - 1] == l[k - 1] == s[o + k - 1];
    }
  }

  /** Two non-space characters survive stripping, and so does everything between them. */
  lemma StripKeeps(s: string, i: int, j: int)
    requires 0 <= i <= j < |s| && !IsSpace(s[i]) && !IsSpace(s[j])
    ensures |Strip(s)| >= j - i + 1
  {
    var l := TrimLeft(s);
    var o := |s| - |l|;
    assert o <= i;
    assert l == s[o..];
    assert l[j - o] == s[j];
    var r := TrimRight(l);
    assert j - o < |r|;
  }

  /** A text found inside a larger one leaves no more after stripping than the larger one. */
  lemma StripWithin(s: string, t: string, o: nat)
    requires o + |t| <= |s| && forall i :: 0 <= i < |t| ==> s[o + i] == t[i]
    ensures |Strip(s)| >= |Strip(t)|
  {
    var k := |Strip(t)|;
    if k > 0 {
      var p := StripSpan(t);
      assert s[o + p] == t[p];
      assert s[o + p + k - 1] == t[p + k - 1];
      StripKeeps(s, o + p, o + p + k - 1);
    }
  }

  /** Joining two texts never leaves less after stripping than either of them does. */
  lemma StripGrows(x: string, y: string)
    ensures |Strip(x + y)| >= |Strip(x)| && |Strip(x + y)| >= |Strip(y)|
  {
    StripGrowsRight(x, y);
    StripGrowsLeft(x, y);
  }

  lemma StripGrowsRight(x: string, y: string)
    ensures |Strip(x + y)| >= |Strip(x)|
  {
    StripWithin(x + y, x, 0);
  }

  lemma StripGrowsLeft(x: string, y: string)
    ensures |Strip(x + y)| >= |Strip(y)|
  {
    StripWithin(x + y, y, |x|);
  }

  /** The lower-case image under which Python's re.IGNORECASE compares a text character with an
      ASCII letter of a pattern: ASCII upper case, plus the four non-ASCII characters that re treats
      as equal to k, s or i (KELVIN SIGN, LONG S, DOTTED CAPITAL I, DOTLESS SMALL I). */
  function Fold(c: char): (f: char)
    ensures 'a' <= f <= 'z' ==> ('a' <= c <= 'z' || 'A' <= c <= 'Z' || c in {'\U{212a}', '\U{17f}', '\U{130}', '\U{131}'})
  {
    if 'A' <= c <= 'Z' then (c as int + 32) as char
    else if c == '\U{212a}' then 'k'
    else if c == '\U{17f}' then 's'
    else if c == '\U{130}' || c == '\U{131}' then 'i'
    else c
  }

  /** The case-insensitive pattern `word` (lower-case ASCII) matches `text` at position i. */
  predicate MatchesAt(text: string, i: int, word: string)
  {
    0 <= i && i + |word| <= |text| && forall j :: 0 <= j < |word| ==> Fold(text[i + j]) == word[j]
  }

  /** re.search(word, text, re.IGNORECASE) finds a match. */
  predicate ContainsWord(text: string, word: string)
  {
    exists i :: 0 <= i <= |text| - |word| && MatchesAt(text, i, word)
  }

  /** re.search(first + r'\s+' + second, text, re.IGNORECASE) finds a match. */
  predicate ContainsSpacedWords(text: string, first: string, second: string)
  {
    exists i, j :: 0 <= i < j <= |text| && i + |first| < j &&
      MatchesAt(text, i, first) && MatchesAt(text, j, second) &&
      forall k :: i + |first| <= k < j ==> IsSpace(text[k])
  }

  predicate AllDigits(s: string) {
    forall i :: 0 <= i < |s| ==> IsDigit(s[i])
  }

  /** The number a string of decimal digits denotes ("" denotes 0). */
  function DigitsValue(s: string): nat
    requires AllDigits(s)
  {
    if s == [] then 0 else DigitsValue(s[..|s| - 1]) * 10 + DigitValue(s[|s| - 1])
  }

  function DigitChar(d: nat): (c: char)
    requires d < 10
    ensures IsDigit(c) && DigitValue(c) == d
  {
    ('0' as int + d) as char
  }

  /** The decimal digits of n, most significant first. */
  function NatDigits(n: nat): (s: string)
    ensures |s| >= 1 && AllDigits(s) && DigitsValue(s) == n
  {
    if n < 10 then [DigitChar(n)]
    else
      var s := NatDigits(n / 10) + [DigitChar(n % 10)];
      assert s[..|s| - 1] == NatDigits(n / 10);
      s
  }
}
