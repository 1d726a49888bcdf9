/** The character classes and string operations the query builder relies on:
    Python's whitespace (`str.isspace`, `str.split()` and the `\s` class of
    `re`), decimal digits (`\d`), `str.split()[0]`, `re.search(r'\d+', s)` and
    `str.lower()`. */
module Text {

  /** Python's notion of whitespace on `str`: the characters `str.isspace()`
      accepts, which are also the ones `\s` matches and `str.split()` splits on. */
  predicate IsSpace(c: char) {
    || '\U{9}' <= c <= '\U{D}'
    || '\U{1C}' <= c <= '\U{20}'
    || c == '\U{85}'
    || c == '\U{A0}'
    || c == '\U{1680}'
    || '\U{2000}' <= c <= '\U{200A}'
    || c == '\U{2028}'
    || c == '\U{2029}'
    || c == '\U{202F}'
    || c == '\U{205F}'
    || c == '\U{3000}'
  }

  predicate IsNonSpace(c: char) {
    !IsSpace(c)
  }

  /** A decimal digit, as matched by `\d` (ASCII digits only, see README). */
  predicate IsDigit(c: char) {
    '0' <= c <= '9'
  }

  predicate IsNonDigit(c: char) {
    !IsDigit(c)
  }

  /** Every character is whitespace (the empty string included). */
  predicate Blank(s: string) {
    forall i :: 0 <= i < |s| ==> IsSpace(s[i])
  }

  predicate AllDigits(s: string) {
    forall i :: 0 <= i < |s| ==> IsDigit(s[i])
  }

  predicate HasDigit(s: string) {
    exists i :: 0 <= i < |s| && IsDigit(s[i])
  }

  /** The end of the run of characters satisfying `p` that starts at `i`:
      the first index at or after `i` whose character fails `p`, or the
      length of `s`. */
  function RunEnd(s: string, i: nat, p: char -> bool): (e: nat)
    requires i <= |s|
    ensures i <= e <= |s|
    ensures forall j :: i <= j < e ==> p(s[j])
    ensures e < |s| ==> !p(s[e])
    decreases |s| - i
  {
    if i < |s| && p(s[i]) then RunEnd(s, i + 1, p) else i
  }

  /** A run's end is determined by its two defining facts: every character
      from `i` up to it satisfies `p`, and the one at it (if any) does not. */
  lemma RunEndUnique(s: string, i: nat, p: char -> bool, e: nat)
    requires i <= e <= |s|
    requires forall j :: i <= j < e ==> p(s[j])
    requires e < |s| ==> !p(s[e])
    ensures RunEnd(s, i, p) == e
  {
  }

  /** `s.split()[0]`: the first maximal run of non-whitespace characters.
      Python raises `IndexError` when `s` is blank, hence the precondition. */
  function FirstToken(s: string): (t: string)
    requires !Blank(s)
    ensures t != []
    ensures forall i :: 0 <= i < |t| ==> !IsSpace(t[i])
    ensures exists a :: TokenAt(s, a, t)
  {
    var a := RunEnd(s, 0, IsSpace);
    var e := RunEnd(s, a, IsNonSpace);
    var t := s[a..e];
    assert forall i :: 0 <= i < |t| ==> t[i] == s[a + i];
    assert TokenAt(s, a, t);
    t
  }

  /** `t` is the first whitespace-delimited token of `s`, starting at `a`:
      only whitespace comes before it and it ends at whitespace or the end. */
  predicate TokenAt(s: string, a: nat, t: string) {
    && a + |t| <= |s|
    && Blank(s[..a])
    && s[a..a + |t|] == t
    && (a + |t| == |s| || IsSpace(s[a + |t|]))
  }

  /** Reading back: whitespace, then a token, then whitespace or nothing,
      splits to that token first. */
  lemma FirstTokenOf(w: string, t: string, rest: string)
    requires Blank(w)
    requires t != [] && forall i :: 0 <= i < |t| ==> !IsSpace(t[i])
    requires rest == [] || IsSpace(rest[0])
    ensures !Blank(w + t + rest)
    ensures FirstToken(w + t + rest) == t
  {
    var s := w + t + rest;
    var e := |w| + |t|;
    assert forall j :: 0 <= j < |w| ==> s[j] == w[j];
    assert s[|w|] == t[0];
    RunEndUnique(s, 0, IsSpace, |w|);
    assert forall j :: |w| <= j < e ==> s[j] == t[j - |w|];
    assert e < |s| ==> s[e] == rest[0];
    RunEndUnique(s, |w|, IsNonSpace, e);
    assert s[|w|..e] == t;
  }

  /** The same, for a text that starts with its token: the first `n`
      characters are not whitespace and the next one (if any) is. */
  lemma LeadingToken(s: string, n: nat)
    requires 0 < n <= |s|
    requires forall i :: 0 <= i < n ==> !IsSpace(s[i])
    requires n == |s| || IsSpace(s[n])
    ensures !Blank(s) && FirstToken(s) == s[..n]
  {
    FirstTokenOf("", s[..n], s[n..]);
    assert "" + s[..n] + s[n..] == s;
  }

  /** `re.search(r'\d+', s).group(0)`: the leftmost maximal run of digits. */
  function FirstDigitRun(s: string): (r: string)
    requires HasDigit(s)
    ensures r != [] && AllDigits(r)
    ensures exists a :: DigitRunAt(s, a, r)
  {
    var a := RunEnd(s, 0, IsNonDigit);
    var e := RunEnd(s, a, IsDigit);
    var r := s[a..e];
    assert forall i :: 0 <= i < |r| ==> r[i] == s[a + i];
    assert DigitRunAt(s, a, r);
    r
  }

  /** `r` is the leftmost maximal digit run of `s`, starting at `a`. */
  predicate DigitRunAt(s: string, a: nat, r: string) {
    && a + |r| <= |s|
    && (forall i :: 0 <= i < a ==> !IsDigit(s[i]))
    && s[a..a + |r|] == r
    && (a + |r| == |s| || !IsDigit(s[a + |r|]))
  }

  /** Reading back: non-digits, then digits, then a non-digit or nothing,
      yields those digits as the first run. */
  lemma FirstDigitRunOf(w: string, d: string, rest: string)
    requires forall i :: 0 <= i < |w| ==> !IsDigit(w[i])
    requires d != [] && AllDigits(d)
    requires rest == [] || !IsDigit(rest[0])
    ensures HasDigit(w + d + rest)
    ensures FirstDigitRun(w + d + rest) == d
  {
    var s := w + d + rest;
    var e := |w| + |d|;
    assert forall j :: 0 <= j < |w| ==> s[j] == w[j];
    assert s[|w|] == d[0];
    RunEndUnique(s, 0, IsNonDigit, |w|);
    assert forall j :: |w| <= j < e ==> s[j] == d[j - |w|];
    assert e < |s| ==> s[e] == rest[0];
    RunEndUnique(s, |w|, IsDigit, e);
    assert s[|w|..e] == d;
  }

  /** The same, for a text that starts with its digits: the first `n`
      characters are digits and the next one (if any) is not. */
  lemma LeadingDigitRun(s: string, n: nat)
    requires 0 < n <= |s|
    requires forall i :: 0 <= i < n ==> IsDigit(s[i])
    requires n == |s| || !IsDigit(s[n])
    ensures HasDigit(s) && FirstDigitRun(s) == s[..n]
  {
    FirstDigitRunOf("", s[..n], s[n..]);
    assert "" + s[..n] + s[n..] == s;
  }

  /** Upper-case letters `str.lower()` changes within Latin-1: A-Z and
      U+00C0..U+00DE except the multiplication sign U+00D7. */
  predicate IsUpper(c: char) {
    || 'A' <= c <= 'Z'
    || ('\U{C0}' <= c <= '\U{DE}' && c != '\U{D7}')
  }

  function LowerChar(c: char): char {
    if IsUpper(c) then (c as int + 32) as char else c
  }

  /** `s.lower()`, restricted to the case mapping of `IsUpper`: each of
      those capitals becomes the small letter 32 code points above it (`A`
      to `a`, `Á` to `á`), and every other character is kept. */
  function Lower(s: string): (r: string)
    ensures |r| == |s|
    ensures forall i :: 0 <= i < |s| ==> !IsUpper(r[i])
    ensures forall i :: 0 <= i < |s| && !IsUpper(s[i]) ==> r[i] == s[i]
    ensures forall i :: 0 <= i < |s| && IsUpper(s[i]) ==> r[i] as int == s[i] as int + 32
  {
    seq(|s|, i requires 0 <= i < |s| => LowerChar(s[i]))
  }

  /** Lower-casing twice is lower-casing once. */
  lemma LowerIdempotent(s: string)
    ensures Lower(Lower(s)) == Lower(s)
  {
  }

  /** A text with no upper-case letter is its own lower case. */
  lemma LowerOfLower(s: string)
    requires forall i :: 0 <= i < |s| ==> !IsUpper(s[i])
    ensures Lower(s) == s
  {
  }
}
