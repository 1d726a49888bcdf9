/** `parse_price`: the recogniser `(\d+\.?\d*)\s*[,\.]?\d*\s*$` anchored at
    the start of the text, and the number `float()` reads from its group 1.
    The number is kept exact (a `real`), not rounded to a double. */
module Prices {
  import opened Wrappers
  import opened Text

  /** Group 1 of the pattern: the digit run `whole`, then, when `point`, a
      '.' followed by the (possibly empty) digit run `frac`. */
  datatype Price = Price(whole: string, point: bool, frac: string)
  {
    predicate Valid() {
      && whole != []
      && AllDigits(whole)
      && AllDigits(frac)
      && (!point ==> frac == [])
    }

    /** The characters the group captured. */
    function Group(): string {
      whole + (if point then "." else "") + frac
    }
  }

  type ValidPrice = p: Price | p.Valid() witness Price("0", false, [])

  predicate IsSeparator(c: char) {
    c == ',' || c == '.'
  }

  /** `\d*\s*$`: digits, then nothing but blanks up to the end. */
  predicate DigitsThenBlank(t: string) {
    || Blank(t)
    || (|t| > 0 && IsDigit(t[0]) && DigitsThenBlank(t[1..]))
  }

  /** The part of the pattern after group 1, `\s*[,\.]?\d*\s*$`: blanks, an
      optional separator, digits and blanks, up to the end of the text. */
  predicate Tail(t: string) {
    || DigitsThenBlank(t)
    || (|t| > 0 && IsSeparator(t[0]) && DigitsThenBlank(t[1..]))
    || (|t| > 0 && IsSpace(t[0]) && Tail(t[1..]))
  }

  /** `parse_price(precio)`: `None` when the pattern does not match, and
      otherwise group 1 of the match. The text starts with the group, a tail
      the pattern accepts follows it, and the greedy quantifiers left no
      digit (and, without a point, no '.') for the tail to begin with. */
  function ParsePrice(s: string): (r: Option<ValidPrice>)
    ensures r.Some? ==>
      && |r.value.Group()| <= |s|
      && s[..|r.value.Group()|] == r.value.Group()
      && Tail(s[|r.value.Group()|..])
      && Greedy(s, r.value)
  {
    var n := RunEnd(s, 0, IsDigit);
    if n == 0 then None
    else if n < |s| && s[n] == '.' then
      var m := RunEnd(s, n + 1, IsDigit);
      if Tail(s[m..]) then
        PointedGroup(s, n, m);
        Some(Price(s[..n], true, s[n + 1..m]))
      else None
    else if Tail(s[n..]) then
      PlainGroup(s, n);
      Some(Price(s[..n], false, []))
    else None
  }

  /** The group `ParsePrice` takes when a point follows the leading digits:
      the digits, the point and the digits after it, up to `m`. */
  lemma PointedGroup(s: string, n: nat, m: nat)
    requires n == RunEnd(s, 0, IsDigit) && 0 < n < |s| && s[n] == '.'
    requires m == RunEnd(s, n + 1, IsDigit)
    ensures var p := Price(s[..n], true, s[n + 1..m]);
      && p.Valid() && |p.Group()| == m && s[..m] == p.Group()
      && Greedy(s, p)
  {
    assert s[..m] == s[..n] + "." + s[n + 1..m];
  }

  /** The group `ParsePrice` takes when no point follows the leading digits. */
  lemma PlainGroup(s: string, n: nat)
    requires n == RunEnd(s, 0, IsDigit) && 0 < n && !(n < |s| && s[n] == '.')
    ensures var p := Price(s[..n], false, []);
      && p.Valid() && |p.Group()| == n && s[..n] == p.Group()
      && Greedy(s, p)
  {
    assert s[..n] + "" + [] == s[..n];
  }

  /** Reading back: a price's group followed by a tail the greedy match
      would leave alone parses to that price. */
  lemma ParsePriceOfGroup(p: Price, t: string)
    requires p.Valid() && Tail(t)
    requires t == [] || (!IsDigit(t[0]) && (p.point || t[0] != '.'))
    ensures ParsePrice(p.Group() + t) == Some(p)
  {
    var s := p.Group() + t;
    var n := |p.whole|;
    assert s[..n] == p.whole;
    if p.point {
      GroupWithPoint(p, t);
    } else {
      assert s[n..] == t;
      assert forall j :: 0 <= j < n ==> s[j] == p.whole[j];
      RunEndUnique(s, 0, IsDigit, n);
      AcceptsWithoutPoint(s, n);
    }
  }

  /** Where the parts of a pointed group sit in the text that starts with it. */
  lemma PointedLayout(p: Price, t: string)
    requires p.Valid() && p.point
    requires t == [] || !IsDigit(t[0])
    ensures var s, n := p.Group() + t, |p.whole|;
      && n < |s| && s[..n] == p.whole && s[n] == '.'
      && s[n + 1..n + 1 + |p.frac|] == p.frac
      && s[n + 1 + |p.frac|..] == t
      && RunEnd(s, 0, IsDigit) == n
      && RunEnd(s, n + 1, IsDigit) == n + 1 + |p.frac|
  {
    var s := p.Group() + t;
    var n := |p.whole|;
    var m := n + 1 + |p.frac|;
    assert s == p.whole + "." + p.frac + t;
    assert s[..n] == p.whole && s[n] == '.' && s[n + 1..m] == p.frac && s[m..] == t;
    assert RunEnd(s, 0, IsDigit) == n by {
      assert forall j :: 0 <= j < n ==> s[j] == s[..n][j];
      RunEndUnique(s, 0, IsDigit, n);
    }
    assert RunEnd(s, n + 1, IsDigit) == m by {
      assert forall j :: n + 1 <= j < m ==> s[j] == s[n + 1..m][j - n - 1];
      assert m < |s| ==> s[m] == s[m..][0];
      RunEndUnique(s, n + 1, IsDigit, m);
    }
  }

  lemma GroupWithPoint(p: Price, t: string)
    requires p.Valid() && p.point && Tail(t)
    requires t == [] || !IsDigit(t[0])
    ensures ParsePrice(p.Group() + t) == Some(p)
  {
    PointedLayout(p, t);
    AcceptsWithPoint(p.Group() + t, |p.whole|, |p.whole| + 1 + |p.frac|);
  }

  /** What follows group 1 in `s` starts with no digit, and with no '.' when
      the group took no point: `\d+`, `\.?` and `\d*` each took all they could. */
  predicate Greedy(s: string, p: Price)
    requires |p.Group()| <= |s|
  {
    var g := |p.Group()|;
    g < |s| ==> !IsDigit(s[g]) && (p.point || s[g] != '.')
  }

  /** Every character of `s` from `i` up to `j` is a digit. */
  predicate DigitsIn(s: string, i: nat, j: nat) {
    i <= j <= |s| && forall x :: i <= x < j ==> IsDigit(s[x])
  }

  /** `s` matches the whole pattern with `\d+` ending at `i`, `\.?` ending at
      `j` and `\d*` ending at `k`. */
  predicate MatchesAt(s: string, i: nat, j: nat, k: nat) {
    && 0 < i <= j <= k <= |s|
    && DigitsIn(s, 0, i)
    && (j == i || (j == i + 1 && s[i] == '.'))
    && DigitsIn(s, j, k)
    && Tail(s[k..])
  }

  /** `re.match` of the price pattern succeeds on `s`. */
  predicate Matches(s: string) {
    exists i: nat, j: nat, k: nat | k <= |s| && j <= k && i <= j :: MatchesAt(s, i, j, k)
  }

  /** Skipping digits at the front of a tail leaves a tail: the tail's own
      `\d*` must have taken them. */
  lemma {:induction false} TailSkipDigits(s: string, k: nat, m: nat)
    requires DigitsIn(s, k, m) && Tail(s[k..])
    ensures Tail(s[m..])
    decreases m - k
  {
    if k < m {
      assert s[k..][0] == s[k] && IsDigit(s[k]);
      assert s[k..][1..] == s[k + 1..];
      TailSkipDigits(s, k + 1, m);
    }
  }

  /** Digits then blanks, read up to the end of its leading digits: only
      blanks remain. */
  lemma {:induction false} BlankAfterRun(s: string, i: nat)
    requires i <= |s| && DigitsThenBlank(s[i..])
    ensures Blank(s[RunEnd(s, i, IsDigit)..])
    decreases |s| - i
  {
    if i < |s| && IsDigit(s[i]) {
      assert s[i..][0] == s[i] && !IsSpace(s[i]);
      assert s[i..][1..] == s[i + 1..];
      BlankAfterRun(s, i + 1);
    }
  }

  /** Whatever `ParsePrice` accepts, the pattern matches. */
  lemma ParsePriceSound(s: string)
    requires ParsePrice(s).Some?
    ensures Matches(s)
  {
    var n := RunEnd(s, 0, IsDigit);
    if n < |s| && s[n] == '.' {
      var m := RunEnd(s, n + 1, IsDigit);
      assert MatchesAt(s, n, n + 1, m);
    } else {
      assert MatchesAt(s, n, n, n);
    }
  }

  /** `ParsePrice` accepts when the tail after the digits, the point and the
      fraction digits is one the pattern accepts. */
  lemma AcceptsWithPoint(s: string, n: nat, m: nat)
    requires n == RunEnd(s, 0, IsDigit) && 0 < n < |s| && s[n] == '.'
    requires m == RunEnd(s, n + 1, IsDigit)
    requires Tail(s[m..])
    ensures ParsePrice(s) == Some(Price(s[..n], true, s[n + 1..m]))
  {
    var r := ParsePrice(s);
    assert r.Some? && r.value.point;
    assert r.value.whole == s[..n] && r.value.frac == s[n + 1..m];
  }

  /** `ParsePrice` accepts when no point follows the digits and the rest is
      a tail the pattern accepts. */
  lemma AcceptsWithoutPoint(s: string, n: nat)
    requires n == RunEnd(s, 0, IsDigit) && 0 < n && !(n < |s| && s[n] == '.')
    requires Tail(s[n..])
    ensures ParsePrice(s) == Some(Price(s[..n], false, []))
  {
  }

  /** A match whose `\.?` took nothing: `ParsePrice` accepts. The greedy
      digit run reaches past the match's own `\d+\d*`, and if a '.' follows
      it, that '.' is the tail's separator. */
  lemma MatchWithoutPoint(s: string, i: nat, k: nat)
    requires MatchesAt(s, i, i, k)
    ensures ParsePrice(s).Some?
  {
    assert DigitsIn(s, 0, k);
    var n := RunEnd(s, 0, IsDigit);
    TailSkipDigits(s, k, n);
    if n < |s| && s[n] == '.' {
      PointStartsTail(s, n);
    } else {
      AcceptsWithoutPoint(s, n);
    }
  }

  /** The greedy digit run is followed by a '.' that starts the tail: that
      '.' is the tail's separator, only blanks follow the digits after it,
      and so the pattern's `\.?\d*` can take them instead. */
  lemma PointStartsTail(s: string, n: nat)
    requires n == RunEnd(s, 0, IsDigit) && 0 < n < |s| && s[n] == '.'
    requires Tail(s[n..])
    ensures ParsePrice(s).Some?
  {
    assert s[n..][0] == '.' && s[n..][1..] == s[n + 1..];
    BlankAfterRun(s, n + 1);
    AcceptsWithPoint(s, n, RunEnd(s, n + 1, IsDigit));
  }

  /** A match whose `\.?` took the point: `ParsePrice` accepts. */
  lemma MatchWithPoint(s: string, i: nat, k: nat)
    requires MatchesAt(s, i, i + 1, k)
    ensures ParsePrice(s).Some?
  {
    var n := RunEnd(s, 0, IsDigit);
    RunEndUnique(s, 0, IsDigit, i);
    var m := RunEnd(s, n + 1, IsDigit);
    TailSkipDigits(s, k, m);
    AcceptsWithPoint(s, n, m);
  }

  /** `ParsePrice` returns a value exactly when `re.match` succeeds. */
  lemma ParsePriceMatches(s: string)
    ensures ParsePrice(s).Some? <==> Matches(s)
  {
    if ParsePrice(s).Some? {
      ParsePriceSound(s);
    }
    if Matches(s) {
      var i: nat, j: nat, k: nat :| MatchesAt(s, i, j, k);
      assert MatchesAt(s, i, j, k);
      if j == i {
        MatchWithoutPoint(s, i, k);
      } else {
        assert j == i + 1;
        MatchWithPoint(s, i, k);
      }
    }
  }

  /** `Pow10(n)` is ten to the `n`. */
  function Pow10(n: nat): (r: nat)
    ensures r >= 1
  {
    if n == 0 then 1 else 10 * Pow10(n - 1)
  }

  function DigitValue(c: char): nat
    requires IsDigit(c)
  {
    c as int - '0' as int
  }

  /** The number a string of decimal digits denotes; it has at most `|s|` digits. */
  function Decimal(s: string): (r: nat)
    requires AllDigits(s)
    ensures r < Pow10(|s|)
  {
    if s == [] then 0 else 10 * Decimal(s[..|s| - 1]) + DigitValue(s[|s| - 1])
  }

  predicate AllZeros(s: string) {
    forall i :: 0 <= i < |s| ==> s[i] == '0'
  }

  /** A digit string denotes zero exactly when every digit is '0'. */
  lemma {:induction false} DecimalZero(s: string)
    requires AllDigits(s)
    ensures Decimal(s) == 0 <==> AllZeros(s)
  {
    if s != [] {
      var init := s[..|s| - 1];
      DecimalZero(init);
      assert AllZeros(s) <==> AllZeros(init) && s[|s| - 1] == '0';
    }
  }

  lemma FractionBelowOne(f: real, d: real)
    requires 0.0 <= f < d
    ensures 0.0 <= f / d < 1.0
  {
  }

  /** The number `float(match.group(1))` denotes, computed exactly. It is
      0 exactly when every digit of the group is '0' (the truthiness test on
      `precio_float` fails), and the fraction digits never reach the next
      unit: its integer part is the number the whole digits denote. */
  function Value(p: Price): (r: real)
    requires p.Valid()
    ensures r == 0.0 <==> AllZeros(p.whole) && AllZeros(p.frac)
    ensures Decimal(p.whole) as real <= r < Decimal(p.whole) as real + 1.0
  {
    var d := Pow10(|p.frac|) as real;
    var f := Decimal(p.frac) as real;
    FractionBelowOne(f, d);
    DecimalZero(p.whole);
    DecimalZero(p.frac);
    Decimal(p.whole) as real + f / d
  }

  /** Appending the digits `b` shifts the number `a` denotes left by `|b|`
      places and adds the number `b` denotes. */
  lemma {:induction false} DecimalAppend(a: string, b: string)
    requires AllDigits(a) && AllDigits(b)
    ensures AllDigits(a + b)
    ensures Decimal(a + b) == Decimal(a) * Pow10(|b|) + Decimal(b)
  {
    assert AllDigits(a + b) by {
      forall i | 0 <= i < |a + b|
        ensures IsDigit((a + b)[i])
      {
        if i >= |a| {
          assert (a + b)[i] == b[i - |a|];
        }
      }
    }
    if b == [] {
      assert a + b == a;
    } else {
      var init := b[..|b| - 1];
      assert (a + b)[..|a + b| - 1] == a + init;
      assert (a + b)[|a + b| - 1] == b[|b| - 1];
      DecimalAppend(a, init);
      Shift(Decimal(a), Pow10(|init|), Decimal(init), DigitValue(b[|b| - 1]));
    }
  }

  /** One more digit on the right of `w * d + f` multiplies the shift by ten. */
  lemma Shift(w: nat, d: nat, f: nat, c: nat)
    ensures 10 * (w * d + f) + c == w * (10 * d) + (10 * f + c)
  {
  }

  /** Dividing `w * d + f` by `d` gives `w` plus the fraction `f / d`. */
  lemma Scale(w: nat, f: nat, d: nat, n: nat)
    requires d > 0 && n == w * d + f
    ensures w as real + f as real / d as real == n as real / d as real
  {
  }

  /** `float()` reads group 1 as the decimal number its digits spell with the
      point taken out, divided by ten to the number of fraction digits:
      `3.849` is 3849 thousandths. */
  lemma ValueDigits(p: Price)
    requires p.Valid()
    ensures AllDigits(p.whole + p.frac)
    ensures Value(p) == Decimal(p.whole + p.frac) as real / Pow10(|p.frac|) as real
  {
    DecimalAppend(p.whole, p.frac);
    Scale(Decimal(p.whole), Decimal(p.frac), Pow10(|p.frac|), Decimal(p.whole + p.frac));
  }

  /** A one- and a three-digit string denote what their digits spell. */
  lemma Decimal1(a: char)
    requires IsDigit(a)
    ensures Decimal([a]) == DigitValue(a)
  {
    assert [a][..0] == [];
  }

  lemma Decimal3(a: char, b: char, c: char)
    requires IsDigit(a) && IsDigit(b) && IsDigit(c)
    ensures Decimal([a, b, c]) == 100 * DigitValue(a) + 10 * DigitValue(b) + DigitValue(c)
  {
    assert [a, b, c][..2] == [a, b] && [a, b][..1] == [a];
    Decimal1(a);
  }

  /** The group `3.849,00` yields. */
  lemma ThousandsGroup()
    ensures ParsePrice("3.849,00") == Some(Price("3", true, "849"))
  {
    assert Price("3", true, "849").Group() + ",00" == "3.849,00";
    assert DigitsThenBlank("00"[1..]);
    ParsePriceOfGroup(Price("3", true, "849"), ",00");
  }

  /** Thousands-grouped text `3.849,00`, the format the source's comment
      names, is read as 3.849: group 1 stops at the second separator. */
  lemma GroupedThousandsReadAsFraction()
    ensures ParsePrice("3.849,00") == Some(Price("3", true, "849"))
    ensures Value(Price("3", true, "849")) == 3.849
  {
    ThousandsGroup();
    Decimal1('3');
    Decimal3('8', '4', '9');
    assert Pow10(3) == 1000;
  }

  /** The group `899,00` yields. */
  lemma DecimalCommaGroup()
    ensures ParsePrice("899,00") == Some(Price("899", false, ""))
  {
    assert Price("899", false, "").Group() + ",00" == "899,00";
    assert DigitsThenBlank("00"[1..]);
    ParsePriceOfGroup(Price("899", false, ""), ",00");
  }

  /** A decimal comma: `899,00` is read as 899, the decimals being part of the tail. */
  lemma DecimalCommaDropsCents()
    ensures ParsePrice("899,00") == Some(Price("899", false, ""))
    ensures Value(Price("899", false, "")) == 899.0
  {
    DecimalCommaGroup();
    Decimal3('8', '9', '9');
  }

  /** Text that does not start with a digit, or that has anything but the
      tail after its number, is not a price. */
  lemma NotPrices()
    ensures ParsePrice("") == None
    ensures ParsePrice(",50") == None
    ensures ParsePrice("12€") == None
  {
    assert RunEnd(",50", 0, IsDigit) == 0;
    RunEndUnique("12€", 0, IsDigit, 2);
    assert !Tail("12€"[2..]);
  }
}
