/**
 * The handful of Python string operations the console logic relies on:
 * `str.lower()` and `str.strip()` for theme names, `str(int)` for the
 * debug level prefix, and a parser that reads such a decimal back.
 */
module Text {
  import opened Wrappers

  /** The characters Python's `str.isspace()` accepts, which `str.strip()` removes. */
  predicate IsSpace(c: char) {
    var n := c as int;
    || (9 <= n <= 13)
    || (28 <= n <= 32)
    || n == 0x85 || n == 0xA0 || n == 0x1680
    || (0x2000 <= n <= 0x200A)
    || n == 0x2028 || n == 0x2029 || n == 0x202F || n == 0x205F || n == 0x3000
  }

  predicate AllSpace(s: string) {
    forall k :: 0 <= k < |s| ==> IsSpace(s[k])
  }

  /** Lower-cases one ASCII capital; every other character is kept. */
  function LowerChar(c: char): (d: char)
    ensures IsSpace(d) <==> IsSpace(c)
    ensures !('A' <= d <= 'Z')
    ensures d == c || 'A' <= c <= 'Z'
  {
    if 'A' <= c <= 'Z' then (c as int + 32) as char else c
  }

  /** `s.lower()`, character by character. */
  function Lower(s: string): (r: string)
    ensures |r| == |s|
    ensures forall k :: 0 <= k < |s| ==> r[k] == LowerChar(s[k])
  {
    if s == [] then [] else [LowerChar(s[0])] + Lower(s[1..])
  }

  /** `s.lstrip()`: drops the leading whitespace and nothing else. */
  function TrimStart(s: string): (r: string)
    ensures |r| <= |s| && r == s[|s| - |r|..]
    ensures forall k :: 0 <= k < |s| - |r| ==> IsSpace(s[k])
    ensures r != [] ==> !IsSpace(r[0])
  {
    if s != [] && IsSpace(s[0]) then
      var r := TrimStart(s[1..]);
      assert s[1..][|s| - 1 - |r|..] == s[|s| - |r|..];
      r
    else
      s
  }

  /** `s.rstrip()`: drops the trailing whitespace and nothing else. */
  function TrimEnd(s: string): (r: string)
    ensures |r| <= |s| && r == s[..|r|]
    ensures forall k :: |r| <= k < |s| ==> IsSpace(s[k])
    ensures r != [] ==> !IsSpace(r[|r| - 1])
  {
    if s != [] && IsSpace(s[|s| - 1]) then
      var r := TrimEnd(s[..|s| - 1]);
      assert s[..|s| - 1][..|r|] == s[..|r|];
      r
    else
      s
  }

  /** How many leading characters `s.strip()` removes. */
  function StripStart(s: string): (i: nat)
    ensures i <= |s|
  {
    |s| - |TrimStart(s)|
  }

  /**
   * `s.strip()`: the slice of `s` left once whitespace is removed from both
   * ends, with only whitespace on either side of it.
   */
  function Strip(s: string): (r: string)
    ensures StripStart(s) + |r| <= |s|
    ensures r == s[StripStart(s)..StripStart(s) + |r|]
    ensures forall k :: 0 <= k < StripStart(s) ==> IsSpace(s[k])
    ensures forall k :: StripStart(s) + |r| <= k < |s| ==> IsSpace(s[k])
    ensures r != [] ==> !IsSpace(r[0]) && !IsSpace(r[|r| - 1])
  {
    var a := TrimStart(s);
    var r := TrimEnd(a);
    SuffixSpaces(s, |s| - |a|, a, |r|);
    r
  }

  /** Whitespace at the end of the suffix `a` of `s` is whitespace at the end of `s`. */
  lemma SuffixSpaces(s: string, i: nat, a: string, m: nat)
    requires i <= |s| && a == s[i..] && m <= |a|
    requires forall k :: m <= k < |a| ==> IsSpace(a[k])
    ensures forall k :: i + m <= k < |s| ==> IsSpace(s[k])
  {
    forall k | i + m <= k < |s|
      ensures IsSpace(s[k])
    {
      assert s[k] == a[k - i];
    }
  }

  /**
   * When `s` holds a word with non-space ends at `i..i + n` and only
   * whitespace around it, `strip()` returns exactly that word.
   */
  lemma StripAt(s: string, i: nat, n: nat)
    requires 0 < n && i + n <= |s|
    requires forall k :: 0 <= k < i ==> IsSpace(s[k])
    requires forall k :: i + n <= k < |s| ==> IsSpace(s[k])
    requires !IsSpace(s[i]) && !IsSpace(s[i + n - 1])
    ensures Strip(s) == s[i..i + n]
  {
    var r := Strip(s);
    assert StripStart(s) == i;
    assert |r| == n;
  }

  /** Whitespace padding around a word with non-space ends is exactly what `strip()` removes. */
  lemma StripOfPadded(pre: string, w: string, post: string)
    requires AllSpace(pre) && AllSpace(post)
    requires w != [] && !IsSpace(w[0]) && !IsSpace(w[|w| - 1])
    ensures Strip(pre + w + post) == w
  {
    var s := pre + w + post;
    assert forall k :: 0 <= k < |pre| ==> s[k] == pre[k];
    assert forall k :: |pre| + |w| <= k < |s| ==> s[k] == post[k - |pre| - |w|];
    StripAt(s, |pre|, |w|);
    assert s[|pre|..|pre| + |w|] == w;
  }

  /** `w` reads as `name` when each character is compared after lower-casing. */
  predicate MatchesIgnoringCase(w: string, name: string) {
    |w| == |name| && forall k :: 0 <= k < |w| ==> LowerChar(w[k]) == LowerChar(name[k])
  }

  /**
   * `s` holds `name`, in any letter case, at position `i`, with only
   * whitespace before and after it.
   */
  predicate PaddedAt(s: string, i: nat, name: string) {
    && i + |name| <= |s|
    && (forall k :: 0 <= k < i ==> IsSpace(s[k]))
    && (forall k :: i + |name| <= k < |s| ==> IsSpace(s[k]))
    && MatchesIgnoringCase(s[i..i + |name|], name)
  }

  /** `s` is `name` in any letter case, padded with whitespace on either side. */
  ghost predicate IsPaddedName(s: string, name: string) {
    exists i: nat :: PaddedAt(s, i, name)
  }

  /** A lower-case word with no whitespace at either end, such as a theme name. */
  predicate IsPlainName(name: string) {
    && name != []
    && !IsSpace(name[0]) && !IsSpace(name[|name| - 1])
    && forall k :: 0 <= k < |name| ==> LowerChar(name[k]) == name[k]
  }

  /**
   * When `l` is `s` lower-cased and `name` sits in `l` at `i` with only
   * whitespace around it, then `s` holds `name`, ignoring case, padded alike.
   */
  lemma PaddedFromLowered(s: string, l: string, i: nat, name: string)
    requires |l| == |s| && forall k :: 0 <= k < |s| ==> l[k] == LowerChar(s[k])
    requires i + |name| <= |l| && name == l[i..i + |name|]
    requires forall k :: 0 <= k < i ==> IsSpace(l[k])
    requires forall k :: i + |name| <= k < |l| ==> IsSpace(l[k])
    ensures PaddedAt(s, i, name)
  {
    var w := s[i..i + |name|];
    forall k | 0 <= k < |name|
      ensures LowerChar(w[k]) == LowerChar(name[k])
    {
      assert w[k] == s[i + k];
      assert name[k] == l[i + k];
    }
  }

  /** Every string holds its own normalised form, ignoring case, between whitespace. */
  lemma NormalisedIsPadded(s: string)
    ensures PaddedAt(s, StripStart(Lower(s)), Strip(Lower(s)))
  {
    StrippedIsPadded(s, Lower(s));
  }

  /** When `l` is `s` lower-cased, `s` holds the stripped `l`, ignoring case, between whitespace. */
  lemma StrippedIsPadded(s: string, l: string)
    requires |l| == |s| && forall k :: 0 <= k < |s| ==> l[k] == LowerChar(s[k])
    ensures PaddedAt(s, StripStart(l), Strip(l))
  {
    PaddedFromLowered(s, l, StripStart(l), Strip(l));
  }

  lemma NormalisedImpliesPadded(s: string, name: string)
    requires Strip(Lower(s)) == name
    ensures IsPaddedName(s, name)
  {
    NormalisedIsPadded(s);
  }

  /**
   * When `s` holds `name`, ignoring case, at `i` between whitespace and
   * `name` is already lower-case, then `l`, `s` lower-cased, holds `name`
   * itself at `i` between whitespace.
   */
  lemma LoweredPadded(s: string, l: string, i: nat, name: string)
    requires |l| == |s| && forall k :: 0 <= k < |s| ==> l[k] == LowerChar(s[k])
    requires PaddedAt(s, i, name)
    requires forall k :: 0 <= k < |name| ==> LowerChar(name[k]) == name[k]
    ensures l[i..i + |name|] == name
    ensures name != [] ==> l[i] == name[0] && l[i + |name| - 1] == name[|name| - 1]
    ensures forall k :: 0 <= k < i ==> IsSpace(l[k])
    ensures forall k :: i + |name| <= k < |l| ==> IsSpace(l[k])
  {
    var w := s[i..i + |name|];
    forall k | 0 <= k < |name|
      ensures l[i + k] == name[k]
    {
      assert w[k] == s[i + k];
      assert LowerChar(w[k]) == LowerChar(name[k]);
    }
    assert l[i..i + |name|] == name by {
      forall k | 0 <= k < |name|
        ensures l[i..i + |name|][k] == name[k]
      {
        assert l[i + k] == name[k];
      }
    }
  }

  /** Stripping a lower-cased string that holds a plain name between whitespace gives the name. */
  lemma StripOfLoweredPadded(s: string, l: string, i: nat, name: string)
    requires |l| == |s| && forall k :: 0 <= k < |s| ==> l[k] == LowerChar(s[k])
    requires PaddedAt(s, i, name)
    requires IsPlainName(name)
    ensures Strip(l) == name
  {
    LoweredPadded(s, l, i, name);
    StripAt(l, i, |name|);
  }

  lemma PaddedImpliesNormalised(s: string, name: string)
    requires IsPlainName(name)
    requires IsPaddedName(s, name)
    ensures Strip(Lower(s)) == name
  {
    var l := Lower(s);
    var i: nat :| PaddedAt(s, i, name);
    StripOfLoweredPadded(s, l, i, name);
  }

  /** A plain name is its own normalised form. */
  lemma NormaliseOfPlainName(name: string)
    requires IsPlainName(name)
    ensures Strip(Lower(name)) == name
  {
    var l := Lower(name);
    assert l == name;
    StripAt(name, 0, |name|);
  }

  /**
   * `s.lower().strip() == name` holds exactly when `s` is `name` in some
   * letter case, padded with whitespace on either side.
   */
  lemma NormalisedEqualsIff(s: string, name: string)
    requires IsPlainName(name)
    ensures Strip(Lower(s)) == name <==> IsPaddedName(s, name)
  {
    if Strip(Lower(s)) == name {
      NormalisedImpliesPadded(s, name);
    }
    if IsPaddedName(s, name) {
      PaddedImpliesNormalised(s, name);
    }
  }

  predicate IsDigit(c: char) {
    '0' <= c <= '9'
  }

  predicate AllDigits(s: string) {
    forall k :: 0 <= k < |s| ==> IsDigit(s[k])
  }

  function DigitChar(d: nat): (c: char)
    requires d < 10
    ensures IsDigit(c)
  {
    ('0' as int + d) as char
  }

  function DigitValue(c: char): (d: nat)
    requires IsDigit(c)
    ensures d < 10 && DigitChar(d) == c
  {
    c as int - '0' as int
  }

  /**
   * A digit string as `str()` writes a non-negative integer: at least one
   * digit, and a leading `0` only in "0" itself.
   */
  predicate CanonicalDigits(d: string) {
    d != [] && AllDigits(d) && (d[0] == '0' ==> |d| == 1)
  }

  /** The decimal digits of `n`, most significant first, without leading zeros. */
  function NatToDecimal(n: nat): (s: string)
    ensures CanonicalDigits(s)
    ensures s[0] == '0' <==> n == 0
    decreases n
  {
    if n < 10 then [DigitChar(n)] else NatToDecimal(n / 10) + [DigitChar(n % 10)]
  }

  /** The number a string of decimal digits denotes. */
  function DecimalValue(s: string): nat
    requires AllDigits(s)
    decreases |s|
  {
    if s == [] then 0 else 10 * DecimalValue(s[..|s| - 1]) + DigitValue(s[|s| - 1])
  }

  lemma {:induction false} DecimalValueOfNatToDecimal(n: nat)
    ensures DecimalValue(NatToDecimal(n)) == n
    decreases n
  {
    var s := NatToDecimal(n);
    if n >= 10 {
      DecimalValueOfNatToDecimal(n / 10);
      assert s[..|s| - 1] == NatToDecimal(n / 10);
      assert DigitValue(DigitChar(n % 10)) == n % 10;
    } else {
      assert s[..0] == [];
      assert DigitValue(DigitChar(n)) == n;
    }
  }

  /** Digits that do not start with `0` denote a positive number. */
  lemma {:induction false} LeadingDigitPositive(d: string)
    requires d != [] && AllDigits(d) && d[0] != '0'
    ensures DecimalValue(d) >= 1
    decreases |d|
  {
    if |d| > 1 {
      var init := d[..|d| - 1];
      assert init[0] == d[0];
      LeadingDigitPositive(init);
    } else {
      assert d[..0] == [];
    }
  }

  /** Writing out the value of canonical digits gives the same digits back. */
  lemma {:induction false} NatToDecimalOfDecimalValue(d: string)
    requires CanonicalDigits(d)
    ensures NatToDecimal(DecimalValue(d)) == d
    decreases |d|
  {
    var v := DecimalValue(d);
    var c := DigitValue(d[|d| - 1]);
    if |d| == 1 {
      assert d[..|d| - 1] == [];
      assert DecimalValue(d[..|d| - 1]) == 0;
    } else {
      var init := d[..|d| - 1];
      assert init[0] == d[0];
      LeadingDigitPositive(init);
      NatToDecimalOfDecimalValue(init);
      var w := DecimalValue(init);
      assert v == 10 * w + c;
      assert v / 10 == w && v % 10 == c;
      assert d == init + [d[|d| - 1]];
    }
  }

  /** Python's `str(n)` for an integer `n`: a minus sign exactly for negatives, then canonical digits. */
  function IntToDecimal(n: int): (s: string)
    ensures s != []
    ensures forall k :: 0 <= k < |s| ==> IsDigit(s[k]) || s[k] == '-'
    ensures s[0] == '-' <==> n < 0
    ensures n < 0 ==> CanonicalDigits(s[1..]) && s[1] != '0'
    ensures n >= 0 ==> CanonicalDigits(s)
  {
    if n < 0 then
      var d := NatToDecimal(-n);
      assert ("-" + d)[1..] == d;
      "-" + d
    else
      NatToDecimal(n)
  }

  /**
   * Reads back an integer in the form `IntToDecimal` writes it: an optional
   * minus sign and canonical digits, with no "-0". `None` for anything else,
   * leading zeros included.
   */
  function ParseInt(s: string): (r: Option<int>)
    ensures r.Some? ==> s != []
  {
    if s != [] && s[0] == '-' then
      if CanonicalDigits(s[1..]) && s[1] != '0' then Some(0 - DecimalValue(s[1..]) as int) else None
    else if CanonicalDigits(s) then
      Some(DecimalValue(s))
    else
      None
  }

  /** Reading back what `IntToDecimal` wrote gives the same integer. */
  lemma IntToDecimalRoundTrip(n: int)
    ensures ParseInt(IntToDecimal(n)) == Some(n)
  {
    if n < 0 {
      var m: nat := -n;
      var d := NatToDecimal(m);
      assert IntToDecimal(n) == "-" + d;
      DecimalValueOfNatToDecimal(m);
      ParseNegative(d);
      assert 0 - DecimalValue(d) as int == n;
    } else {
      var d := NatToDecimal(n);
      DecimalValueOfNatToDecimal(n);
      ParseNonNegative(d);
    }
  }

  /** Canonical digits read as their value. */
  lemma ParseNonNegative(d: string)
    requires CanonicalDigits(d)
    ensures ParseInt(d) == Some(DecimalValue(d))
  {
    assert IsDigit(d[0]);
  }

  /** A minus sign before canonical digits other than "0" reads as the negated value. */
  lemma ParseNegative(d: string)
    requires CanonicalDigits(d) && d[0] != '0'
    ensures ParseInt("-" + d) == Some(0 - DecimalValue(d) as int)
  {
    var s := "-" + d;
    assert s[1..] == d;
  }

  /** Whatever `ParseInt` accepts is exactly how `IntToDecimal` writes the integer it reads. */
  lemma ParseIntInverse(s: string)
    requires ParseInt(s).Some?
    ensures s == IntToDecimal(ParseInt(s).value)
  {
    if s[0] == '-' {
      var d := s[1..];
      LeadingDigitPositive(d);
      NatToDecimalOfDecimalValue(d);
      assert s == "-" + d;
    } else {
      NatToDecimalOfDecimalValue(s);
    }
  }

  /**
   * The position of the first `c` in `s`. The console never searches a
   * string; this serves only to read a logged debug line back.
   */
  function IndexOf(s: string, c: char): (r: Option<nat>)
    ensures r.Some? ==> r.value < |s| && s[r.value] == c && c !in s[..r.value]
    ensures r.None? ==> c !in s
  {
    if s == [] then None
    else if s[0] == c then Some(0)
    else match IndexOf(s[1..], c)
      case None => None
      case Some(k) =>
        assert s[..k + 1] == [s[0]] + s[1..][..k];
        Some(k + 1)
  }
}
