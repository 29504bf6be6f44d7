/**
 * ASCII text handling used by the dataset model: the character classes of
 * Python 2's `re` module (no UNICODE flag), the slug pipeline that turns a
 * column name into a search-engine-safe token, decimal rendering of integers
 * (Python's `%i`), and `'\n'.join`.
 */
module Text {

  // ---------------------------------------------------------------------------
  // Character classes
  // ---------------------------------------------------------------------------

  predicate IsAsciiLetter(c: char) {
    'a' <= c <= 'z' || 'A' <= c <= 'Z'
  }

  predicate IsUpper(c: char) {
    'A' <= c <= 'Z'
  }

  predicate IsDigit(c: char) {
    '0' <= c <= '9'
  }

  predicate IsAscii(c: char) {
    c as int < 128
  }

  /** `\w` of a pattern compiled without the UNICODE flag. */
  predicate IsWordChar(c: char) {
    IsAsciiLetter(c) || IsDigit(c) || c == '_'
  }

  /** `\s` without the UNICODE flag, which is also the set `str.strip()` removes:
      space, tab, line feed, vertical tab, form feed, carriage return. */
  predicate IsSpace(c: char) {
    c == ' ' || 9 <= c as int <= 13
  }

  /** The characters the slug pattern `[^\w\s-]` lets through. */
  predicate IsSlugSource(c: char) {
    IsWordChar(c) || IsSpace(c) || c == '-'
  }

  /** The characters of the run pattern `[-\s]+`. */
  predicate IsSeparator(c: char) {
    c == '-' || IsSpace(c)
  }

  /** The alphabet of a finished slug. */
  predicate IsSlugChar(c: char) {
    'a' <= c <= 'z' || IsDigit(c) || c == '_'
  }

  predicate AllSlugChars(s: string) {
    forall i :: 0 <= i < |s| ==> IsSlugChar(s[i])
  }

  // ---------------------------------------------------------------------------
  // The slug pipeline
  // ---------------------------------------------------------------------------

  /** Keeps the characters satisfying `keep`, in order. Both `.encode('ascii',
      'ignore')` and `re.sub('[^\w\s-]', '', s)` are filters. */
  function Filter(s: string, keep: char -> bool): (r: string)
    ensures |r| <= |s|
    ensures forall i :: 0 <= i < |r| ==> keep(r[i])
    ensures (forall i :: 0 <= i < |s| ==> keep(s[i])) ==> r == s
  {
    if |s| == 0 then ""
    else if keep(s[0]) then [s[0]] + Filter(s[1..], keep)
    else Filter(s[1..], keep)
  }

  /** The number of leading whitespace characters. */
  function LeadingSpaces(s: string): (n: nat)
    ensures n <= |s|
    ensures forall i :: 0 <= i < n ==> IsSpace(s[i])
    ensures n < |s| ==> !IsSpace(s[n])
  {
    if |s| == 0 || !IsSpace(s[0]) then 0 else 1 + LeadingSpaces(s[1..])
  }

  /** The number of trailing whitespace characters. */
  function TrailingSpaces(s: string): (n: nat)
    ensures n <= |s|
    ensures forall i :: |s| - n <= i < |s| ==> IsSpace(s[i])
    ensures n < |s| ==> !IsSpace(s[|s| - n - 1])
  {
    if |s| == 0 || !IsSpace(s[|s| - 1]) then 0 else 1 + TrailingSpaces(s[..|s| - 1])
  }

  /** `str.strip()`: the slice of `s` left once whitespace is removed from both
      ends; an all-whitespace string strips to the empty one. */
  function Strip(s: string): (r: string)
    ensures LeadingSpaces(s) + |r| <= |s|
    ensures r == s[LeadingSpaces(s)..LeadingSpaces(s) + |r|]
    ensures |r| > 0 ==> !IsSpace(r[0]) && !IsSpace(r[|r| - 1])
    ensures forall i :: LeadingSpaces(s) + |r| <= i < |s| ==> IsSpace(s[i])
    ensures (|s| == 0 || (!IsSpace(s[0]) && !IsSpace(s[|s| - 1]))) ==> r == s
  {
    var lo := LeadingSpaces(s);
    var t := s[lo..];
    var n := |t| - TrailingSpaces(t);
    var r := s[lo..lo + n];
    assert r == t[..n];
    assert forall i :: lo + n <= i < |s| ==> s[i] == t[i - lo];
    assert |s| > 0 && !IsSpace(s[0]) ==> lo == 0;
    r
  }

  function LowerChar(c: char): (r: char)
    ensures !IsUpper(r)
    ensures !IsUpper(c) ==> r == c
  {
    if IsUpper(c) then (c as int - 'A' as int + 'a' as int) as char else c
  }

  /** `str.lower()` on a byte string: only `A`-`Z` change. */
  function Lower(s: string): (r: string)
    ensures |r| == |s|
    ensures forall i :: 0 <= i < |r| ==> !IsUpper(r[i])
    ensures forall i :: 0 <= i < |s| && !IsUpper(s[i]) ==> r[i] == s[i]
    ensures forall i :: 0 <= i < |s| && IsUpper(s[i]) ==> 'a' <= r[i] <= 'z'
  {
    seq(|s|, i requires 0 <= i < |s| => LowerChar(s[i]))
  }

  /** Drops a leading run of separators. */
  function DropSeparators(s: string): (r: string)
    ensures |r| <= |s| && r == s[|s| - |r|..]
    ensures |r| > 0 ==> !IsSeparator(r[0])
  {
    if |s| > 0 && IsSeparator(s[0]) then DropSeparators(s[1..]) else s
  }

  /** `re.sub('[-\s]+', '_', s)`: every maximal run of separators becomes one `_`. */
  function Collapse(s: string): (r: string)
    ensures |r| <= |s|
    ensures forall i :: 0 <= i < |r| ==> !IsSeparator(r[i])
    ensures (forall i :: 0 <= i < |s| ==> !IsSeparator(s[i])) ==> r == s
    decreases |s|
  {
    if |s| == 0 then ""
    else if IsSeparator(s[0]) then "_" + Collapse(DropSeparators(s[1..]))
    else [s[0]] + Collapse(s[1..])
  }

  /** A class of characters that holds for `_` and for every character of `s`
      holds for every character of its collapse. */
  lemma {:induction false} CollapseKeeps(s: string, p: char -> bool)
    requires p('_')
    requires forall i :: 0 <= i < |s| ==> p(s[i])
    ensures forall i :: 0 <= i < |Collapse(s)| ==> p(Collapse(s)[i])
    decreases |s|
  {
    if |s| > 0 {
      if IsSeparator(s[0]) {
        var rest := DropSeparators(s[1..]);
        assert forall i :: 0 <= i < |rest| ==> rest[i] == s[|s| - |rest| + i];
        CollapseKeeps(rest, p);
      } else {
        assert forall i :: 0 <= i < |s[1..]| ==> s[1..][i] == s[i + 1];
        CollapseKeeps(s[1..], p);
      }
    }
  }

  /** A character a slug may hold before its separators are collapsed. */
  predicate IsLowerSlugSource(c: char) {
    IsSlugSource(c) && !IsUpper(c)
  }

  /** The part of the slug pipeline after the ASCII fold:
      drop `[^\w\s-]`, strip, lower-case, collapse `[-\s]+` to `_`. */
  function CleanSlug(s: string): (r: string)
    ensures AllSlugChars(r)
  {
    var kept := Filter(s, IsSlugSource);
    StripKeeps(kept, IsSlugSource);
    var stripped := Strip(kept);
    LowerKeepsSlugSource(stripped);
    var lowered := Lower(stripped);
    CollapseKeeps(lowered, IsLowerSlugSource);
    Collapse(lowered)
  }

  /** Every character of a stripped string is one of the original's. */
  lemma StripKeeps(s: string, p: char -> bool)
    requires forall i :: 0 <= i < |s| ==> p(s[i])
    ensures forall i :: 0 <= i < |Strip(s)| ==> p(Strip(s)[i])
  {
    var r := Strip(s);
    assert forall i :: 0 <= i < |r| ==> r[i] == s[LeadingSpaces(s) + i];
  }

  /** Lower-casing slug characters leaves no upper-case letter among them. */
  lemma LowerKeepsSlugSource(s: string)
    requires forall i :: 0 <= i < |s| ==> IsSlugSource(s[i])
    ensures forall i :: 0 <= i < |Lower(s)| ==> IsLowerSlugSource(Lower(s)[i])
  {
  }

  /** The column-name slug: NFKD normalisation (`nfkd`, an uninterpreted
      Unicode table), then `.encode('ascii', 'ignore')`, then `CleanSlug`. */
  function Slugify(nfkd: string -> string, name: string): (r: string)
    ensures AllSlugChars(r)
  {
    CleanSlug(Filter(nfkd(name), IsAscii))
  }

  /** A finished slug is a fixed point of the pipeline: slugging is idempotent. */
  lemma CleanSlugIdempotent(s: string)
    ensures CleanSlug(CleanSlug(s)) == CleanSlug(s)
  {
    var t := CleanSlug(s);
    assert Filter(t, IsSlugSource) == t;
    assert Strip(t) == t;
    assert Lower(t) == t;
  }

  // ---------------------------------------------------------------------------
  // Decimal rendering (`'%i' % n`)
  // ---------------------------------------------------------------------------

  function DigitChar(d: nat): (c: char)
    requires d < 10
    ensures IsDigit(c)
  {
    ('0' as int + d) as char
  }

  function DigitValue(c: char): (d: nat)
    requires IsDigit(c)
    ensures d < 10
  {
    c as int - '0' as int
  }

  predicate AllDigits(s: string) {
    forall i :: 0 <= i < |s| ==> IsDigit(s[i])
  }

  /** The decimal digits of `n`, most significant first, without leading zeros. */
  function NatToString(n: nat): (r: string)
    ensures |r| >= 1 && AllDigits(r)
    ensures n > 0 ==> r[0] != '0'
    decreases n
  {
    if n < 10 then [DigitChar(n)] else NatToString(n / 10) + [DigitChar(n % 10)]
  }

  /** Reads a string of decimal digits back as a number. */
  function ParseNat(s: string): nat
    requires AllDigits(s)
  {
    if |s| == 0 then 0 else ParseNat(s[..|s| - 1]) * 10 + DigitValue(s[|s| - 1])
  }

  /** Rendering then reading gives back the number. */
  lemma {:induction false} ParseNatToString(n: nat)
    ensures ParseNat(NatToString(n)) == n
    decreases n
  {
    var r := NatToString(n);
    if n >= 10 {
      ParseNatToString(n / 10);
      assert r[..|r| - 1] == NatToString(n / 10);
    }
  }

  /** Distinct numbers render to distinct strings. */
  lemma NatToStringInjective(a: nat, b: nat)
    requires NatToString(a) == NatToString(b)
    ensures a == b
  {
    ParseNatToString(a);
    ParseNatToString(b);
  }

  /** `'%i' % i` for any Python int, negative values with a leading minus. */
  function IntToString(i: int): (r: string)
    ensures |r| >= 1
    ensures i < 0 <==> r[0] == '-'
    ensures r[0] == '-' || IsDigit(r[0])
    ensures NoSpace(r)
  {
    if i < 0 then "-" + NatToString(-i) else NatToString(i)
  }

  /** Distinct integers render to distinct strings. */
  lemma IntToStringInjective(a: int, b: int)
    requires IntToString(a) == IntToString(b)
    ensures a == b
  {
    if a < 0 {
      assert NatToString(-a) == IntToString(a)[1..];
      assert NatToString(-b) == IntToString(b)[1..];
      NatToStringInjective(-a, -b);
    } else {
      NatToStringInjective(a, b);
    }
  }

  predicate NoSpace(s: string) {
    forall k :: 0 <= k < |s| ==> s[k] != ' '
  }

  /** Two texts that each consist of a word without spaces followed by a part
      starting with a space agree on the word and on the rest. */
  lemma SplitAtSpace(a: string, x: string, b: string, y: string)
    requires NoSpace(a) && NoSpace(b)
    requires |x| > 0 && x[0] == ' ' && |y| > 0 && y[0] == ' '
    requires a + x == b + y
    ensures a == b && x == y
  {
    assert a == (a + x)[..|a|];
    assert b == (b + y)[..|b|];
    assert x == (a + x)[|a|..];
    assert y == (b + y)[|b|..];
  }

  // ---------------------------------------------------------------------------
  // Joining (`sep.join(parts)`)
  // ---------------------------------------------------------------------------

  function Join(parts: seq<string>, sep: string): (r: string)
  {
    if |parts| == 0 then ""
    else if |parts| == 1 then parts[0]
    else parts[0] + sep + Join(parts[1..], sep)
  }

  /** `needle` occurs in `hay` starting at offset `k`. */
  predicate OccursAt(needle: string, hay: string, k: int) {
    0 <= k <= |hay| - |needle| && hay[k..k + |needle|] == needle
  }

  ghost predicate IsSubstring(needle: string, hay: string) {
    exists k :: OccursAt(needle, hay, k)
  }

  /** Every part can be found in the joined text. */
  lemma {:induction false} JoinContainsParts(parts: seq<string>, sep: string, i: nat)
    requires i < |parts|
    ensures IsSubstring(parts[i], Join(parts, sep))
    decreases |parts|
  {
    var j := Join(parts, sep);
    if |parts| == 1 {
      assert OccursAt(parts[0], j, 0);
    } else if i == 0 {
      assert j == parts[0] + sep + Join(parts[1..], sep);
      assert OccursAt(parts[0], j, 0);
    } else {
      JoinContainsParts(parts[1..], sep, i - 1);
      var rest := Join(parts[1..], sep);
      assert parts[1..][i - 1] == parts[i];
      var k :| OccursAt(parts[i], rest, k);
      var off := |parts[0]| + |sep|;
      assert j == parts[0] + sep + rest;
      assert j[off + k..off + k + |parts[i]|] == rest[k..k + |parts[i]|];
      assert OccursAt(parts[i], j, off + k);
    }
  }

  /** Every part of a run of consecutive parts can be found in the joined text. */
  lemma SegmentFound(parts: seq<string>, sep: string, lo: nat, xs: seq<string>)
    requires lo + |xs| <= |parts| && parts[lo..lo + |xs|] == xs
    ensures forall x :: x in xs ==> IsSubstring(x, Join(parts, sep))
  {
    forall x | x in xs ensures IsSubstring(x, Join(parts, sep)) {
      var i :| 0 <= i < |xs| && xs[i] == x;
      assert parts[lo + i] == x;
      JoinContainsParts(parts, sep, lo + i);
    }
  }

  /** The joined text holds every part and one separator between neighbours. */
  lemma {:induction false} JoinLength(parts: seq<string>, sep: string)
    requires |parts| > 0
    ensures |Join(parts, sep)| == TotalLength(parts) + (|parts| - 1) * |sep|
    decreases |parts|
  {
    if |parts| > 1 {
      JoinLength(parts[1..], sep);
    }
  }

  function TotalLength(parts: seq<string>): nat {
    if |parts| == 0 then 0 else |parts[0]| + TotalLength(parts[1..])
  }
}
