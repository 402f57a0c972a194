/**
 * The three pieces of Python string handling that the request and record
 * builders depend on: `str(i)` for an integer, `str.replace` without a count,
 * and `posixpath.join` with two components.
 */
module Strings {

  predicate IsDigit(c: char) {
    '0' <= c <= '9'
  }

  function DigitChar(d: nat): (c: char)
    requires d < 10
    ensures IsDigit(c) && DigitValue(c) == d
  {
    ('0' as int + d) as char
  }

  function DigitValue(c: char): nat
    requires IsDigit(c)
  {
    c as int - '0' as int
  }

  /** Decimal rendering of a natural number, as Python's `str` gives it. */
  function NatToString(n: nat): (s: string)
    ensures |s| >= 1
    ensures forall i :: 0 <= i < |s| ==> IsDigit(s[i])
    decreases n
  {
    if n < 10 then [DigitChar(n)] else NatToString(n / 10) + [DigitChar(n % 10)]
  }

  /** Python's `str(i)` (and an f-string placeholder) for an `int`. */
  function IntToString(i: int): (s: string)
    ensures |s| >= 1
    ensures s[0] == '-' || IsDigit(s[0])
    ensures forall k :: 1 <= k < |s| ==> IsDigit(s[k])
  {
    if i < 0 then "-" + NatToString(-i) else NatToString(i)
  }

  /** Reads back a string of decimal digits. */
  function ParseNat(s: string): nat
    requires forall i :: 0 <= i < |s| ==> IsDigit(s[i])
    decreases |s|
  {
    if s == [] then 0 else ParseNat(s[..|s| - 1]) * 10 + DigitValue(s[|s| - 1])
  }

  /** Reads back what `IntToString` writes: an optional minus sign, then digits. */
  function ParseInt(s: string): int
    requires |s| >= 1
    requires forall k :: 1 <= k < |s| ==> IsDigit(s[k])
    requires s[0] == '-' || IsDigit(s[0])
  {
    if s[0] == '-' then -(ParseNat(s[1..]) as int) else ParseNat(s)
  }

  lemma {:induction false} ParseNatOfNatToString(n: nat)
    ensures ParseNat(NatToString(n)) == n
    decreases n
  {
    var s := NatToString(n);
    if n >= 10 {
      assert s[..|s| - 1] == NatToString(n / 10);
      ParseNatOfNatToString(n / 10);
    } else {
      assert s[..|s| - 1] == [];
    }
  }

  /** `IntToString` loses nothing: the integer can be read back from its text. */
  lemma IntToStringRoundTrip(i: int)
    ensures ParseInt(IntToString(i)) == i
  {
    var s := IntToString(i);
    if i < 0 {
      assert s[1..] == NatToString(-i);
      ParseNatOfNatToString(-i);
    } else {
      ParseNatOfNatToString(i);
    }
  }

  /** Two integers with the same rendering are equal. */
  lemma IntToStringInjective(a: int, b: int)
    requires IntToString(a) == IntToString(b)
    ensures a == b
  {
    IntToStringRoundTrip(a);
    IntToStringRoundTrip(b);
  }

  /** `pat` occurs in `s` starting at index `i`. */
  predicate OccursAt(s: string, pat: string, i: nat) {
    i + |pat| <= |s| && s[i..i + |pat|] == pat
  }

  /**
   * Python's `s.replace(pat, rep)` with no count: scans left to right and
   * replaces every non-overlapping occurrence of `pat`, not just a suffix.
   */
  function ReplaceAll(s: string, pat: string, rep: string): (r: string)
    requires pat != []
    ensures |rep| >= |pat| ==> |r| >= |s|
    decreases |s|
  {
    if |s| < |pat| then s
    else if s[..|pat|] == pat then rep + ReplaceAll(s[|pat|..], pat, rep)
    else [s[0]] + ReplaceAll(s[1..], pat, rep)
  }

  /** Where `pat` does not occur, `ReplaceAll` leaves the string as it is. */
  lemma {:induction false} ReplaceAllWithoutOccurrence(s: string, pat: string, rep: string)
    requires pat != []
    requires forall i: nat :: !OccursAt(s, pat, i)
    ensures ReplaceAll(s, pat, rep) == s
    decreases |s|
  {
    if |s| >= |pat| {
      assert !OccursAt(s, pat, 0);
      forall i: nat ensures !OccursAt(s[1..], pat, i) {
        if OccursAt(s[1..], pat, i) {
          assert s[1..][i..i + |pat|] == s[i + 1..i + 1 + |pat|];
          assert OccursAt(s, pat, i + 1);
        }
      }
      ReplaceAllWithoutOccurrence(s[1..], pat, rep);
    }
  }

  /**
   * `ReplaceAll` by its leftmost occurrence: when `pat` first occurs right
   * after `a`, the text before it is kept, that occurrence becomes `rep`,
   * and the scan goes on over what follows it.
   */
  lemma {:induction false} ReplaceAllFirst(a: string, pat: string, rep: string, b: string)
    requires pat != []
    requires forall i: nat :: i < |a| ==> !OccursAt(a + pat + b, pat, i)
    ensures ReplaceAll(a + pat + b, pat, rep) == a + rep + ReplaceAll(b, pat, rep)
    decreases |a|
  {
    var s := a + pat + b;
    if a == [] {
      assert s[..|pat|] == pat && s[|pat|..] == b;
    } else {
      assert !OccursAt(s, pat, 0);
      assert s[1..] == a[1..] + pat + b;
      forall i: nat | i < |a[1..]| ensures !OccursAt(a[1..] + pat + b, pat, i) {
        assert !OccursAt(s, pat, i + 1);
        assert s[1..][i..i + |pat|] == s[i + 1..i + 1 + |pat|];
      }
      ReplaceAllFirst(a[1..], pat, rep, b);
      assert [a[0]] + (a[1..] + rep + ReplaceAll(b, pat, rep)) == a + rep + ReplaceAll(b, pat, rep);
    }
  }

  /**
   * When the only occurrence of `pat` in `base + pat` is the trailing one,
   * `ReplaceAll` rewrites exactly that suffix.
   */
  lemma ReplaceAllOnlySuffix(base: string, pat: string, rep: string)
    requires pat != []
    requires forall i: nat :: i < |base| ==> !OccursAt(base + pat, pat, i)
    ensures ReplaceAll(base + pat, pat, rep) == base + rep
  {
    assert base + pat + [] == base + pat;
    ReplaceAllFirst(base, pat, rep, []);
  }

  predicate IsAbsolute(path: string) {
    |path| > 0 && path[0] == '/'
  }

  /** A separator goes between `a` and a relative component unless `a` is empty or already ends in one. */
  predicate NeedsSeparator(a: string) {
    a != [] && a[|a| - 1] != '/'
  }

  /**
   * `posixpath.join(a, b)`: an absolute `b` replaces `a`; otherwise the result
   * is `a`, then a single `/` only where `a` does not already end in one, then `b`.
   */
  function Join(a: string, b: string): (r: string)
    ensures IsAbsolute(b) ==> r == b
    ensures !IsAbsolute(b) ==> |r| == |a| + |b| + (if NeedsSeparator(a) then 1 else 0)
    ensures !IsAbsolute(b) ==> r[..|a|] == a && r[|r| - |b|..] == b
    ensures !IsAbsolute(b) && NeedsSeparator(a) ==> r[|a|] == '/'
  {
    if |b| > 0 && b[0] == '/' then b
    else if a == [] || a[|a| - 1] == '/' then a + b
    else a + "/" + b
  }
}
