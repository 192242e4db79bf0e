/** Text building blocks of the instance file: Python's `str()` of integers and
    of (nested) integer lists, decimal parsing, and splitting at a character. */
module Text {
  import opened Wrappers

  predicate IsDigit(c: char) {
    '0' <= c <= '9'
  }

  ghost predicate AllDigits(s: string) {
    forall k :: 0 <= k < |s| ==> IsDigit(s[k])
  }

  function DigitChar(d: nat): (c: char)
    requires d < 10
    ensures IsDigit(c)
  {
    (('0' as int) + d) as char
  }

  function DigitValue(c: char): (d: nat)
    requires IsDigit(c)
    ensures d < 10
  {
    (c as int) - ('0' as int)
  }

  /** `str(n)` for a natural number: decimal, without leading zeros. */
  function NatToString(n: nat): (s: string)
    ensures |s| >= 1 && AllDigits(s)
    ensures s[0] == '0' ==> n == 0
  {
    if n < 10 then [DigitChar(n)]
    else NatToString(n / 10) + [DigitChar(n % 10)]
  }

  /** Reads a non-empty string of decimal digits. */
  function ParseNat(s: string): (r: Option<nat>)
    ensures r.Some? <==> |s| >= 1 && AllDigits(s)
  {
    if |s| == 0 || !IsDigit(s[|s| - 1]) then None
    else if |s| == 1 then Some(DigitValue(s[0]))
    else match ParseNat(s[..|s| - 1])
      case None => None
      case Some(high) => Some(10 * high + DigitValue(s[|s| - 1]))
  }

  lemma DigitRoundTrip(d: nat)
    requires d < 10
    ensures DigitValue(DigitChar(d)) == d
  {
  }

  /** Printing a natural number and reading it back gives the number. */
  lemma {:induction false} NatRoundTrip(n: nat)
    ensures ParseNat(NatToString(n)) == Some(n)
  {
    var s := NatToString(n);
    if n < 10 {
      DigitRoundTrip(n);
    } else {
      NatRoundTrip(n / 10);
      DigitRoundTrip(n % 10);
      assert s[..|s| - 1] == NatToString(n / 10);
    }
  }

  /** Two numbers print the same only if they are equal. */
  lemma NatToStringInjective(m: nat, n: nat)
    requires NatToString(m) == NatToString(n)
    ensures m == n
  {
    NatRoundTrip(m);
    NatRoundTrip(n);
  }

  /** `str(x)` for any integer. */
  function IntToString(x: int): (s: string)
    ensures |s| >= 1
    ensures forall k :: 0 <= k < |s| ==> IsDigit(s[k]) || s[k] == '-'
  {
    if x < 0 then "-" + NatToString(-x) else NatToString(x)
  }

  /** Characters that Python's `str()` of an integer list can contain. */
  predicate ReprChar(c: char) {
    IsDigit(c) || c == '-' || c == '[' || c == ']' || c == ',' || c == ' '
  }

  ghost predicate ReprText(s: string) {
    forall k :: 0 <= k < |s| ==> ReprChar(s[k])
  }

  /** Printed lists hold no `;`. */
  lemma ReprTextHasNoSemicolon(s: string)
    requires ReprText(s)
    ensures ';' !in s
  {
  }

  /** The items of a list joined by `", "`. */
  function JoinInts(xs: seq<int>): (s: string)
    ensures ReprText(s)
  {
    if |xs| == 0 then ""
    else if |xs| == 1 then IntToString(xs[0])
    else IntToString(xs[0]) + ", " + JoinInts(xs[1..])
  }

  /** `str(xs)` for a list of integers, e.g. `[1, 0, 12]`. */
  function ReprList(xs: seq<int>): (s: string)
    ensures |s| >= 2 && s[0] == '[' && ReprText(s)
  {
    "[" + JoinInts(xs) + "]"
  }

  function JoinRows(m: seq<seq<int>>): (s: string)
    ensures ReprText(s)
  {
    if |m| == 0 then ""
    else if |m| == 1 then ReprList(m[0])
    else ReprList(m[0]) + ", " + JoinRows(m[1..])
  }

  /** `str(m)` for a list of integer lists, e.g. `[[1, 0], [0, 1]]`. */
  function ReprGrid(m: seq<seq<int>>): (s: string)
    ensures |s| >= 2 && s[0] == '[' && ReprText(s)
  {
    "[" + JoinRows(m) + "]"
  }

  /** Splits `s` at the first `c`: the part before it and the part after. */
  function SplitAt(s: string, c: char): (r: Option<(string, string)>)
    ensures r.Some? ==> s == r.value.0 + [c] + r.value.1 && c !in r.value.0
    ensures r.None? <==> c !in s
  {
    if |s| == 0 then None
    else if s[0] == c then Some(([], s[1..]))
    else match SplitAt(s[1..], c)
      case None => None
      case Some(parts) => Some(([s[0]] + parts.0, parts.1))
  }

  /** Splitting a string glued at its first `c` recovers the two pieces. */
  lemma {:induction false} SplitAtGlued(a: string, c: char, b: string)
    requires c !in a
    ensures SplitAt(a + [c] + b, c) == Some((a, b))
  {
    var s := a + [c] + b;
    if |a| > 0 {
      assert s[0] == a[0] && a[0] != c;
      assert s[1..] == a[1..] + [c] + b;
      SplitAtGlued(a[1..], c, b);
      assert [a[0]] + a[1..] == a;
    } else {
      assert s[1..] == b;
    }
  }
}
