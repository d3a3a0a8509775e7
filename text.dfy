/**
 * Character and string helpers with Python's `str` semantics, restricted to
 * what the daemon uses: digit tests, prefixes, `strip()`, lower-casing and
 * decimal rendering of integers.
 */
module Text {

  import opened Wrappers

  /** `c.isdigit()` for the ASCII digits. */
  predicate IsDigit(c: char)
  {
    '0' <= c <= '9'
  }

  /** `len(s) >= 2 and s[:2].isdigit()`: the button-directory test used throughout. */
  predicate HasTwoDigitPrefix(s: string)
  {
    |s| >= 2 && IsDigit(s[0]) && IsDigit(s[1])
  }

  function DigitValue(c: char): (d: nat)
    requires IsDigit(c)
    ensures d < 10
  {
    c as int - '0' as int
  }

  function DigitChar(d: nat): (c: char)
    requires d < 10
    ensures IsDigit(c) && DigitValue(c) == d
  {
    ('0' as int + d) as char
  }

  /** `int(s[:2])` for a name that starts with two digits. */
  function TwoDigitValue(s: string): (n: nat)
    requires HasTwoDigitPrefix(s)
    ensures n < 100
    ensures n == 10 * DigitValue(s[0]) + DigitValue(s[1])
  {
    10 * DigitValue(s[0]) + DigitValue(s[1])
  }

  /** `s.startswith(prefix)`. */
  predicate StartsWith(s: string, prefix: string)
  {
    |prefix| <= |s| && s[..|prefix|] == prefix
  }

  /** `s.endswith(suffix)`. */
  predicate EndsWith(s: string, suffix: string)
  {
    |suffix| <= |s| && s[|s| - |suffix|..] == suffix
  }

  /** `t in s` for strings: `t` occurs as a contiguous substring of `s`. */
  predicate Occurs(t: string, s: string)
    decreases |s|
  {
    StartsWith(s, t) || (|s| > 0 && Occurs(t, s[1..]))
  }

  lemma {:induction false} OccursAt(t: string, s: string, i: nat)
    requires i + |t| <= |s| && s[i..i + |t|] == t
    ensures Occurs(t, s)
    decreases i
  {
    if i > 0 {
      assert s[1..][i - 1..i - 1 + |t|] == t;
      OccursAt(t, s[1..], i - 1);
    }
  }

  /** ASCII part of `str.lower()`. */
  function LowerChar(c: char): char
  {
    if 'A' <= c <= 'Z' then (c as int + 32) as char else c
  }

  function Lower(s: string): (r: string)
    ensures |r| == |s| && forall i | 0 <= i < |s| :: r[i] == LowerChar(s[i])
  {
    if s == [] then [] else [LowerChar(s[0])] + Lower(s[1..])
  }

  /** `c.isspace()`: the characters Python's `str.strip()` removes by default. */
  predicate IsSpace(c: char)
  {
    var n := c as int;
    (9 <= n <= 13) || (28 <= n <= 32) || n == 0x85 || n == 0xA0 || n == 0x1680
    || (0x2000 <= n <= 0x200A) || n == 0x2028 || n == 0x2029 || n == 0x202F
    || n == 0x205F || n == 0x3000
  }

  predicate AllSpace(s: string)
  {
    forall k | 0 <= k < |s| :: IsSpace(s[k])
  }

  /** Number of leading whitespace characters. */
  function LeadingSpace(s: string): (n: nat)
    ensures n <= |s| && AllSpace(s[..n]) && (n < |s| ==> !IsSpace(s[n]))
  {
    if s == [] || !IsSpace(s[0]) then 0
    else
      var m := LeadingSpace(s[1..]);
      assert s[..m + 1] == [s[0]] + s[1..][..m];
      AllSpaceCons(s[0], s[1..][..m]);
      m + 1
  }

  /** Number of trailing whitespace characters. */
  function TrailingSpace(s: string): (n: nat)
    ensures n <= |s| && AllSpace(s[|s| - n..]) && (n < |s| ==> !IsSpace(s[|s| - n - 1]))
  {
    if s == [] || !IsSpace(s[|s| - 1]) then 0
    else
      var t := s[..|s| - 1];
      var m := TrailingSpace(t);
      assert s[|s| - (m + 1)..] == t[|t| - m..] + [s[|s| - 1]];
      AllSpaceSnoc(t[|t| - m..], s[|s| - 1]);
      assert m + 1 < |s| ==> s[|s| - (m + 1) - 1] == t[|t| - m - 1];
      m + 1
  }

  lemma AllSpaceSnoc(a: string, c: char)
    requires AllSpace(a) && IsSpace(c)
    ensures AllSpace(a + [c])
  {
    assert forall k | 0 <= k < |a| :: (a + [c])[k] == a[k];
  }

  lemma AllSpaceCons(c: char, a: string)
    requires IsSpace(c) && AllSpace(a)
    ensures AllSpace([c] + a)
  {
    assert forall k | 0 < k <= |a| :: ([c] + a)[k] == a[k - 1];
  }

  /**
   * `s.strip()`: the infix of `s` left after removing whitespace from both
   * ends; it neither starts nor ends with whitespace.
   */
  function Strip(s: string): (r: string)
    ensures exists i, j | 0 <= i <= j <= |s| :: r == s[i..j] && AllSpace(s[..i]) && AllSpace(s[j..])
    ensures r != [] ==> !IsSpace(r[0]) && !IsSpace(r[|r| - 1])
    ensures r == [] <==> AllSpace(s)
  {
    var i := LeadingSpace(s);
    var j := |s[i..]| - TrailingSpace(s[i..]);
    StripFacts(s, i, j);
    s[i..][..j]
  }

  lemma StripFacts(s: string, i: nat, j: nat)
    requires i == LeadingSpace(s) && j == |s[i..]| - TrailingSpace(s[i..])
    ensures i + j <= |s| && s[i..][..j] == s[i..i + j] && AllSpace(s[..i]) && AllSpace(s[i + j..])
    ensures j > 0 ==> !IsSpace(s[i]) && !IsSpace(s[i + j - 1])
    ensures j == 0 <==> AllSpace(s)
  {
    var rest := s[i..];
    assert rest[j..] == s[i + j..];
    if j == 0 {
      assert i == |s|;
      assert s[..i] == s;
    }
    if AllSpace(s) {
      assert i == |s|;
    }
  }

  /** Decimal rendering of a natural number, as `f"{n}"` / `str(n)`. */
  function NatToString(n: nat): (s: string)
    ensures |s| >= 1 && forall k | 0 <= k < |s| :: IsDigit(s[k])
    ensures (|s| == 1) == (n < 10)
    decreases n
  {
    if n < 10 then [DigitChar(n)] else NatToString(n / 10) + [DigitChar(n % 10)]
  }

  /** The value of a string of decimal digits, read left to right. */
  function DigitsValue(s: string): nat
    requires forall k | 0 <= k < |s| :: IsDigit(s[k])
  {
    if s == [] then 0 else 10 * DigitsValue(s[..|s| - 1]) + DigitValue(s[|s| - 1])
  }

  /** `int(s)` for a non-empty string of ASCII digits; `None` where `int` would raise. */
  function ParseNat(s: string): (r: Option<nat>)
    ensures r.Some? <==> (s != [] && forall k | 0 <= k < |s| :: IsDigit(s[k]))
  {
    if s != [] && forall k | 0 <= k < |s| :: IsDigit(s[k]) then Some(DigitsValue(s)) else None
  }

  /** Rendering then parsing gives the number back. */
  lemma {:induction false} ParseNatToString(n: nat)
    ensures ParseNat(NatToString(n)) == Some(n)
    decreases n
  {
    var s := NatToString(n);
    if n < 10 {
      assert s[..0] == [];
    } else {
      ParseNatToString(n / 10);
      assert s[..|s| - 1] == NatToString(n / 10);
      assert DigitsValue(s) == 10 * (n / 10) + n % 10;
    }
  }

  /** The rendering of a two-digit number is its tens digit then its units digit. */
  lemma TwoDigitRendering(n: nat)
    requires 10 <= n < 100
    ensures NatToString(n) == [DigitChar(n / 10), DigitChar(n % 10)]
  {
  }

  /** `f"{n:02d}"`: at least two digits, zero padded. */
  function ZeroPad2(n: nat): (s: string)
    ensures |s| >= 2 && HasTwoDigitPrefix(s)
    ensures n < 100 ==> |s| == 2 && TwoDigitValue(s) == n
  {
    if n < 10 then "0" + NatToString(n)
    else if n < 100 then TwoDigitRendering(n); NatToString(n)
    else
      assert |NatToString(n / 10)| >= 2;
      NatToString(n)
  }

  /** Index of the first `c` in `s`; `|s|` when there is none. */
  function IndexOf(s: string, c: char): (i: nat)
    ensures i <= |s| && c !in s[..i]
    ensures i < |s| ==> s[i] == c
    ensures i == |s| <==> c !in s
  {
    if s == [] then 0
    else if s[0] == c then 0
    else
      var i := 1 + IndexOf(s[1..], c);
      assert s[..i] == [s[0]] + s[1..][..i - 1];
      i
    }
}
