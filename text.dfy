/** String helpers with the meaning of the Python `str` methods the fetcher and indexer use. */
module Text {
  import opened Wrappers

  /** The characters Python's `str.isspace()` accepts; `\s` in a `str` regex matches the same set. */
  predicate IsSpace(c: char) {
    var n := c as int;
    n == 0x20 || (0x09 <= n <= 0x0d) || (0x1c <= n <= 0x1f) || n == 0x85 || n == 0xa0
    || n == 0x1680 || (0x2000 <= n <= 0x200a) || n == 0x2028 || n == 0x2029
    || n == 0x202f || n == 0x205f || n == 0x3000
  }

  predicate IsDigit(c: char) { '0' <= c <= '9' }

  /** Characters that `\b` treats as word characters (ASCII letters, digits and underscore). */
  predicate IsWordChar(c: char) {
    ('a' <= c <= 'z') || ('A' <= c <= 'Z') || IsDigit(c) || c == '_'
  }

  function LowerChar(c: char): char {
    if 'A' <= c <= 'Z' then (c as int + 32) as char else c
  }

  function UpperChar(c: char): char {
    if 'a' <= c <= 'z' then (c as int - 32) as char else c
  }

  /** `s.lower()` on ASCII letters. */
  function Lower(s: string): (r: string)
    ensures |r| == |s|
    ensures forall i :: 0 <= i < |s| ==> r[i] == LowerChar(s[i])
  {
    seq(|s|, i requires 0 <= i < |s| => LowerChar(s[i]))
  }

  /** Lower-casing is idempotent and leaves no upper-case ASCII letter behind. */
  lemma LowerIdempotent(s: string)
    ensures Lower(Lower(s)) == Lower(s)
    ensures forall i :: 0 <= i < |s| ==> !('A' <= Lower(s)[i] <= 'Z')
  {
    var l := Lower(s);
    assert forall i :: 0 <= i < |s| ==> LowerChar(l[i]) == l[i];
  }

  /** `s.capitalize()`: first character upper case, the rest lower case. */
  function Capitalize(s: string): (r: string)
    ensures |r| == |s|
    ensures s != [] ==> r[0] == UpperChar(s[0]) && r[1..] == Lower(s[1..])
  {
    if s == [] then [] else [UpperChar(s[0])] + Lower(s[1..])
  }

  /**
   * `capitalize()` only changes case: lower-casing its result gives `s.lower()`, and
   * capitalizing twice is capitalizing once.
   */
  lemma CapitalizeOnlyChangesCase(s: string)
    ensures Lower(Capitalize(s)) == Lower(s)
    ensures Capitalize(Capitalize(s)) == Capitalize(s)
  {
    if s != [] {
      var c := Capitalize(s);
      assert LowerChar(UpperChar(s[0])) == LowerChar(s[0]);
      assert forall i :: 1 <= i < |s| ==> Lower(c)[i] == Lower(s)[i];
      assert c[1..] == Lower(s[1..]);
      LowerIdempotent(s[1..]);
      assert UpperChar(UpperChar(s[0])) == UpperChar(s[0]);
    }
  }

  /** `s.find(x)` for an `x` that occurs in `s`: the position of its first occurrence. */
  function IndexOf<T(==)>(s: seq<T>, x: T): (k: nat)
    requires x in s
    ensures k < |s| && s[k] == x && x !in s[..k]
  {
    if s[0] == x then 0
    else
      var k := IndexOf(s[1..], x);
      assert s[..k + 1] == [s[0]] + s[1..][..k];
      k + 1
  }

  /** Number of leading characters satisfying `strip`. */
  function LeadingCount(s: string, strip: char -> bool): (n: nat)
    ensures n <= |s|
    ensures forall i :: 0 <= i < n ==> strip(s[i])
    ensures n < |s| ==> !strip(s[n])
  {
    if s != [] && strip(s[0]) then 1 + LeadingCount(s[1..], strip) else 0
  }

  /** `s.lstrip(chars)` for the set of characters `strip` accepts. */
  function LStripBy(s: string, strip: char -> bool): (r: string)
    ensures r == s[LeadingCount(s, strip)..]
    ensures r == [] || !strip(r[0])
  {
    s[LeadingCount(s, strip)..]
  }

  /** `s.rstrip(chars)` for the set of characters `strip` accepts. */
  function RStripBy(s: string, strip: char -> bool): (r: string)
    ensures r <= s
    ensures r == [] || !strip(r[|r| - 1])
    ensures forall i :: |r| <= i < |s| ==> strip(s[i])
  {
    if s != [] && strip(s[|s| - 1]) then RStripBy(s[..|s| - 1], strip) else s
  }

  /** `s.strip()`: the part of `s` between its leading and trailing whitespace. */
  function Strip(s: string): (r: string)
    ensures LeadingCount(s, IsSpace) + |r| <= |s|
    ensures r == s[LeadingCount(s, IsSpace)..LeadingCount(s, IsSpace) + |r|]
    ensures r == [] || (!IsSpace(r[0]) && !IsSpace(r[|r| - 1]))
    ensures forall i :: LeadingCount(s, IsSpace) + |r| <= i < |s| ==> IsSpace(s[i])
    ensures forall c :: c in r ==> c in s
  {
    var a := LeadingCount(s, IsSpace);
    var r := RStripBy(s[a..], IsSpace);
    assert r == s[a..a + |r|];
    r
  }

  /** `s.split(sep)[0]`: the longest prefix of `s` without `sep`. */
  function Before(s: string, sep: char): (r: string)
    ensures r <= s && sep !in r
    ensures |r| < |s| ==> s[|r|] == sep
    ensures sep !in s ==> r == s
  {
    if s == [] || s[0] == sep then [] else [s[0]] + Before(s[1..], sep)
  }

  /** `s.rsplit(sep, 1)[0]`: everything before the last `sep`, or all of `s` when there is none. */
  function BeforeLast(s: string, sep: char): (r: string)
    ensures r <= s
    ensures sep !in s ==> r == s
    ensures sep in s ==> |r| < |s| && s[|r|] == sep && sep !in s[|r| + 1..]
  {
    if sep !in s then s
    else if s[|s| - 1] == sep then s[..|s| - 1]
    else
      var r := BeforeLast(s[..|s| - 1], sep);
      assert s[|r| + 1..] == s[..|s| - 1][|r| + 1..] + [s[|s| - 1]];
      r
  }

  /** `s.endswith(suffix)`. */
  predicate EndsWith(s: string, suffix: string) {
    |suffix| <= |s| && s[|s| - |suffix|..] == suffix
  }

  /** `needle in s` for strings: `needle` occurs in `s` as a contiguous block. */
  predicate Contains(s: string, needle: string)
    decreases |s|
  {
    needle <= s || (s != [] && Contains(s[1..], needle))
  }

  /** `sep.join(parts)`. */
  function Join(sep: string, parts: seq<string>): (r: string)
    ensures |parts| == 1 ==> r == parts[0]
    ensures |parts| > 1 ==> r == parts[0] + sep + Join(sep, parts[1..])
  {
    if parts == [] then [] else if |parts| == 1 then parts[0] else parts[0] + sep + Join(sep, parts[1..])
  }

  function DigitChar(d: nat): char
    requires d < 10
  {
    ('0' as int + d) as char
  }

  function DigitValue(c: char): nat
    requires IsDigit(c)
  {
    c as int - '0' as int
  }

  /** The decimal digits of a string, read as a number. */
  function DecimalValue(s: string): nat
    requires forall c :: c in s ==> IsDigit(c)
  {
    if s == [] then 0 else 10 * DecimalValue(s[..|s| - 1]) + DigitValue(s[|s| - 1])
  }

  /** `str(n)` for a non-negative integer. */
  function NatToString(n: nat): (r: string)
    ensures r != [] && forall c :: c in r ==> IsDigit(c)
  {
    if n < 10 then [DigitChar(n)] else NatToString(n / 10) + [DigitChar(n % 10)]
  }

  /** `str(n)` can be read back: the decimal rendering of a position is faithful. */
  lemma {:induction false} NatToStringRoundTrip(n: nat)
    ensures DecimalValue(NatToString(n)) == n
  {
    var s := NatToString(n);
    if n >= 10 {
      NatToStringRoundTrip(n / 10);
      assert s[..|s| - 1] == NatToString(n / 10);
    }
  }

  /** Distinct positions get distinct default ids. */
  lemma NatToStringInjective(m: nat, n: nat)
    requires NatToString(m) == NatToString(n)
    ensures m == n
  {
    NatToStringRoundTrip(m);
    NatToStringRoundTrip(n);
  }
}
