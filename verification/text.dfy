/** Python's `str.strip()` and `str.lower()` on Dafny strings.

The ledger normalises its `Jenis` and `Kategori` cells and its column names with
these two operations, so the module characterises them independently of how they
are computed: `IsStripOf` says what a stripped string is, and `StripUnique` shows
that it determines the result.
 */
module Text {

  /** Python's `str.isspace()` for one character: the characters `str.strip()`
      removes when called without arguments. */
  predicate IsSpace(c: char) {
    || ('\t' <= c <= '\r')
    || ('\U{1C}' <= c <= ' ')
    || c == '\U{85}' || c == '\U{A0}' || c == '\U{1680}'
    || ('\U{2000}' <= c <= '\U{200A}')
    || c == '\U{2028}' || c == '\U{2029}' || c == '\U{202F}' || c == '\U{205F}'
    || c == '\U{3000}'
  }

  /** Every character of `s` at positions `lo` to `hi - 1` is whitespace. */
  predicate SpaceBetween(s: string, lo: int, hi: int)
    requires 0 <= lo && hi <= |s|
  {
    forall k :: lo <= k < hi ==> IsSpace(s[k])
  }

  /** Neither end of `s` is whitespace. */
  predicate Trimmed(s: string) {
    |s| == 0 || (!IsSpace(s[0]) && !IsSpace(s[|s| - 1]))
  }

  /** `s[i..j]` is what stripping leaves of `s`: only whitespace lies outside
      it and neither of its ends is whitespace. */
  predicate IsWindow(s: string, i: int, j: int) {
    && 0 <= i <= j <= |s|
    && SpaceBetween(s, 0, i)
    && SpaceBetween(s, j, |s|)
    && (i == j || (!IsSpace(s[i]) && !IsSpace(s[j - 1])))
  }

  /** `r` is what is left of `s` once the whitespace at both ends is removed. */
  ghost predicate IsStripOf(r: string, s: string) {
    exists i, j :: IsWindow(s, i, j) && r == s[i..j]
  }

  /** `s` without its leading whitespace. */
  function TrimStart(s: string): (r: string)
    ensures |r| <= |s| && r == s[|s| - |r|..]
    ensures SpaceBetween(s, 0, |s| - |r|)
    ensures |r| == 0 || !IsSpace(r[0])
  {
    if |s| > 0 && IsSpace(s[0]) then TrimStart(s[1..]) else s
  }

  /** `s` without its trailing whitespace. */
  function TrimEnd(s: string): (r: string)
    ensures |r| <= |s| && r == s[..|r|]
    ensures SpaceBetween(s, |r|, |s|)
    ensures |r| == 0 || !IsSpace(r[|r| - 1])
  {
    if |s| > 0 && IsSpace(s[|s| - 1]) then TrimEnd(s[..|s| - 1]) else s
  }

  /** Python's `s.strip()`. */
  function Strip(s: string): (r: string)
    ensures IsStripOf(r, s)
    ensures Trimmed(r)
  {
    var t := TrimStart(s);
    var r := TrimEnd(t);
    var i := |s| - |t|;
    assert r == s[i..i + |r|];
    assert IsWindow(s, i, i + |r|);
    r
  }

  /** Two strip windows of the same string select the same characters. */
  lemma WindowUnique(s: string, i1: int, j1: int, i2: int, j2: int)
    requires IsWindow(s, i1, j1) && IsWindow(s, i2, j2)
    ensures s[i1..j1] == s[i2..j2]
  {
    if i1 < j1 && i2 < j2 {
      assert i1 == i2;
      assert j1 == j2;
    }
  }

  /** Whitespace trimming has exactly one answer: any two strings that are
      strips of the same `s` are equal. */
  lemma StripUnique(r1: string, r2: string, s: string)
    requires IsStripOf(r1, s) && IsStripOf(r2, s)
    ensures r1 == r2
  {
    var i1, j1 :| IsWindow(s, i1, j1) && r1 == s[i1..j1];
    var i2, j2 :| IsWindow(s, i2, j2) && r2 == s[i2..j2];
    WindowUnique(s, i1, j1, i2, j2);
  }

  /** A string with no whitespace at its ends is its own strip. */
  lemma StripTrimmed(s: string)
    requires Trimmed(s)
    ensures Strip(s) == s
  {
    assert IsWindow(s, 0, |s|) && s == s[0..|s|];
    StripUnique(Strip(s), s, s);
  }

  /** A blank in front of a trimmed string is removed by stripping. */
  lemma StripLeadingBlank(s: string)
    requires Trimmed(s)
    ensures Strip(" " + s) == s
  {
    var p := " " + s;
    assert IsWindow(p, 1, |p|) && p[1..|p|] == s;
    StripUnique(Strip(p), s, p);
  }

  /** Stripping twice is stripping once. */
  lemma StripIdempotent(s: string)
    ensures Strip(Strip(s)) == Strip(s)
  {
    var r := Strip(s);
    var i, j :| IsWindow(s, i, j) && r == s[i..j];
    StripTrimmed(r);
  }

  /** An upper-case letter that `str.lower()` maps to a single lower-case
      character: ASCII `A`-`Z` and the Latin-1 capitals. */
  predicate IsUpper(c: char) {
    ('A' <= c <= 'Z') || ('\U{C0}' <= c <= '\U{DE}' && c != '\U{D7}')
  }

  /** Python's lower-casing of one character. */
  function LowerChar(c: char): (d: char)
    ensures !IsUpper(d)
    ensures IsUpper(c) || d == c
    ensures IsSpace(d) <==> IsSpace(c)
  {
    if IsUpper(c) then (c as int + 32) as char else c
  }

  /** Python's `s.lower()`. */
  function Lower(s: string): (r: string)
    ensures |r| == |s|
    ensures forall k :: 0 <= k < |r| ==> !IsUpper(r[k])
    ensures forall k :: 0 <= k < |s| && !IsUpper(s[k]) ==> r[k] == s[k]
    ensures forall k :: 0 <= k < |s| && IsUpper(s[k]) ==> r[k] as int == s[k] as int + 32
  {
    seq(|s|, k requires 0 <= k < |s| => LowerChar(s[k]))
  }

  /** Lower-casing keeps a strip window a strip window. */
  lemma LowerKeepsWindow(s: string, i: int, j: int)
    requires IsWindow(s, i, j)
    ensures IsWindow(Lower(s), i, j)
    ensures Lower(s[i..j]) == Lower(s)[i..j]
  {
    var ls := Lower(s);
    assert forall k :: 0 <= k < |s| ==> ls[k] == LowerChar(s[k]);
  }

  /** Lower-casing neither creates nor removes whitespace, so it does not
      matter whether a cell is stripped before or after it is lower-cased. */
  lemma StripLowerCommute(s: string)
    ensures Strip(Lower(s)) == Lower(Strip(s))
  {
    var r := Strip(s);
    var i, j :| IsWindow(s, i, j) && r == s[i..j];
    LowerKeepsWindow(s, i, j);
    StripUnique(Strip(Lower(s)), Lower(r), Lower(s));
  }
}
