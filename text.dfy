/**
 * The handful of Python `str` operations the playlist tool relies on:
 * `strip()`, `startswith`, `in`, `split(sep)[0]` and `split(sep)[1]`.
 */
module Text {
  import opened Wrappers

  /** Python's `str.isspace` for one character (Unicode 15 whitespace set). */
  predicate IsSpace(c: char) {
    c == ' ' || ('\t' <= c <= '\r') || ('\U{1C}' <= c <= '\U{1F}')
    || c == '\U{85}' || c == '\U{A0}' || c == '\U{1680}'
    || ('\U{2000}' <= c <= '\U{200A}') || c == '\U{2028}' || c == '\U{2029}'
    || c == '\U{202F}' || c == '\U{205F}' || c == '\U{3000}'
  }

  /** `s` starts and ends with a non-space character, or is empty. */
  predicate IsTrimmed(s: string) {
    s == [] || (!IsSpace(s[0]) && !IsSpace(s[|s| - 1]))
  }

  /** Where the leading whitespace of `s[i..]` ends. */
  function SpaceEnd(s: string, i: nat): (k: nat)
    requires i <= |s|
    decreases |s| - i
    ensures i <= k <= |s|
    ensures forall j :: i <= j < k ==> IsSpace(s[j])
    ensures k == |s| || !IsSpace(s[k])
  {
    if i < |s| && IsSpace(s[i]) then SpaceEnd(s, i + 1) else i
  }

  /** Where the trailing whitespace of `s[lo..hi]` starts. */
  function SpaceStart(s: string, lo: nat, hi: nat): (k: nat)
    requires lo <= hi <= |s|
    decreases hi
    ensures lo <= k <= hi
    ensures forall j :: k <= j < hi ==> IsSpace(s[j])
    ensures k == lo || !IsSpace(s[k - 1])
  {
    if lo < hi && IsSpace(s[hi - 1]) then SpaceStart(s, lo, hi - 1) else hi
  }

  /**
   * Python's `s.strip()`: the result starts and ends with a non-space, it is
   * the slice of `s` right after the leading whitespace, and everything cut
   * off on either side is whitespace.
   */
  function Strip(s: string): (r: string)
    ensures IsTrimmed(r)
    ensures var a := SpaceEnd(s, 0);
      a + |r| <= |s| && r == s[a..a + |r|]
      && (forall j :: 0 <= j < a ==> IsSpace(s[j]))
      && (forall j :: a + |r| <= j < |s| ==> IsSpace(s[j]))
  {
    var a := SpaceEnd(s, 0);
    s[a..SpaceStart(s, a, |s|)]
  }

  /** A string that is already trimmed is left alone by `strip()`. */
  lemma StripTrimmed(s: string)
    requires IsTrimmed(s)
    ensures Strip(s) == s
  {
  }

  /** A slice of a slice is a slice. */
  lemma SubSlice(s: string, i: int, j: int, k: int, l: int)
    requires 0 <= i <= j <= |s| && 0 <= k <= l <= j - i
    ensures s[i..j][k..l] == s[i + k..i + l]
  {
    forall m | 0 <= m < l - k ensures s[i..j][k..l][m] == s[i + k..i + l][m] {
    }
  }

  /** Python's `s.startswith(p)`. */
  predicate StartsWith(s: string, p: string) {
    |p| <= |s| && s[..|p|] == p
  }

  /** `pat` occurs in `s` starting at index `j`. */
  predicate OccursAt(s: string, pat: string, j: int) {
    0 <= j && j + |pat| <= |s| && s[j..j + |pat|] == pat
  }

  /** The leftmost occurrence of `pat` in `s` at or after index `from`. */
  function FindFrom(s: string, pat: string, from: nat): (r: Option<nat>)
    decreases |s| - from
    ensures r.Some? ==> from <= r.value && OccursAt(s, pat, r.value)
    ensures r.Some? ==> forall j :: from <= j < r.value ==> !OccursAt(s, pat, j)
    ensures r.None? ==> forall j :: from <= j ==> !OccursAt(s, pat, j)
  {
    if from + |pat| > |s| then None
    else if s[from..from + |pat|] == pat then Some(from)
    else FindFrom(s, pat, from + 1)
  }

  /** Python's `s.find(pat)`, as an option: the leftmost index where `pat` occurs. */
  function Find(s: string, pat: string): (r: Option<nat>)
    ensures r.Some? ==> OccursAt(s, pat, r.value) && forall j :: 0 <= j < r.value ==> !OccursAt(s, pat, j)
    ensures r.None? ==> forall j :: !OccursAt(s, pat, j)
  {
    FindFrom(s, pat, 0)
  }

  /** Python's `pat in s`. */
  predicate Contains(s: string, pat: string) {
    Find(s, pat).Some?
  }

  /** `sep` occurs at `j` and ends by `hi`. */
  predicate OccursBefore(s: string, sep: string, j: int, hi: int) {
    OccursAt(s, sep, j) && j + |sep| <= hi
  }

  /**
   * Scanning `s[from..hi]` for `sep` stops at `e`: no occurrence of `sep` that
   * ends by `hi` starts in `[from, e)`, and `e` is either `hi` or the start of
   * one.
   */
  predicate NextIn(s: string, sep: string, from: int, hi: int, e: int) {
    0 <= from <= e <= hi <= |s|
    && (forall j :: from <= j < e ==> !OccursBefore(s, sep, j, hi))
    && (e == hi || OccursBefore(s, sep, e, hi))
  }

  /** Occurrences in a slice `s[a..b]` are occurrences in `s`, shifted by `a`. */
  lemma OccursInSlice(s: string, sep: string, a: int, b: int, j: int, hi: int)
    requires 0 <= a <= b <= |s| && 0 <= j && hi <= b - a
    ensures OccursBefore(s[a..b], sep, j, hi) <==> OccursBefore(s, sep, a + j, a + hi)
  {
    if j + |sep| <= hi {
      SubSlice(s, a, b, j, j + |sep|);
    }
  }

  /** Scanning a slice `s[a..b]` is scanning `s` from `a` on. */
  lemma NextInSlice(s: string, sep: string, a: int, b: int, from: int, hi: int, e: int)
    requires 0 <= a <= b <= |s|
    requires NextIn(s[a..b], sep, from, hi, e)
    ensures NextIn(s, sep, a + from, a + hi, a + e)
  {
    var h := a + hi;
    forall j | a + from <= j < a + e ensures !OccursBefore(s, sep, j, h) {
      OccursInSlice(s, sep, a, b, j - a, hi);
    }
    if e < hi {
      OccursInSlice(s, sep, a, b, e, hi);
    }
  }

  /**
   * Python's `s.split(sep)[0]`: everything before the first `sep`, or all of `s`.
   * The result is a prefix of `s` in which `sep` does not occur, and it stops
   * either at the end of `s` or exactly where the first `sep` begins.
   */
  function BeforeFirst(s: string, sep: string): (r: string)
    requires sep != []
    ensures |r| <= |s| && r == s[..|r|]
    ensures forall j :: !OccursAt(r, sep, j)
    ensures NextIn(s, sep, 0, |s|, |r|)
  {
    match Find(s, sep)
    case None => s
    case Some(k) =>
      var r := s[..k];
      assert forall j :: OccursAt(r, sep, j) ==> OccursAt(s, sep, j) by {
        forall j | OccursAt(r, sep, j) ensures OccursAt(s, sep, j) {
          assert s[j..j + |sep|] == r[j..j + |sep|];
        }
      }
      r
  }

  /** `sep` begins at `k` and nowhere before. */
  predicate FirstAt(s: string, sep: string, k: int) {
    OccursAt(s, sep, k) && forall j :: 0 <= j < k ==> !OccursAt(s, sep, j)
  }

  /** Everything after the first `sep` in `s`; `s.split(sep)[1]` is `BeforeFirst` of this. */
  function AfterFirst(s: string, sep: string): (r: string)
    requires Contains(s, sep)
    ensures exists k :: FirstAt(s, sep, k) && r == s[k + |sep|..]
  {
    var k := Find(s, sep).value;
    assert FirstAt(s, sep, k);
    s[k + |sep|..]
  }

  /** The text from `a` up to the next `sep` found from there, or the end. */
  lemma PieceAfter(s: string, sep: string, a: int, r: string)
    requires sep != [] && 0 <= a <= |s| && r == BeforeFirst(s[a..], sep)
    ensures a + |r| <= |s| && r == s[a..a + |r|] && NextIn(s, sep, a, |s|, a + |r|)
  {
    var rest := s[a..];
    assert NextIn(rest, sep, 0, |rest|, |r|);
    assert rest == s[a..|s|];
    NextInSlice(s, sep, a, |s|, 0, |rest|, |r|);
  }

  /**
   * `r` is the second piece of `s` split at `sep`, where the first `sep`
   * begins at `k`: it starts right after that `sep` and runs up to the next
   * `sep` found from there, or to the end.
   */
  predicate SecondPieceAt(s: string, sep: string, k: int, r: string) {
    FirstAt(s, sep, k) && k + |sep| + |r| <= |s| && r == s[k + |sep|..k + |sep| + |r|]
    && NextIn(s, sep, k + |sep|, |s|, k + |sep| + |r|)
  }

  /**
   * Python's `s.split(sep)[1]`, defined when `sep` occurs in `s`: the text
   * from the end of the first `sep` up to the next `sep` found from there (or
   * the end), with no `sep` in it.
   */
  function SecondPiece(s: string, sep: string): (r: string)
    requires sep != [] && Contains(s, sep)
    ensures forall j :: !OccursAt(r, sep, j)
    ensures exists k :: SecondPieceAt(s, sep, k, r)
  {
    var k := Find(s, sep).value;
    var r := BeforeFirst(AfterFirst(s, sep), sep);
    assert AfterFirst(s, sep) == s[k + |sep|..];
    SecondPieceFrom(s, sep, k, r);
    r
  }

  /** The second piece, once the first `sep` is found at `k`. */
  lemma SecondPieceFrom(s: string, sep: string, k: int, r: string)
    requires sep != [] && FirstAt(s, sep, k) && r == BeforeFirst(s[k + |sep|..], sep)
    ensures SecondPieceAt(s, sep, k, r)
  {
    PieceAfter(s, sep, k + |sep|, r);
  }
}
