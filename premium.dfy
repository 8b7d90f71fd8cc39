/**
 * The one regular expression the tool uses, `premium(\d+)/mono\.m3u8`,
 * with `search` semantics: the leftmost position where the pattern matches,
 * and the digits captured there by group 1.
 */
module Premium {
  import opened Wrappers
  import opened Text

  const Lead := "premium"
  const Trail := "/mono.m3u8"

  predicate IsDigit(c: char) {
    '0' <= c <= '9'
  }

  /** A non-empty string of decimal digits: what `\d+` can capture. */
  predicate IsDigits(s: string) {
    |s| > 0 && forall i :: 0 <= i < |s| ==> IsDigit(s[i])
  }

  /** The regular-expression semantics: `premium`, then `d`, then `/mono.m3u8`, starting at `p`. */
  predicate Captures(s: string, p: int, d: string) {
    IsDigits(d) && OccursAt(s, Lead + d + Trail, p)
  }

  /** Length of the longest run of digits in `s` starting at `i` (what greedy `\d+` consumes). */
  function DigitRun(s: string, i: nat): (k: nat)
    requires i <= |s|
    decreases |s| - i
    ensures i + k <= |s|
    ensures forall j :: i <= j < i + k ==> IsDigit(s[j])
    ensures i + k == |s| || !IsDigit(s[i + k])
  {
    if i < |s| && IsDigit(s[i]) then 1 + DigitRun(s, i + 1) else 0
  }

  /** The match attempt at position `p`: the captured digits, if the pattern matches there. */
  function MatchAt(s: string, p: nat): (r: Option<string>)
    requires p <= |s|
  {
    if p + |Lead| <= |s| && s[p..p + |Lead|] == Lead then
      var k := DigitRun(s, p + |Lead|);
      var e := p + |Lead| + k;
      if k > 0 && e + |Trail| <= |s| && s[e..e + |Trail|] == Trail then Some(s[p + |Lead|..e])
      else None
    else None
  }

  /** The hand-written matcher agrees with the regular-expression semantics, both ways. */
  lemma MatchAtIsCapture(s: string, p: nat, d: string)
    requires p <= |s|
    ensures MatchAt(s, p) == Some(d) <==> Captures(s, p, d)
  {
    if MatchAt(s, p) == Some(d) {
      MatchAtCaptures(s, p, d);
    }
    if Captures(s, p, d) {
      CapturesMatchAt(s, p, d);
    }
  }

  /** What the matcher returns is a capture. */
  lemma MatchAtCaptures(s: string, p: nat, d: string)
    requires p <= |s| && MatchAt(s, p) == Some(d)
    ensures Captures(s, p, d)
  {
    ThreeSlices(s, p, Lead, d, Trail);
  }

  /** A capture is what the matcher returns: the digit run stops where `/mono.m3u8` begins. */
  lemma CapturesMatchAt(s: string, p: nat, d: string)
    requires p <= |s| && Captures(s, p, d)
    ensures MatchAt(s, p) == Some(d)
  {
    var i := p + |Lead|;
    var e := i + |d|;
    ThreeSlices(s, p, Lead, d, Trail);
    assert s[e] == s[e..e + |Trail|][0];
    assert forall j :: i <= j < e ==> s[j] == d[j - i];
    DigitRunOf(s, i, |d|);
  }

  /** `a + b + c` occurs at `p` exactly when `a`, `b` and `c` occur one after the other from `p`. */
  lemma ThreeSlices(s: string, p: nat, a: string, b: string, c: string)
    ensures OccursAt(s, a + b + c, p) <==>
      (p + |a| + |b| + |c| <= |s| && s[p..p + |a|] == a && s[p + |a|..p + |a| + |b|] == b
       && s[p + |a| + |b|..p + |a| + |b| + |c|] == c)
  {
    var w := a + b + c;
    if p + |w| <= |s| {
      var x := s[p..p + |w|];
      SubSlice(s, p, p + |w|, 0, |a|);
      SubSlice(s, p, p + |w|, |a|, |a| + |b|);
      SubSlice(s, p, p + |w|, |a| + |b|, |w|);
      assert w[..|a|] == a && w[|a|..|a| + |b|] == b && w[|a| + |b|..] == c;
      assert x == x[0..|a|] + x[|a|..|a| + |b|] + x[|a| + |b|..|w|];
    }
  }

  /** A run of `n` digits followed by a non-digit is exactly what `DigitRun` measures. */
  lemma DigitRunOf(s: string, i: nat, n: nat)
    requires i + n < |s|
    requires forall j :: i <= j < i + n ==> IsDigit(s[j])
    requires !IsDigit(s[i + n])
    ensures DigitRun(s, i) == n
    decreases n
  {
    if n > 0 { DigitRunOf(s, i + 1, n - 1); }
  }

  /** The leftmost position at or after `from` where the pattern matches. */
  function FindFrom(s: string, from: nat): (r: Option<nat>)
    requires from <= |s|
    decreases |s| - from
    ensures r.Some? ==> from <= r.value <= |s| && MatchAt(s, r.value).Some?
    ensures r.Some? ==> forall q :: from <= q < r.value ==> MatchAt(s, q).None?
    ensures r.None? ==> forall q :: from <= q <= |s| ==> MatchAt(s, q).None?
  {
    if MatchAt(s, from).Some? then Some(from)
    else if from == |s| then None
    else FindFrom(s, from + 1)
  }

  /** `PREMIUM.search(s)`: where the leftmost match starts. */
  function Find(s: string): (r: Option<nat>)
    ensures r.Some? ==> r.value <= |s| && MatchAt(s, r.value).Some?
    ensures r.Some? ==> forall q :: 0 <= q < r.value ==> MatchAt(s, q).None?
    ensures r.None? ==> forall q :: 0 <= q <= |s| ==> MatchAt(s, q).None?
  {
    FindFrom(s, 0)
  }

  /**
   * `PREMIUM.search(s).group(1)`, or `None` when there is no match.
   * What it returns is a capture of the pattern in `s`, taken at the leftmost
   * position where the pattern matches; `None` means the pattern occurs nowhere.
   */
  function Search(s: string): (r: Option<string>)
    ensures r.Some? ==> IsDigits(r.value)
    ensures r.Some? ==> exists p :: 0 <= p <= |s| && Captures(s, p, r.value)
                         && forall q :: 0 <= q < p ==> MatchAt(s, q).None?
    ensures r.None? <==> forall p, d :: !Captures(s, p, d)
  {
    match Find(s)
    case None =>
      assert forall p, d :: !Captures(s, p, d) by {
        forall p, d | Captures(s, p, d) ensures false {
          MatchAtIsCapture(s, p, d);
        }
      }
      None
    case Some(p) =>
      var d := MatchAt(s, p).value;
      MatchAtIsCapture(s, p, d);
      Some(d)
  }
}
