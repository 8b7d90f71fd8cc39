/**
 * `assemble` (all_channels/main.py:131-161): rewrite the playlist so that every
 * `#EXTINF` entry whose upstream URL survived validation and has a proxy entry
 * in the channel file is replaced by that entry's two lines.
 */
module Assemble {
  import opened Wrappers
  import opened Text
  import opened Proxy
  import opened ProxyMap

  /**
   * The upstream URL a playlist URL line stands for: the decoded token of a
   * proxy line, and the line itself otherwise, also when decoding fails.
   */
  function OriginalOf(urlLine: string): (r: string)
    ensures !StartsWith(urlLine, ProxyPrefix) ==> r == urlLine
    ensures StartsWith(urlLine, ProxyPrefix) ==>
      var decoded := DecodeOriginal(PrefixToken(urlLine));
      (decoded.Some? ==> r == decoded.value) && (decoded.None? ==> r == urlLine)
    ensures r != urlLine ==> DecodeOriginal(PrefixToken(urlLine)) == Some(r)
  {
    if StartsWith(urlLine, ProxyPrefix) then
      var decoded := DecodeOriginal(PrefixToken(urlLine));
      if decoded.Some? then decoded.value else urlLine
    else urlLine
  }

  /** A proxy line built from an upstream URL stands for that URL again. */
  lemma OriginalOfWrap(original: string)
    requires Utf8.IsAscii(original) && IsTrimmed(original)
    ensures OriginalOf(Wrap(original)) == original
  {
    UnwrapWrap(original);
  }

  /** Lines `i` and `i + 1` are an entry the loop replaces, when it reaches `i`. */
  predicate Swaps(lines: seq<string>, valid: set<string>, pm: map<string, Entry>, i: int) {
    0 <= i && i + 1 < |lines| && StartsWith(lines[i], ExtinfMarker)
    && OriginalOf(lines[i + 1]) in valid && OriginalOf(lines[i + 1]) in pm
  }

  /** The stored entry that replaces the pair starting at line `i`. */
  function Replacement(lines: seq<string>, valid: set<string>, pm: map<string, Entry>, i: int): Entry
    requires Swaps(lines, valid, pm, i)
  {
    pm[OriginalOf(lines[i + 1])]
  }

  /** The output the loop produces once it stands at line `i`. */
  function RewriteFrom(lines: seq<string>, valid: set<string>, pm: map<string, Entry>, i: nat): seq<string>
    requires i <= |lines|
    decreases |lines| - i
  {
    if i == |lines| then []
    else if Swaps(lines, valid, pm, i) then
      var e := Replacement(lines, valid, pm, i);
      [e.extinf, e.proxyUrl] + RewriteFrom(lines, valid, pm, i + 2)
    else [lines[i]] + RewriteFrom(lines, valid, pm, i + 1)
  }

  /** The rewritten playlist. */
  function Rewrite(lines: seq<string>, valid: set<string>, pm: map<string, Entry>): seq<string> {
    RewriteFrom(lines, valid, pm, 0)
  }

  /**
   * Line `k` is a line the loop stands at: the loop starts at 0, steps one line
   * past a line it keeps and two lines past a pair it replaces.
   */
  predicate IsStep(lines: seq<string>, valid: set<string>, pm: map<string, Entry>, k: nat)
    decreases k
  {
    k == 0
    || (k >= 1 && IsStep(lines, valid, pm, k - 1) && !Swaps(lines, valid, pm, k - 1))
    || (k >= 2 && IsStep(lines, valid, pm, k - 2) && Swaps(lines, valid, pm, k - 2))
  }

  /** Every line is either a step of the loop or the second line of a replaced pair. */
  lemma {:induction false} StepOrSecond(lines: seq<string>, valid: set<string>, pm: map<string, Entry>, k: nat)
    ensures IsStep(lines, valid, pm, k) || (k >= 1 && IsStep(lines, valid, pm, k - 1) && Swaps(lines, valid, pm, k - 1))
  {
    if k > 0 {
      StepOrSecond(lines, valid, pm, k - 1);
      if !IsStep(lines, valid, pm, k - 1) {
        assert k >= 2 && IsStep(lines, valid, pm, k - 2) && Swaps(lines, valid, pm, k - 2);
        assert IsStep(lines, valid, pm, k);
      }
    }
  }

  /** Each replaced pair is two lines long, so the playlist keeps its length. */
  lemma {:induction false} RewriteFromLength(lines: seq<string>, valid: set<string>, pm: map<string, Entry>, i: nat)
    requires i <= |lines|
    ensures |RewriteFrom(lines, valid, pm, i)| == |lines| - i
    decreases |lines| - i
  {
    if i < |lines| {
      if Swaps(lines, valid, pm, i) {
        RewriteFromLength(lines, valid, pm, i + 2);
      } else {
        RewriteFromLength(lines, valid, pm, i + 1);
      }
    }
  }

  /** From any step on, the output is what the loop produces from that step. */
  lemma {:induction false} RewriteAtStep(lines: seq<string>, valid: set<string>, pm: map<string, Entry>, k: nat)
    requires k <= |lines| && IsStep(lines, valid, pm, k)
    ensures |Rewrite(lines, valid, pm)| == |lines|
    ensures Rewrite(lines, valid, pm)[k..] == RewriteFrom(lines, valid, pm, k)
    decreases k
  {
    RewriteFromLength(lines, valid, pm, 0);
    var out := Rewrite(lines, valid, pm);
    if k == 0 {
    } else if k >= 1 && IsStep(lines, valid, pm, k - 1) && !Swaps(lines, valid, pm, k - 1) {
      RewriteAtStep(lines, valid, pm, k - 1);
      assert out[k - 1..] == [lines[k - 1]] + RewriteFrom(lines, valid, pm, k);
      assert out[k..] == out[k - 1..][1..];
    } else {
      assert k >= 2 && IsStep(lines, valid, pm, k - 2) && Swaps(lines, valid, pm, k - 2);
      RewriteAtStep(lines, valid, pm, k - 2);
      var e := Replacement(lines, valid, pm, k - 2);
      assert out[k - 2..] == [e.extinf, e.proxyUrl] + RewriteFrom(lines, valid, pm, k);
      assert out[k..] == out[k - 2..][2..];
    }
  }

  /**
   * The rewritten playlist, line by line: it has as many lines as the input;
   * at a step where a pair is replaced, its two lines are the stored
   * `#EXTINF` line and proxy URL; at any other step the line is kept.
   */
  lemma RewriteLines(lines: seq<string>, valid: set<string>, pm: map<string, Entry>, k: nat)
    requires k < |lines| && IsStep(lines, valid, pm, k)
    ensures |Rewrite(lines, valid, pm)| == |lines|
    ensures Swaps(lines, valid, pm, k) ==>
      var e := pm[OriginalOf(lines[k + 1])];
      Rewrite(lines, valid, pm)[k] == e.extinf && Rewrite(lines, valid, pm)[k + 1] == e.proxyUrl
    ensures !Swaps(lines, valid, pm, k) ==> Rewrite(lines, valid, pm)[k] == lines[k]
  {
    RewriteAtStep(lines, valid, pm, k);
    var out := Rewrite(lines, valid, pm);
    assert out[k] == out[k..][0];
    if Swaps(lines, valid, pm, k) {
      assert out[k + 1] == out[k..][1];
    }
  }

  /** With no valid URL, or no proxy entry, nothing is replaced. */
  lemma {:induction false} RewriteNothing(lines: seq<string>, valid: set<string>, pm: map<string, Entry>, i: nat)
    requires i <= |lines|
    requires valid * pm.Keys == {}
    ensures RewriteFrom(lines, valid, pm, i) == lines[i..]
    decreases |lines| - i
  {
    if i < |lines| {
      if i + 1 < |lines| {
        var original := OriginalOf(lines[i + 1]);
        assert original !in valid * pm.Keys;
      }
      RewriteNothing(lines, valid, pm, i + 1);
      assert lines[i..] == [lines[i]] + lines[i + 1..];
    }
  }

  /**
   * The replacement at a step comes from the channel file: it is the last
   * `#EXTINF` line there, with the URL line after it, whose `/watch/` token
   * decodes to the playlist entry's upstream URL.
   */
  lemma ReplacementFromChannels(lines: seq<string>, valid: set<string>, channels: seq<string>, k: nat)
    requires k < |lines| && IsStep(lines, valid, MapOf(channels), k)
    ensures Swaps(lines, valid, MapOf(channels), k) ==>
      var out, original := Rewrite(lines, valid, MapOf(channels)), OriginalOf(lines[k + 1]);
      |out| == |lines| &&
      exists c :: (LastKey(Pairs(channels), c, original) && c + 1 < |channels|
        && out[k] == channels[c] && out[k + 1] == channels[c + 1]
        && StartsWith(channels[c], ExtinfMarker) && Contains(channels[c + 1], WatchSegment))
  {
    var pm := MapOf(channels);
    if Swaps(lines, valid, pm, k) {
      var original := OriginalOf(lines[k + 1]);
      RewriteLines(lines, valid, pm, k);
      var out := Rewrite(lines, valid, pm);
      StoredPair(channels, original, out[k], out[k + 1]);
    }
  }

  /** The loop keeps line `i`. */
  lemma RewriteFromKeep(lines: seq<string>, valid: set<string>, pm: map<string, Entry>, i: nat)
    requires i < |lines| && !Swaps(lines, valid, pm, i)
    ensures RewriteFrom(lines, valid, pm, i) == [lines[i]] + RewriteFrom(lines, valid, pm, i + 1)
  {
  }

  /** The loop replaces lines `i` and `i + 1`. */
  lemma RewriteFromSwap(lines: seq<string>, valid: set<string>, pm: map<string, Entry>, i: nat)
    requires Swaps(lines, valid, pm, i)
    ensures RewriteFrom(lines, valid, pm, i) ==
      [pm[OriginalOf(lines[i + 1])].extinf, pm[OriginalOf(lines[i + 1])].proxyUrl] + RewriteFrom(lines, valid, pm, i + 2)
  {
  }

  /**
   * The `while` loop at all_channels/main.py:140-158, after `build_proxy_map`
   * on the channel file: the playlist rewritten against the valid URLs.
   */
  method Assemble(playlist: seq<string>, valid: set<string>, channels: seq<string>) returns (out: seq<string>)
    ensures out == Rewrite(playlist, valid, MapOf(channels))
  {
    var proxyMap := BuildProxyMap(channels);
    out := [];
    var lines := playlist;
    var i := 0;
    while i < |lines|
      invariant 0 <= i <= |lines|
      invariant out + RewriteFrom(lines, valid, proxyMap, i) == Rewrite(lines, valid, proxyMap)
      decreases |lines| - i
    {
      var line := lines[i];
      if StartsWith(line, ExtinfMarker) && i + 1 < |lines| {
        var originalUrl := OriginalOf(lines[i + 1]);
        if originalUrl in valid && originalUrl in proxyMap {
          var entry := proxyMap[originalUrl];
          RewriteFromSwap(lines, valid, proxyMap, i);
          assert out + [entry.extinf] + [entry.proxyUrl] + RewriteFrom(lines, valid, proxyMap, i + 2)
              == out + RewriteFrom(lines, valid, proxyMap, i);
          out := out + [entry.extinf];
          out := out + [entry.proxyUrl];
          i := i + 2;
          continue;
        }
      }
      RewriteFromKeep(lines, valid, proxyMap, i);
      assert out + [line] + RewriteFrom(lines, valid, proxyMap, i + 1) == out + RewriteFrom(lines, valid, proxyMap, i);
      out := out + [line];
      i := i + 1;
    }
  }
}
