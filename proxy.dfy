/**
 * Proxy URLs wrap an upstream stream URL: the upstream URL, base 64 encoded,
 * follows the `/watch/` path segment and is followed by `.m3u8`
 * (all_channels/main.py:17). This module cuts the token out of a line and
 * recovers the upstream URL from it.
 */
module Proxy {
  import opened Wrappers
  import opened Text
  import Base64
  import Utf8

  const ProxyPrefix := "https://josh9456-myproxy.hf.space/watch/"
  const WatchSegment := "/watch/"
  const PlaylistSuffix := ".m3u8"

  /** `base64.b64decode(token).decode().strip()`; `None` where Python raises. */
  function DecodeOriginal(token: string): (r: Option<string>)
    ensures r.Some? ==> IsTrimmed(r.value)
  {
    match Base64.Decode(token)
    case None => None
    case Some(bytes) =>
      match Utf8.Decode(bytes)
      case None => None
      case Some(text) => Some(Strip(text))
  }

  /**
   * `line[len(PROXY_PREFIX):].split('.m3u8')[0]`: the text right after the
   * prefix, up to the first `.m3u8` after it or the end of the line.
   */
  function PrefixToken(line: string): (token: string)
    requires StartsWith(line, ProxyPrefix)
    ensures |ProxyPrefix| + |token| <= |line| && token == line[|ProxyPrefix|..|ProxyPrefix| + |token|]
    ensures forall j :: !OccursAt(token, PlaylistSuffix, j)
    ensures NextIn(line, PlaylistSuffix, |ProxyPrefix|, |line|, |ProxyPrefix| + |token|)
  {
    var token := BeforeFirst(line[|ProxyPrefix|..], PlaylistSuffix);
    PieceAfter(line, PlaylistSuffix, |ProxyPrefix|, token);
    token
  }

  /**
   * `token` is what `url.split('/watch/')[1].split('.m3u8')[0]` cuts out when
   * the first `/watch/` begins at `k` and the next one found after it begins
   * at `e` (or `e` is the end of `url`): the text after that first `/watch/`,
   * up to the first `.m3u8` before `e`, or up to `e`.
   */
  predicate WatchTokenAt(url: string, k: int, e: int, token: string) {
    FirstAt(url, WatchSegment, k) && NextIn(url, WatchSegment, k + |WatchSegment|, |url|, e)
    && k + |WatchSegment| + |token| <= e
    && token == url[k + |WatchSegment|..k + |WatchSegment| + |token|]
    && NextIn(url, PlaylistSuffix, k + |WatchSegment|, e, k + |WatchSegment| + |token|)
  }

  /** `url.split('/watch/')[1].split('.m3u8')[0]`: the token between the first `/watch/` and the next `/watch/` or `.m3u8`. */
  function WatchToken(url: string): (token: string)
    requires Contains(url, WatchSegment)
    ensures forall j :: !OccursAt(token, WatchSegment, j) && !OccursAt(token, PlaylistSuffix, j)
    ensures exists k, e :: WatchTokenAt(url, k, e, token)
  {
    var piece := SecondPiece(url, WatchSegment);
    var token := BeforeFirst(piece, PlaylistSuffix);
    assert forall j :: OccursAt(token, WatchSegment, j) ==> OccursAt(piece, WatchSegment, j) by {
      forall j | OccursAt(token, WatchSegment, j) ensures OccursAt(piece, WatchSegment, j) {
        assert piece[j..j + |WatchSegment|] == token[j..j + |WatchSegment|];
      }
    }
    WatchTokenOfPiece(url, piece);
    token
  }

  /** The token cut from the second piece sits where `WatchTokenAt` says. */
  lemma WatchTokenOfPiece(url: string, piece: string)
    requires Contains(url, WatchSegment) && piece == SecondPiece(url, WatchSegment)
    ensures exists k, e :: WatchTokenAt(url, k, e, BeforeFirst(piece, PlaylistSuffix))
  {
    var k :| SecondPieceAt(url, WatchSegment, k, piece);
    WatchTokenAtPiece(url, k, piece, BeforeFirst(piece, PlaylistSuffix));
  }

  /** Cutting the token out of the second piece that starts after the `/watch/` at `k`. */
  lemma WatchTokenAtPiece(url: string, k: int, piece: string, token: string)
    requires SecondPieceAt(url, WatchSegment, k, piece) && token == BeforeFirst(piece, PlaylistSuffix)
    ensures WatchTokenAt(url, k, k + |WatchSegment| + |piece|, token)
  {
    var a := k + |WatchSegment|;
    var e := a + |piece|;
    assert piece == url[a..e];
    assert NextIn(piece, PlaylistSuffix, 0, |piece|, |token|);
    NextInSlice(url, PlaylistSuffix, a, e, 0, |piece|, |token|);
    SubSlice(url, a, e, 0, |token|);
  }

  /** The proxy URL that wraps an upstream URL, as the proxy service builds it. */
  function Wrap(original: string): (line: string)
    requires Utf8.IsAscii(original)
  {
    ProxyPrefix + Base64.Encode(Utf8.AsciiBytes(original)) + PlaylistSuffix
  }

  /** No base 64 text contains `.m3u8`: `.` is not in the alphabet. */
  lemma NoSuffixInBase64(enc: string)
    requires forall i :: 0 <= i < |enc| ==> Base64.InAlphabet(enc[i])
    ensures forall j :: !OccursAt(enc + PlaylistSuffix, PlaylistSuffix, j) || j == |enc|
  {
    var rest := enc + PlaylistSuffix;
    forall j | 0 <= j < |enc| ensures !OccursAt(rest, PlaylistSuffix, j) {
      assert rest[j] == enc[j];
    }
  }

  /**
   * Unwrapping inverts wrapping: for an ASCII upstream URL without surrounding
   * whitespace, the token cut from its proxy URL decodes back to it.
   */
  lemma UnwrapWrap(original: string)
    requires Utf8.IsAscii(original) && IsTrimmed(original)
    ensures StartsWith(Wrap(original), ProxyPrefix)
    ensures DecodeOriginal(PrefixToken(Wrap(original))) == Some(original)
  {
    var bytes := Utf8.AsciiBytes(original);
    var enc := Base64.Encode(bytes);
    var line := Wrap(original);
    assert line[..|ProxyPrefix|] == ProxyPrefix;
    assert line[|ProxyPrefix|..] == enc + PlaylistSuffix;
    NoSuffixInBase64(enc);
    var token := PrefixToken(line);
    assert OccursAt(enc + PlaylistSuffix, PlaylistSuffix, |enc|);
    assert |token| == |enc|;
    assert token == enc;
    Base64.DecodeEncode(bytes);
    Utf8.DecodeAscii(original);
    StripTrimmed(original);
  }

  /** Appending `.m3u8` to a text free of `/watch/` creates no `/watch/`. */
  lemma NoWatchAfterSuffix(enc: string)
    requires !Contains(enc, WatchSegment)
    ensures forall j :: !OccursAt(enc + PlaylistSuffix, WatchSegment, j)
  {
    var rest := enc + PlaylistSuffix;
    forall j | 0 <= j && j + |WatchSegment| <= |rest| ensures !OccursAt(rest, WatchSegment, j) {
      if j + |WatchSegment| <= |enc| {
        assert enc[j..j + |WatchSegment|] == rest[j..j + |WatchSegment|];
        assert !OccursAt(enc, WatchSegment, j);
      } else {
        assert rest[|enc|] == '.';
        assert rest[j..j + |WatchSegment|][|enc| - j] == '.';
      }
    }
  }

  /**
   * The offset into `/watch/`, placed at `p`, of a character that starts a
   * quantum: `/`, `t`, `/` or `h` for `p % 4` = 0, 1, 2, 3.
   */
  function LeadOffset(p: int): (off: int)
    ensures 0 <= off < |WatchSegment| && (p + off) % 4 == 0
    ensures !Base64.LowSextet(WatchSegment[off])
  {
    if p % 4 == 0 then 0 else if p % 4 == 1 then 3 else if p % 4 == 2 then 6 else 5
  }

  /** An occurrence of `/watch/` at `p` puts a character outside `A`-`f` at a quantum start. */
  lemma WatchBreaksLeads(enc: string, p: int)
    requires OccursAt(enc, WatchSegment, p)
    ensures p + LeadOffset(p) < |enc| && !Base64.LowSextet(enc[p + LeadOffset(p)])
  {
    WatchCharAt(enc, p, LeadOffset(p));
  }

  /** A character of an occurrence of `/watch/` at `p`. */
  lemma WatchCharAt(enc: string, p: int, off: int)
    requires OccursAt(enc, WatchSegment, p) && 0 <= off < |WatchSegment|
    ensures enc[p + off] == WatchSegment[off]
  {
    assert enc[p + off] == enc[p..p + |WatchSegment|][off];
  }

  /** Base 64 text whose quanta all start in `A`-`f` holds no `/watch/`. */
  lemma NoWatchInLowLeads(enc: string)
    requires forall i :: 0 <= i < |enc| && i % 4 == 0 ==> Base64.LowSextet(enc[i])
    ensures !Contains(enc, WatchSegment)
  {
    forall p | OccursAt(enc, WatchSegment, p) ensures false {
      WatchBreaksLeads(enc, p);
    }
  }

  /** The encoding of ASCII text never holds `/watch/`, although base 64 may contain `/`. */
  lemma NoWatchInAsciiBase64(original: string)
    requires Utf8.IsAscii(original)
    ensures !Contains(Base64.Encode(Utf8.AsciiBytes(original)), WatchSegment)
  {
    Base64.EncodeAsciiLeads(Utf8.AsciiBytes(original));
    NoWatchInLowLeads(Base64.Encode(Utf8.AsciiBytes(original)));
  }

  /**
   * The same for a channel-map URL: when the first `/watch/` is followed by
   * the encoded upstream URL and `.m3u8`, the token decodes back to the
   * upstream URL.
   */
  lemma UnwrapWatch(url: string, k: nat, original: string)
    requires Utf8.IsAscii(original) && IsTrimmed(original)
    requires Find(url, WatchSegment) == Some(k)
    requires url[k + |WatchSegment|..] == Base64.Encode(Utf8.AsciiBytes(original)) + PlaylistSuffix
    ensures DecodeOriginal(WatchToken(url)) == Some(original)
  {
    var bytes := Utf8.AsciiBytes(original);
    var enc := Base64.Encode(bytes);
    var rest := enc + PlaylistSuffix;
    NoWatchInAsciiBase64(original);
    assert AfterFirst(url, WatchSegment) == rest;
    NoWatchAfterSuffix(enc);
    assert SecondPiece(url, WatchSegment) == rest;
    NoSuffixInBase64(enc);
    assert OccursAt(rest, PlaylistSuffix, |enc|);
    assert WatchToken(url) == enc;
    Base64.DecodeEncode(bytes);
    Utf8.DecodeAscii(original);
    StripTrimmed(original);
  }
}
