/**
 * Identifier extraction, the first half of `validate_links`
 * (all_channels/main.py:41-64): every playlist line contributes at most one
 * URL to `decoded_urls`, and the digits the `premium` pattern captures in
 * those URLs form the set of channel identifiers.
 */
module Extract {
  import opened Wrappers
  import opened Text
  import opened Proxy
  import Premium

  /**
   * What one raw playlist line adds to `decoded_urls`: the decoded upstream URL
   * of a proxy line (nothing when its token does not decode), the stripped line
   * itself when it contains the pattern directly, and nothing otherwise.
   */
  function LineUrl(raw: string): (r: Option<string>)
    ensures r.Some? ==> IsTrimmed(r.value)
    ensures StartsWith(Strip(raw), ProxyPrefix) ==> r == DecodeOriginal(PrefixToken(Strip(raw)))
    ensures !StartsWith(Strip(raw), ProxyPrefix) ==>
      (r.Some? <==> Premium.Search(Strip(raw)).Some?) && (r.Some? ==> r.value == Strip(raw))
  {
    var line := Strip(raw);
    if StartsWith(line, ProxyPrefix) then DecodeOriginal(PrefixToken(line))
    else if Premium.Search(line).Some? then Some(line)
    else None
  }

  /** The values `f` yields on the elements of `xs`, gathered into a set. */
  function Gather(f: string -> Option<string>, xs: seq<string>): set<string>
  {
    if xs == [] then {}
    else
      var before := Gather(f, xs[..|xs| - 1]);
      match f(xs[|xs| - 1])
      case None => before
      case Some(u) => before + {u}
  }

  /** A value is gathered exactly when `f` yields it on some element. */
  lemma {:induction false} GatherMembers(f: string -> Option<string>, xs: seq<string>, u: string)
    ensures u in Gather(f, xs) <==> exists i :: 0 <= i < |xs| && f(xs[i]) == Some(u)
  {
    if xs != [] {
      var n := |xs| - 1;
      var init := xs[..n];
      GatherMembers(f, init, u);
      if u in Gather(f, init) {
        var i :| 0 <= i < n && f(init[i]) == Some(u);
        assert xs[i] == init[i];
      }
      if exists i :: 0 <= i < |xs| && f(xs[i]) == Some(u) {
        var i :| 0 <= i < |xs| && f(xs[i]) == Some(u);
        if i < n { assert init[i] == xs[i]; }
      }
    }
  }

  /** The set `decoded_urls` once every line of `lines` has been read. */
  function UrlsOf(lines: seq<string>): set<string>
  {
    Gather(LineUrl, lines)
  }

  /** Line `i` of `lines` contributes the URL `u`. */
  predicate Contributes(lines: seq<string>, i: int, u: string) {
    0 <= i < |lines| && LineUrl(lines[i]) == Some(u)
  }

  /** A URL is collected exactly when some line contributes it; lines that contribute nothing leave no trace. */
  lemma UrlsOfMembers(lines: seq<string>, u: string)
    ensures u in UrlsOf(lines) <==> exists i :: Contributes(lines, i, u)
  {
    GatherMembers(LineUrl, lines, u);
    if u in UrlsOf(lines) {
      var i :| 0 <= i < |lines| && LineUrl(lines[i]) == Some(u);
      assert Contributes(lines, i, u);
    }
    if exists i :: Contributes(lines, i, u) {
      var i :| Contributes(lines, i, u);
      assert LineUrl(lines[i]) == Some(u);
    }
  }

  /** The loop at all_channels/main.py:43-54, filling `decoded_urls` line by line. */
  method CollectUrls(lines: seq<string>) returns (decodedUrls: set<string>)
    ensures decodedUrls == UrlsOf(lines)
  {
    decodedUrls := {};
    for n := 0 to |lines|
      invariant decodedUrls == UrlsOf(lines[..n])
    {
      assert lines[..n + 1][..n] == lines[..n];
      var line := Strip(lines[n]);
      if StartsWith(line, ProxyPrefix) {
        var b64 := PrefixToken(line);
        var decoded := DecodeOriginal(b64);
        if decoded.Some? {
          decodedUrls := decodedUrls + {decoded.value};
        }
      } else if Premium.Search(line).Some? {
        decodedUrls := decodedUrls + {line};
      }
    }
    assert lines[..|lines|] == lines;
  }

  /** The identifier set: group 1 of the pattern's match in every collected URL that has one. */
  function IdsOf(urls: set<string>): (ids: set<string>)
    ensures forall id :: id in ids ==> Premium.IsDigits(id)
    ensures forall id :: id in ids <==> exists u :: u in urls && Premium.Search(u) == Some(id)
  {
    set u | u in urls && Premium.Search(u).Some? :: Premium.Search(u).value
  }

  /** The loop at all_channels/main.py:56-60, filling `ids` from `decoded_urls`. */
  method ExtractIds(urls: set<string>) returns (ids: set<string>)
    ensures ids == IdsOf(urls)
  {
    ids := {};
    var rest := urls;
    while rest != {}
      invariant rest <= urls
      invariant ids == IdsOf(urls - rest)
      decreases |rest|
    {
      var url :| url in rest;
      var m := Premium.Search(url);
      if m.Some? {
        ids := ids + {m.value};
      }
      assert urls - (rest - {url}) == (urls - rest) + {url};
      rest := rest - {url};
    }
  }

  /**
   * Every identifier is a non-empty digit string captured from the URL that
   * some playlist line contributed, and every such capture is an identifier.
   */
  lemma IdsFromLines(lines: seq<string>, id: string)
    ensures id in IdsOf(UrlsOf(lines)) ==> Premium.IsDigits(id)
    ensures id in IdsOf(UrlsOf(lines)) <==>
      exists i, u :: Contributes(lines, i, u) && Premium.Search(u) == Some(id)
  {
    if id in IdsOf(UrlsOf(lines)) {
      var u :| u in UrlsOf(lines) && Premium.Search(u) == Some(id);
      UrlsOfMembers(lines, u);
    }
    if exists i, u :: Contributes(lines, i, u) && Premium.Search(u) == Some(id) {
      var i, u :| Contributes(lines, i, u) && Premium.Search(u) == Some(id);
      UrlsOfMembers(lines, u);
    }
  }
}
