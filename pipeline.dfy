/**
 * The script's entry point (all_channels/main.py:164-170) after the channel
 * file has been fetched: validate the playlist's premium links, then rewrite
 * the playlist against the links that were found live.
 */
module Pipeline {
  import opened Wrappers
  import Extract
  import Candidates
  import Probe
  import Validate
  import ProxyMap
  import Assemble

  /** The set of URLs `assemble` reads back from the links file `validate_links` wrote. */
  function LinkSet(valid: seq<string>): (links: set<string>)
    ensures forall u :: u in links <==> u in valid
  {
    set u | u in valid
  }

  /** The links file read back is the same set whatever order the identifiers were enumerated in. */
  lemma LinkSetIsLiveLinks(order: seq<string>, ids: set<string>, net: string -> nat -> Probe.Reply)
    requires Validate.Enumerates(order, ids)
    ensures LinkSet(Validate.FilterLive(Candidates.Candidates(order), net)) == Validate.LiveLinks(ids, net)
  {
    var links := LinkSet(Validate.FilterLive(Candidates.Candidates(order), net));
    forall u ensures u in links <==> u in Validate.LiveLinks(ids, net) {
      Validate.FilterLiveIsLiveLinks(order, ids, net, u);
    }
  }

  /**
   * Both stages in order. The run stops with the validation error exactly
   * when the playlist yields no premium identifier; otherwise the output is
   * the playlist rewritten against the live candidates of the enumeration
   * the run used, which are the live links of the identifier set, so the
   * output does not depend on that enumeration.
   */
  method Run(playlist: seq<string>, channels: seq<string>, net: string -> nat -> Probe.Reply)
    returns (r: Result<seq<string>, Validate.Fatal>)
    ensures r.Err? <==> Extract.IdsOf(Extract.UrlsOf(playlist)) == {}
    ensures r.Ok? ==> exists order ::
      Validate.Enumerates(order, Extract.IdsOf(Extract.UrlsOf(playlist)))
      && r.value == Assemble.Rewrite(playlist, LinkSet(Validate.FilterLive(Candidates.Candidates(order), net)), ProxyMap.MapOf(channels))
    ensures r.Ok? ==>
      r.value == Assemble.Rewrite(playlist, Validate.LiveLinks(Extract.IdsOf(Extract.UrlsOf(playlist)), net), ProxyMap.MapOf(channels))
  {
    var validation := Validate.ValidateLinks(playlist, net);
    match validation
    case Err(e) =>
      r := Err(e);
    case Ok(v) =>
      LinkSetIsLiveLinks(v.order, v.ids, net);
      var out := Assemble.Assemble(playlist, LinkSet(v.valid), channels);
      r := Ok(out);
  }

  /** When no candidate is live, the links file is empty and the playlist comes out unchanged. */
  lemma NothingLiveKeepsPlaylist(playlist: seq<string>, valid: seq<string>, proxyMap: map<string, ProxyMap.Entry>)
    requires valid == []
    ensures Assemble.Rewrite(playlist, LinkSet(valid), proxyMap) == playlist
  {
    assert LinkSet(valid) == {};
    Assemble.RewriteNothing(playlist, {}, proxyMap, 0);
  }
}
