/**
 * `validate_links` as a whole (all_channels/main.py:36-107) minus its file
 * I/O: extraction, candidate generation, probing every candidate in
 * candidate order, and collecting the URLs whose probe is live.
 */
module Validate {
  import opened Wrappers
  import Extract
  import Candidates
  import Probe

  /** Python truthiness of `check`'s result (`if res:`): a non-`None`, non-empty string. */
  predicate Truthy(res: Option<string>) {
    res.Some? && res.value != ""
  }

  /** `ex.map(check, candidates)`: one result per candidate, in candidate order; `net(u)` is the reply stream the probe of URL `u` sees. */
  function Results(candidates: seq<string>, net: string -> nat -> Probe.Reply): (results: seq<Option<string>>)
    ensures |results| == |candidates|
    ensures forall j :: 0 <= j < |candidates| ==> results[j] == Probe.Outcome(candidates[j], net(candidates[j]))
  {
    seq(|candidates|, j requires 0 <= j < |candidates| => Probe.Outcome(candidates[j], net(candidates[j])))
  }

  /** The values of the truthy results, in order: what `for res in ...: if res: valid.append(res)` builds. */
  function Keep(results: seq<Option<string>>): seq<string>
  {
    if results == [] then []
    else
      var n := |results| - 1;
      Keep(results[..n]) + (if Truthy(results[n]) then [results[n].value] else [])
  }

  /** The positions of the truthy results, in increasing order. */
  function TruthyIndices(results: seq<Option<string>>): seq<nat>
  {
    if results == [] then []
    else
      var n := |results| - 1;
      TruthyIndices(results[..n]) + (if Truthy(results[n]) then [n] else [])
  }

  /**
   * What is kept is exactly the subsequence of values picked out by the truthy
   * positions: those positions strictly increase, every truthy position is
   * among them, and so no more values are kept than there are results.
   */
  lemma {:induction false} KeepIsTruthySubsequence(results: seq<Option<string>>)
    ensures var kept, ix := Keep(results), TruthyIndices(results);
      |kept| == |ix| <= |results|
      && (forall k :: 0 <= k < |ix| ==> ix[k] < |results| && Truthy(results[ix[k]]) && kept[k] == results[ix[k]].value)
      && (forall k, l :: 0 <= k < l < |ix| ==> ix[k] < ix[l])
      && (forall j :: 0 <= j < |results| && Truthy(results[j]) ==> j in ix)
  {
    if results != [] {
      var n := |results| - 1;
      var init := results[..n];
      KeepIsTruthySubsequence(init);
      var kept, ix := Keep(results), TruthyIndices(results);
      var kept0, ix0 := Keep(init), TruthyIndices(init);
      assert forall j :: 0 <= j < n ==> results[j] == init[j];
      if Truthy(results[n]) {
        assert kept == kept0 + [results[n].value] && ix == ix0 + [n];
      } else {
        assert kept == kept0 && ix == ix0;
      }
      forall k | 0 <= k < |ix0|
        ensures ix[k] == ix0[k] < n && kept[k] == kept0[k]
      {
      }
      forall j | 0 <= j < |results| && Truthy(results[j])
        ensures j in ix
      {
        if j < n {
          assert j in ix0;
        } else {
          assert ix[|ix| - 1] == n;
        }
      }
    }
  }

  /** `valid`: the candidates whose `check` result is truthy, in candidate order. */
  function FilterLive(candidates: seq<string>, net: string -> nat -> Probe.Reply): seq<string> {
    Keep(Results(candidates, net))
  }

  /** Candidate `j` ends up in `valid`. */
  predicate Kept(candidates: seq<string>, net: string -> nat -> Probe.Reply, j: int)
    requires 0 <= j < |candidates|
  {
    Truthy(Probe.Outcome(candidates[j], net(candidates[j])))
  }

  /**
   * `valid` is exactly the subsequence of `candidates` picked out by the
   * positions whose `check` result is truthy: those positions strictly
   * increase, every such position is among them, and so `valid` is no longer
   * than `candidates`.
   */
  lemma FilterLiveIsLiveSubsequence(candidates: seq<string>, net: string -> nat -> Probe.Reply)
    ensures var valid, ix := FilterLive(candidates, net), TruthyIndices(Results(candidates, net));
      |valid| == |ix| <= |candidates|
      && (forall k :: 0 <= k < |ix| ==> ix[k] < |candidates| && Kept(candidates, net, ix[k]) && valid[k] == candidates[ix[k]])
      && (forall k, l :: 0 <= k < l < |ix| ==> ix[k] < ix[l])
      && (forall j :: 0 <= j < |candidates| && Kept(candidates, net, j) ==> j in ix)
  {
    KeepIsTruthySubsequence(Results(candidates, net));
  }

  /** A URL is in `valid` exactly when some candidate equal to it is kept. */
  lemma FilterLiveMembers(candidates: seq<string>, net: string -> nat -> Probe.Reply, u: string)
    ensures u in FilterLive(candidates, net) <==>
      exists j :: 0 <= j < |candidates| && candidates[j] == u && Kept(candidates, net, j)
  {
    FilterLiveIsLiveSubsequence(candidates, net);
    var valid, ix := FilterLive(candidates, net), TruthyIndices(Results(candidates, net));
    if u in valid {
      var k :| 0 <= k < |valid| && valid[k] == u;
      assert candidates[ix[k]] == u;
    }
    if exists j :: 0 <= j < |candidates| && candidates[j] == u && Kept(candidates, net, j) {
      var j :| 0 <= j < |candidates| && candidates[j] == u && Kept(candidates, net, j);
      var k :| 0 <= k < |ix| && ix[k] == j;
      assert valid[k] == u;
    }
  }

  /** One more result extends what is kept by its value exactly when it is truthy. */
  lemma KeepStep(results: seq<Option<string>>, n: nat)
    requires n < |results|
    ensures Keep(results[..n + 1]) == Keep(results[..n]) + (if Truthy(results[n]) then [results[n].value] else [])
  {
    assert results[..n + 1][..n] == results[..n];
  }

  /** The aggregation loop (all_channels/main.py:100-103), run in candidate order as `ex.map` returns results. */
  method CollectValid(candidates: seq<string>, net: string -> nat -> Probe.Reply) returns (valid: seq<string>)
    ensures valid == FilterLive(candidates, net)
  {
    ghost var results := Results(candidates, net);
    valid := [];
    for j := 0 to |candidates|
      invariant valid == Keep(results[..j])
    {
      var res, _, _ := Probe.Check(candidates[j], net(candidates[j]));
      assert res == results[j];
      KeepStep(results, j);
      if res.Some? && res.value != "" {
        valid := valid + [res.value];
      }
    }
    assert results[..|candidates|] == results;
  }

  /** `order` lists every element of `s` once: an iteration order of the set. */
  ghost predicate Enumerates(order: seq<string>, s: set<string>) {
    |order| == |s|
    && (forall x :: x in order <==> x in s)
    && (forall i, j :: 0 <= i < j < |order| ==> order[i] != order[j])
  }

  /** Iterating a set: Python leaves the order to the set's hashing, so any order may come out. */
  method Enumerate(s: set<string>) returns (order: seq<string>)
    ensures Enumerates(order, s)
  {
    order := [];
    var rest := s;
    while rest != {}
      invariant rest <= s
      invariant |order| + |rest| == |s|
      invariant forall x :: x in order <==> x in s - rest
      invariant forall i, j :: 0 <= i < j < |order| ==> order[i] != order[j]
      decreases |rest|
    {
      var x :| x in rest;
      assert x !in order;
      order := order + [x];
      rest := rest - {x};
    }
  }

  /** The fatal error of `validate_links`: `sys.exit(1)` when no identifier was found. */
  datatype Fatal = NoPremiumIds

  /** What a successful run computes, in the order the source computes it. */
  datatype Validation = Validation(ids: set<string>, order: seq<string>, candidates: seq<string>, valid: seq<string>)

  /**
   * `validate_links` on the playlist lines, with `net(u)` the replies seen by
   * the probe of URL `u`. It fails exactly when no identifier is
   * extracted; otherwise it probes every (identifier, template) pair and keeps
   * the live ones in candidate order.
   */
  method ValidateLinks(lines: seq<string>, net: string -> nat -> Probe.Reply) returns (r: Result<Validation, Fatal>)
    ensures r.Err? <==> Extract.IdsOf(Extract.UrlsOf(lines)) == {}
    ensures r.Ok? ==>
      var v := r.value;
      v.ids == Extract.IdsOf(Extract.UrlsOf(lines))
      && Enumerates(v.order, v.ids)
      && v.candidates == Candidates.Candidates(v.order)
      && v.valid == FilterLive(v.candidates, net)
  {
    var decodedUrls := Extract.CollectUrls(lines);
    var ids := Extract.ExtractIds(decodedUrls);
    if ids == {} {
      return Err(NoPremiumIds);
    }
    var order := Enumerate(ids);
    var candidates := Candidates.Candidates(order);
    var valid := CollectValid(candidates, net);
    r := Ok(Validation(ids, order, candidates, valid));
  }

  /** Five candidates per identifier: `len(candidates) == len(ids) * 5`. */
  lemma CandidateCount(order: seq<string>, ids: set<string>)
    requires Enumerates(order, ids)
    ensures |Candidates.Candidates(order)| == |ids| * 5
  {
    Candidates.CandidatesLayout(order);
  }

  /** Candidates are never empty strings, so `if res:` keeps exactly the live ones. */
  lemma KeptIsLive(order: seq<string>, net: string -> nat -> Probe.Reply, j: int)
    requires 0 <= j < |Candidates.Candidates(order)|
    ensures Kept(Candidates.Candidates(order), net, j) <==> Probe.Probe(net(Candidates.Candidates(order)[j])).verdict == Probe.Live
  {
    Candidates.CandidatesNonEmpty(order);
  }

  /**
   * The URLs found live for an identifier set: every template filled with
   * every identifier whose own probe is live. Nothing here depends on the
   * order in which the set is iterated.
   */
  function LiveLinks(ids: set<string>, net: string -> nat -> Probe.Reply): set<string> {
    LiveFilled(ids, Candidates.Templates, net)
  }

  /** The fillings of templates `ts` with identifiers of `ids` whose probe is live. */
  function LiveFilled(ids: set<string>, ts: seq<Candidates.Template>, net: string -> nat -> Probe.Reply): set<string> {
    set id, b | id in ids && 0 <= b < |ts| && Probe.Probe(net(Candidates.Format(ts[b], id))).verdict == Probe.Live
      :: Candidates.Format(ts[b], id)
  }

  /** `c` lists template `b` of five filled with identifier `a` at position `a * 5 + b`. */
  ghost predicate Grid(c: seq<string>, order: seq<string>, ts: seq<Candidates.Template>) {
    |ts| == 5 && |c| == |order| * 5
    && forall a, b :: 0 <= a < |order| && 0 <= b < 5 ==> c[a * 5 + b] == Candidates.Format(ts[b], order[a])
  }

  /** A URL occurs in a grid of five templates exactly when it is one of its fillings. */
  lemma GridMembers(c: seq<string>, order: seq<string>, ts: seq<Candidates.Template>, u: string)
    requires Grid(c, order, ts)
    ensures (exists j :: 0 <= j < |c| && c[j] == u) <==>
      exists a, b :: 0 <= a < |order| && 0 <= b < |ts| && u == Candidates.Format(ts[b], order[a])
  {
    if exists j :: 0 <= j < |c| && c[j] == u {
      var j :| 0 <= j < |c| && c[j] == u;
      var a, b := j / 5, j % 5;
      assert j == a * 5 + b;
      assert 0 <= a < |order|;
      assert u == Candidates.Format(ts[b], order[a]);
    }
    if exists a, b :: 0 <= a < |order| && 0 <= b < |ts| && u == Candidates.Format(ts[b], order[a]) {
      var a, b :| 0 <= a < |order| && 0 <= b < |ts| && u == Candidates.Format(ts[b], order[a]);
      assert a * 5 + b < |order| * 5;
      assert c[a * 5 + b] == u;
    }
  }

  /** With no empty candidate, a URL is kept exactly when it is a candidate and its probe is live. */
  lemma KeptMembers(c: seq<string>, net: string -> nat -> Probe.Reply, u: string)
    requires forall j :: 0 <= j < |c| ==> |c[j]| > 0
    ensures u in FilterLive(c, net) <==>
      (exists j :: 0 <= j < |c| && c[j] == u) && Probe.Probe(net(u)).verdict == Probe.Live
  {
    FilterLiveMembers(c, net, u);
  }

  /** The candidate list is laid out as a grid of the five templates. */
  lemma CandidatesGrid(order: seq<string>)
    ensures Grid(Candidates.Candidates(order), order, Candidates.Templates)
  {
    Candidates.CandidatesLayout(order);
  }

  /**
   * A URL is in `valid` exactly when it is some template filled with some
   * identifier of the iteration order, and its probe is live.
   */
  lemma LiveMembers(order: seq<string>, net: string -> nat -> Probe.Reply, u: string)
    ensures u in FilterLive(Candidates.Candidates(order), net) <==>
      (exists a, b :: 0 <= a < |order| && 0 <= b < |Candidates.Templates|
        && u == Candidates.Format(Candidates.Templates[b], order[a]))
      && Probe.Probe(net(u)).verdict == Probe.Live
  {
    var c := Candidates.Candidates(order);
    Candidates.CandidatesNonEmpty(order);
    KeptMembers(c, net, u);
    CandidatesGrid(order);
    GridMembers(c, order, Candidates.Templates, u);
  }

  /** The fillings of an iteration order are the fillings of the set it enumerates. */
  lemma FilledOfOrder(order: seq<string>, ids: set<string>, ts: seq<Candidates.Template>, net: string -> nat -> Probe.Reply, u: string)
    requires Enumerates(order, ids)
    ensures u in LiveFilled(ids, ts, net) <==>
      (exists a, b :: 0 <= a < |order| && 0 <= b < |ts| && u == Candidates.Format(ts[b], order[a]))
      && Probe.Probe(net(u)).verdict == Probe.Live
  {
    if u in LiveFilled(ids, ts, net) {
      var id, b :| id in ids && 0 <= b < |ts| && u == Candidates.Format(ts[b], id);
      var a :| 0 <= a < |order| && order[a] == id;
      assert 0 <= a < |order| && 0 <= b < |ts| && u == Candidates.Format(ts[b], order[a]);
    }
    if exists a, b :: 0 <= a < |order| && 0 <= b < |ts| && u == Candidates.Format(ts[b], order[a]) {
      var a, b :| 0 <= a < |order| && 0 <= b < |ts| && u == Candidates.Format(ts[b], order[a]);
      assert order[a] in ids;
    }
  }

  /** Whatever order the identifier set is iterated in, the URLs kept are the same set. */
  lemma FilterLiveIsLiveLinks(order: seq<string>, ids: set<string>, net: string -> nat -> Probe.Reply, u: string)
    requires Enumerates(order, ids)
    ensures u in FilterLive(Candidates.Candidates(order), net) <==> u in LiveLinks(ids, net)
  {
    LiveMembers(order, net, u);
    FilledOfOrder(order, ids, Candidates.Templates, net, u);
  }
}
