/**
 * `build_proxy_map` (all_channels/main.py:110-128): from the channel file's
 * `#EXTINF` / URL line pairs, a map from each decoded upstream URL to the
 * pair of lines that plays it through the proxy.
 */
module ProxyMap {
  import opened Wrappers
  import opened Text
  import opened Proxy

  const ExtinfMarker := "#EXTINF"

  /** The metadata line and the proxy URL line stored for one channel: `(ext, url)`. */
  datatype Entry = Entry(extinf: string, proxyUrl: string)

  /** One decodable line pair: the upstream URL it plays and its entry. */
  datatype Pair = Pair(original: string, entry: Entry)

  /** The entry that line `i` contributes: the decoded upstream URL and the line pair, if any. */
  function PairAt(lines: seq<string>, i: int): (r: Option<Pair>)
    requires 0 <= i < |lines|
    ensures r.Some? <==>
      i + 1 < |lines| && StartsWith(lines[i], ExtinfMarker) && Contains(lines[i + 1], WatchSegment)
      && DecodeOriginal(WatchToken(lines[i + 1])).Some?
    ensures r.Some? ==>
      i + 1 < |lines| && Contains(lines[i + 1], WatchSegment)
      && r.value.entry == Entry(lines[i], lines[i + 1])
      && DecodeOriginal(WatchToken(lines[i + 1])) == Some(r.value.original)
  {
    if StartsWith(lines[i], ExtinfMarker) && i + 1 < |lines| && Contains(lines[i + 1], WatchSegment) then
      match DecodeOriginal(WatchToken(lines[i + 1]))
      case None => None
      case Some(orig) => Some(Pair(orig, Entry(lines[i], lines[i + 1])))
    else None
  }

  /** What each line contributes, in file order. */
  function Pairs(lines: seq<string>): (ps: seq<Option<Pair>>)
    ensures |ps| == |lines|
    ensures forall i :: 0 <= i < |lines| ==> ps[i] == PairAt(lines, i)
  {
    seq(|lines|, i requires 0 <= i < |lines| => PairAt(lines, i))
  }

  /** The map after inserting the pairs `ps` in order; later pairs overwrite earlier ones. */
  function Insert(ps: seq<Option<Pair>>): map<string, Entry> {
    if ps == [] then map[]
    else
      var m := Insert(ps[..|ps| - 1]);
      match ps[|ps| - 1]
      case None => m
      case Some(pair) => m[pair.original := pair.entry]
  }

  /** `build_proxy_map`'s result for the channel file's lines. */
  function MapOf(lines: seq<string>): map<string, Entry> {
    Insert(Pairs(lines))
  }

  /** Position `i` of `ps` is a pair whose upstream URL is `key`. */
  predicate HasKey(ps: seq<Option<Pair>>, i: int, key: string) {
    0 <= i < |ps| && ps[i].Some? && ps[i].value.original == key
  }

  /** Position `i` is the last pair in `ps` whose upstream URL is `key`. */
  predicate LastKey(ps: seq<Option<Pair>>, i: int, key: string) {
    HasKey(ps, i, key) && forall j :: i < j < |ps| ==> !HasKey(ps, j, key)
  }

  /** A key is in the map exactly when some pair has it. */
  lemma {:induction false} InsertKeys(ps: seq<Option<Pair>>, key: string)
    ensures key in Insert(ps) <==> exists i :: HasKey(ps, i, key)
  {
    if ps != [] {
      var n := |ps|;
      var init := ps[..n - 1];
      InsertKeys(init, key);
      InsertSnoc(ps, n - 1);
      assert ps[..n] == ps;
      if exists i :: HasKey(ps, i, key) {
        var i :| HasKey(ps, i, key);
        if i < n - 1 {
          assert HasKey(init, i, key);
        }
      }
      if exists i :: HasKey(init, i, key) {
        var i :| HasKey(init, i, key);
        assert HasKey(ps, i, key);
      }
      if ps[n - 1].Some? && ps[n - 1].value.original == key {
        assert HasKey(ps, n - 1, key);
      }
    }
  }

  /** A key's entry is the entry of the LAST pair that has the key. */
  lemma {:induction false} InsertLastWins(ps: seq<Option<Pair>>, key: string)
    requires key in Insert(ps)
    ensures exists i :: LastKey(ps, i, key) && ps[i].value.entry == Insert(ps)[key]
  {
    var n := |ps|;
    var init := ps[..n - 1];
    InsertSnoc(ps, n - 1);
    assert ps[..n] == ps;
    if HasKey(ps, n - 1, key) {
      assert LastKey(ps, n - 1, key);
    } else {
      InsertLastWins(init, key);
      var i :| LastKey(init, i, key) && init[i].value.entry == Insert(init)[key];
      forall j | i < j < n ensures !HasKey(ps, j, key) {
        if j < n - 1 {
          assert !HasKey(init, j, key);
        }
      }
      assert LastKey(ps, i, key);
    }
  }

  /**
   * A key is in the map exactly when some pair has it, and its entry is the
   * entry of the LAST such pair.
   */
  lemma InsertEntries(ps: seq<Option<Pair>>, key: string)
    ensures key in Insert(ps) <==> exists i :: HasKey(ps, i, key)
    ensures key in Insert(ps) ==> exists i :: LastKey(ps, i, key) && ps[i].value.entry == Insert(ps)[key]
  {
    InsertKeys(ps, key);
    if key in Insert(ps) {
      InsertLastWins(ps, key);
    }
  }

  /**
   * The entries of the whole channel file: a key is present exactly when some
   * `#EXTINF` line and its following `/watch/` URL decode to it, and the stored
   * entry is that line pair for the LAST such occurrence.
   */
  lemma MapEntries(lines: seq<string>, key: string)
    ensures key in MapOf(lines) <==> exists i :: HasKey(Pairs(lines), i, key)
    ensures key in MapOf(lines) ==>
      exists i :: LastKey(Pairs(lines), i, key) && i + 1 < |lines|
        && MapOf(lines)[key] == Entry(lines[i], lines[i + 1])
        && StartsWith(lines[i], ExtinfMarker) && Contains(lines[i + 1], WatchSegment)
  {
    var ps := Pairs(lines);
    InsertEntries(ps, key);
    if key in MapOf(lines) {
      var i :| LastKey(ps, i, key) && ps[i].value.entry == MapOf(lines)[key];
      assert ps[i] == PairAt(lines, i);
    }
  }

  /** The two lines stored under `key` are a line pair of the channel file. */
  lemma StoredPair(lines: seq<string>, key: string, ext: string, url: string)
    requires key in MapOf(lines) && MapOf(lines)[key] == Entry(ext, url)
    ensures exists c :: (LastKey(Pairs(lines), c, key) && c + 1 < |lines| && ext == lines[c] && url == lines[c + 1]
      && StartsWith(ext, ExtinfMarker) && Contains(url, WatchSegment))
  {
    MapEntries(lines, key);
  }

  /** One more pair inserted. */
  lemma InsertSnoc(ps: seq<Option<Pair>>, i: int)
    requires 0 <= i < |ps|
    ensures Insert(ps[..i + 1]) ==
      if ps[i].Some? then Insert(ps[..i])[ps[i].value.original := ps[i].value.entry] else Insert(ps[..i])
  {
    assert ps[..i + 1][..i] == ps[..i];
  }

  /** The indexed loop at all_channels/main.py:116-126. */
  method BuildProxyMap(lines: seq<string>) returns (proxyMap: map<string, Entry>)
    ensures proxyMap == MapOf(lines)
  {
    proxyMap := map[];
    for i := 0 to |lines|
      invariant proxyMap == Insert(Pairs(lines)[..i])
    {
      InsertSnoc(Pairs(lines), i);
      var line := lines[i];
      if StartsWith(line, ExtinfMarker) && i + 1 < |lines| {
        var ext := line;
        var url := lines[i + 1];
        if Contains(url, WatchSegment) {
          var b64 := WatchToken(url);
          var orig := DecodeOriginal(b64);
          if orig.Some? {
            assert PairAt(lines, i) == Some(Pair(orig.value, Entry(ext, url)));
            proxyMap := proxyMap[orig.value := Entry(ext, url)];
          } else {
            assert PairAt(lines, i) == None;
          }
        } else {
          assert PairAt(lines, i) == None;
        }
      } else {
        assert PairAt(lines, i) == None;
      }
    }
    assert Pairs(lines)[..|lines|] == Pairs(lines);
  }
}
