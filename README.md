# IPTV-m3u playlist refresher, modelled in Dafny

`all_channels/main.py` keeps an IPTV playlist (`tivimate_playlist.m3u8`)
pointing at working streams. It runs in four stages:

1. It fetches a channel file (`channels.m3u8`) from a proxy service.
2. `validate_links` reads the playlist and collects one URL per relevant line.
   For a proxy line (`https://josh9456-myproxy.hf.space/watch/<base64>.m3u8`)
   that URL is the decoded upstream URL. For a line containing
   `premium<digits>/mono.m3u8` it is the stripped line itself.
3. The channel identifiers are the digits captured by that pattern. Each one is
   put into five mirror templates. Every candidate is probed with up to five
   HEAD/GET attempts, and the live ones are written to `links.m3u8`.
4. `assemble` rewrites the playlist. Each `#EXTINF` entry whose upstream URL
   is among the live links and has an entry in the channel file's proxy map
   (`build_proxy_map`) is replaced by the channel file's `#EXTINF` line and
   proxy URL line.

The model covers stages 2 to 4, split into these modules:

- **Text** (`text.dfy`): Python's `str.strip` with the exact `isspace` set,
  `startswith`, `in`, and `split(sep)[0]` / `split(sep)[1]`.
- **Base64** (`base64.dfy`): a strict RFC 4648 base64 decoder and the matching
  encoder.
- **Utf8** (`utf8.dfy`): a strict UTF-8 decoder.
- **Premium** (`premium.dfy`): the `premium(\d+)/mono\.m3u8` search.
- **Proxy** (`proxy.dfy`): extracting and decoding the base64 token of a proxy
  or `/watch/` URL.
- **Extract** (`extract.dfy`): collecting the URLs and the identifiers.
- **Candidates** (`candidates.dfy`): the template expansion.
- **Probe** (`probe.dfy`): the `check` retry loop. The network is a reply
  stream: the k-th request gets a status code or an exception.
- **Validate** (`validate.dfy`): probing all candidates and keeping the live
  ones.
- **ProxyMap** (`proxymap.dfy`): `build_proxy_map`.
- **Assemble** (`assemble.dfy`): the rewrite loop.
- **Pipeline** (`pipeline.dfy`): the two stages run one after the other.

The loops of the source are methods with loop invariants (`CollectUrls`,
`ExtractIds`, `Check`, `CollectValid`, `BuildProxyMap`, `Assemble`). Each is
proved equal to a specification function (`UrlsOf`, `IdsOf`, `Probe`,
`FilterLive`, `MapOf`, `Rewrite`). The properties are proved as lemmas about
those functions.

## Model

| member | source | states |
|---|---|---|
| Text.IsSpace | all_channels/main.py:45 | defines the characters Python's `str.isspace` accepts, the ones `strip()` removes |
| Text.Strip | all_channels/main.py:45 | the result starts and ends with a non-whitespace character (Python's `isspace` set); it is the slice of the input that starts right after the leading whitespace, and everything cut off on either side is whitespace |
| Text.StripTrimmed | all_channels/main.py:49 | stripping an already trimmed string leaves it unchanged |
| Text.StartsWith | all_channels/main.py:46 | defines `s.startswith(p)`: `p` is a prefix of `s` |
| Text.Find | all_channels/main.py:120 | `pat in s`: returns the leftmost position where `pat` occurs, or `None` when it occurs nowhere |
| Text.Contains | all_channels/main.py:120 | defines `pat in s` as `pat` occurring at some position, which `Find` locates |
| Text.BeforeFirst | all_channels/main.py:48 | `s.split(sep)[0]` is a prefix of `s` containing no `sep`; no `sep` starts in `s` before its end, which is the end of `s` or the start of the first `sep` |
| Text.AfterFirst | all_channels/main.py:121 | the rest of `s` after the first occurrence of `sep`, from which `SecondPiece` takes its first piece |
| Text.SecondPiece | all_channels/main.py:121 | `s.split(sep)[1]` starts right after the first `sep`; no `sep` starts inside it, and it ends at the end of `s` or where the next `sep` from there starts; it contains no `sep` |
| Base64.Value | all_channels/main.py:49 | a character's alphabet value is below 64 and maps back to that character |
| Base64.DecodeQuantum | all_channels/main.py:49 | a decoded 4-character quantum yields 1 to 3 bytes; it yields fewer than 3 only when the quantum ends in padding |
| Base64.Decode | all_channels/main.py:49 | decoding succeeds only on input whose length is a multiple of 4 |
| Base64.Encode | all_channels/main.py:48-49 | the encoding's length is a multiple of 4 and it uses only alphabet characters and `=` |
| Base64.DecodeEncode | all_channels/main.py:49 | decoding the base64 encoding of any byte string gives that byte string back |
| Utf8.DecodeScalar | all_channels/main.py:49 | a decoded scalar consumes 1 to 4 bytes, and exactly 1 iff the lead byte is ASCII; an ASCII byte decodes to its own character |
| Utf8.Decode | all_channels/main.py:49 | `bytes.decode()` yields at most one character per byte |
| Utf8.DecodeAscii | all_channels/main.py:49 | decoding the bytes of an ASCII string gives that string back |
| Premium.DigitRun | all_channels/main.py:16 | greedy `\d+`: the length of the maximal run of ASCII digits at a position |
| Premium.MatchAtIsCapture | all_channels/main.py:16 | the hand-written matcher at position `p` yields digits `d` iff `premium` + `d` + `/mono.m3u8` occurs at `p` and `d` is a non-empty digit string |
| Premium.Find | all_channels/main.py:53 | the pattern matches at the returned position and at no earlier one; `None` iff it matches nowhere |
| Premium.Search | all_channels/main.py:58-60 | `search(...).group(1)` is a digit string captured at the leftmost match; `None` iff no position and digits make the pattern occur |
| Proxy.DecodeOriginal | all_channels/main.py:49 | a decoded upstream URL is trimmed of whitespace |
| Proxy.PrefixToken | all_channels/main.py:48 | the token is the text right after the proxy prefix, up to the first `.m3u8` after the prefix or to the end of the line, and contains no `.m3u8` |
| Proxy.WatchToken | all_channels/main.py:121 | the token is the text right after the first `/watch/`; it ends at the first `.m3u8` before the next `/watch/`, or at that `/watch/`, or at the end of the URL, with no earlier stop; it contains neither `/watch/` nor `.m3u8` |
| Proxy.UnwrapWrap | all_channels/main.py:45-49 | a proxy line built from a trimmed ASCII URL (prefix, base64 of the URL, `.m3u8`) starts with the prefix and decodes back to that URL |
| Proxy.UnwrapWatch | all_channels/main.py:120-124 | a channel URL whose first `/watch/` is followed by the base64 of a trimmed ASCII URL and `.m3u8` decodes back to that URL; the base64 of ASCII text never holds `/watch/` (Proxy.NoWatchInAsciiBase64), so no further condition is needed |
| Proxy.NoWatchInAsciiBase64 | all_channels/main.py:121 | the base64 encoding of ASCII text never contains `/watch/`, so `split('/watch/')` cannot cut inside an encoded upstream URL |
| Extract.LineUrl | all_channels/main.py:45-54 | a contributed URL is always trimmed; a stripped line with the proxy prefix contributes the decoding of its token, or nothing when that fails; any other stripped line contributes itself exactly when the pattern matches it |
| Extract.GatherMembers | all_channels/main.py:43-54 | a value is gathered iff some element yields it |
| Extract.UrlsOf | all_channels/main.py:41-54 | defines `decoded_urls`: the set of the lines' `LineUrl` contributions |
| Extract.UrlsOfMembers | all_channels/main.py:43-54 | a URL is in `decoded_urls` iff some playlist line contributes it: a proxy line whose token decodes to it, or a stripped line that contains the pattern and equals it |
| Extract.CollectUrls | all_channels/main.py:43-54 | the file loop yields exactly the set of the lines' contributions |
| Extract.IdsOf | all_channels/main.py:56-60 | every identifier is a digit string, and an identifier is present iff some collected URL's search captures it |
| Extract.ExtractIds | all_channels/main.py:56-60 | the set loop yields exactly the identifier set |
| Extract.IdsFromLines | all_channels/main.py:41-60 | an identifier is extracted iff it is the capture of a URL some playlist line contributes; every identifier is a digit string |
| Candidates.Candidates | all_channels/main.py:76 | defines the comprehension: the expansions of the identifiers, identifier-major, in iteration order |
| Candidates.CandidatesLayout | all_channels/main.py:76 | there are five candidates per identifier, and candidate `a*5+b` is template `b` filled with identifier `a` (`Format`: the template's head, the identifier, the template's tail): every pair appears exactly once |
| Candidates.CandidatesNonEmpty | all_channels/main.py:68-76 | no candidate is the empty string |
| Candidates.TemplateShape | all_channels/main.py:68-74 | every template is `...premium{}/mono.m3u8` |
| Candidates.CandidateCaptures | all_channels/main.py:68-76 | a template filled with a digit identifier contains the pattern with that identifier captured where the placeholder was |
| Candidates.CandidateMatches | all_channels/main.py:68-76 | searching any candidate built from an identifier succeeds |
| Probe.ProbeFrom | all_channels/main.py:82-98 | defines the retry loop's transition table: 200 is live, 429 sleeps and retries, 404 or an exception is dead, anything else falls back to GET (200 live, otherwise retry); after the fifth attempt it is exhausted |
| Probe.Probe | all_channels/main.py:82-98 | defines the probe of one URL: `ProbeFrom` from attempt 1, with no request sent and no sleep |
| Probe.Outcome | all_channels/main.py:80-98 | defines `check(u)`'s result: `u` when the probe is live, `None` otherwise |
| Probe.Check | all_channels/main.py:80-98 | `check(u)` returns `u` exactly when the probe's verdict is live and `None` otherwise; its sleeps and attempts are the probe's |
| Probe.ProbeFromBounds | all_channels/main.py:82-92 | from any attempt, a probe ends on an attempt between that one and the fifth, sleeps at most once per attempt, and is exhausted only on the fifth |
| Probe.ProbeFromRequests | all_channels/main.py:85-93 | every attempt sends one request (HEAD) or two (HEAD then GET) |
| Probe.ProbeBounds | all_channels/main.py:82 | a probe makes 1 to 5 attempts, at most one sleep per attempt, and between one and two requests per attempt |
| Probe.ProbeFromLastReply | all_channels/main.py:86-97 | a live probe's last reply was a 200; a dead probe's last reply was an exception or a 404 |
| Probe.LiveAtFirstAttempt | all_channels/main.py:86-87 | a HEAD 200 on the first request: live on attempt 1, one request, no sleep |
| Probe.DeadOnNotFound | all_channels/main.py:91-92 | a first HEAD 404: dead at once, without retrying |
| Probe.DeadOnException | all_channels/main.py:96-97 | an exception on the first request: dead at once, never retried |
| Probe.LiveByGetFallback | all_channels/main.py:93-95 | an unexpected HEAD status followed by a GET 200: live on the same attempt, after two requests |
| Probe.LiveAfterFourRateLimits | all_channels/main.py:88-90 | four 429s and then a 200: live on attempt 5 after exactly four sleeps |
| Probe.ExhaustedByRateLimits | all_channels/main.py:88-98 | five 429s: the loop runs out after five sleeps and `check` gives `None` |
| Validate.Truthy | all_channels/main.py:102 | defines Python truthiness of a `check` result: not `None` and not empty |
| Validate.Keep | all_channels/main.py:101-103 | defines the values of the truthy results, in order |
| Validate.KeepIsTruthySubsequence | all_channels/main.py:101-103 | the kept values are exactly the values of the truthy results, at strictly increasing positions, with every truthy position included |
| Validate.FilterLive | all_channels/main.py:100-103 | defines `valid`: `Keep` of the `ex.map(check, candidates)` results, one `check` outcome per candidate in candidate order (`Results`) |
| Validate.FilterLiveIsLiveSubsequence | all_channels/main.py:100-103 | `valid` is the subsequence of the candidates at the positions whose result is truthy: those positions increase strictly, and every such position is included |
| Validate.FilterLiveMembers | all_channels/main.py:100-103 | a URL is in `valid` iff some candidate equal to it is kept |
| Validate.CollectValid | all_channels/main.py:100-103 | the loop over `ex.map(check, candidates)` yields exactly the kept candidates, in candidate order |
| Validate.Enumerate | all_channels/main.py:76 | iterating the identifier set lists every identifier exactly once |
| Validate.ValidateLinks | all_channels/main.py:41-103 | the run fails (`sys.exit(1)`) iff no identifier is extracted; otherwise its identifiers, candidates and `valid` are the extracted set, its expansion and the live candidates |
| Validate.CandidateCount | all_channels/main.py:76-78 | `len(candidates) == len(ids) * 5` |
| Validate.KeptIsLive | all_channels/main.py:102 | since no candidate is empty, `if res:` keeps a candidate iff its probe is live |
| Validate.LiveMembers | all_channels/main.py:68-103 | a URL is in `valid` iff it is some template filled with some identifier of the iteration order and its own probe is live |
| Validate.FilterLiveIsLiveLinks | all_channels/main.py:76-103 | for every iteration order of the identifier set, a URL is in `valid` iff it is in `LiveLinks` of the set: the live fillings of the templates with the set's identifiers, which no order enters |
| ProxyMap.PairAt | all_channels/main.py:116-126 | a line contributes an entry iff it starts with `#EXTINF`, has a next line containing `/watch/`, and that line's token decodes; the entry maps the decoded URL to the two lines |
| ProxyMap.Insert | all_channels/main.py:124 | defines the dictionary after the pairs are assigned in order, later keys overwriting earlier ones |
| ProxyMap.MapOf | all_channels/main.py:114-128 | defines `build_proxy_map`'s result: the pairs of every line of the file (`Pairs`), inserted in file order |
| ProxyMap.InsertKeys | all_channels/main.py:124 | a key is in the dictionary iff some pair has it |
| ProxyMap.InsertLastWins | all_channels/main.py:124 | a key's value is the entry of the last pair that has the key |
| ProxyMap.InsertEntries | all_channels/main.py:124 | a key is in the dictionary iff some pair has it, and its value is the entry of the last such pair |
| ProxyMap.MapEntries | all_channels/main.py:114-126 | a URL is a key iff some `#EXTINF` line and its `/watch/` next line decode to it; the stored pair is the last such line pair of the file |
| ProxyMap.StoredPair | all_channels/main.py:117-124 | the two lines stored under a key are an `#EXTINF` line and the following `/watch/` line of the channel file |
| ProxyMap.BuildProxyMap | all_channels/main.py:110-128 | the indexed loop builds exactly the dictionary of the file's pairs |
| Assemble.OriginalOf | all_channels/main.py:143-150 | a line without the proxy prefix stands for itself; a proxy line whose token decodes stands for the decoded URL; a proxy line whose token does not decode (`except: pass`) stands for itself |
| Assemble.OriginalOfWrap | all_channels/main.py:145-148 | a proxy line built from a trimmed ASCII URL stands for that URL |
| Assemble.Swaps | all_channels/main.py:142-151 | defines when the loop replaces lines `i`, `i+1`: an `#EXTINF` line with a next line whose upstream URL is valid and in the proxy map |
| Assemble.RewriteFrom | all_channels/main.py:140-158 | defines the output from line `i` on: a replaced pair emits the stored two lines and skips two, any other line is copied and the loop moves one on |
| Assemble.Rewrite | all_channels/main.py:137-158 | defines `out`: the output from line 0 |
| Assemble.StepOrSecond | all_channels/main.py:140-158 | every line is either one the loop stops at or the second line of a replaced pair |
| Assemble.RewriteFromLength | all_channels/main.py:151-158 | each step emits exactly as many lines as it consumes |
| Assemble.RewriteAtStep | all_channels/main.py:140-158 | the rewritten playlist has the input's length, and from each line the loop stops at it continues with what the loop emits from there |
| Assemble.RewriteLines | all_channels/main.py:140-158 | at a stop where the pair is replaced, output lines `k` and `k+1` are the stored `#EXTINF` line and proxy URL; at any other stop, line `k` is kept unchanged |
| Assemble.RewriteNothing | all_channels/main.py:151-158 | when no valid URL has a proxy entry, the playlist comes out unchanged |
| Assemble.ReplacementFromChannels | all_channels/main.py:151-154 | a replaced pair's output lines are the channel file's last `#EXTINF` line, and the `/watch/` line after it, that decodes to the playlist entry's upstream URL |
| Assemble.Assemble | all_channels/main.py:131-161 | the `while` loop, after `build_proxy_map`, produces exactly the rewritten playlist |
| Pipeline.LinkSetIsLiveLinks | all_channels/main.py:105-134 | the links file read back is `LiveLinks` of the identifier set, whatever order the set was iterated in |
| Pipeline.Run | all_channels/main.py:164-170 | the run stops iff no identifier is extracted; otherwise the output is the playlist rewritten against the live candidates of the enumeration it used, and that is the playlist rewritten against `LiveLinks` of the identifier set, so the output does not depend on the set's iteration order |
| Pipeline.NothingLiveKeepsPlaylist | all_channels/main.py:134-158 | when no candidate is live, the rewritten playlist is the original |

## Left out

- `fetch_channels` (all_channels/main.py:20-33) is not modelled. It is an HTTP download; the channel file's lines are a parameter.
- File I/O is not modelled: existence checks, `sys.exit` on a missing file, reads and writes. Files are sequences of lines. Python's line splitting (`for line in f` in `validate_links`, `splitlines()` in `assemble`) is not modelled either.
- The links file round trip (`"\n".join(valid)`, then `set(...splitlines())`) is modelled as the set of `valid`'s elements (Pipeline.LinkSet). This holds when no valid URL contains a line break.
- Pipeline.Run: the final `"\n".join(out) + "\n"` write is not modelled; the method returns `out`.
- Network requests are replaced by reply streams. `net(u)(k)` is the reply to the k-th request of the probe of URL `u`: a status code or a raised exception. Headers, redirects and timeouts are folded into those replies. The same URL gets the same replies whichever candidate position it is probed from.
- `time.sleep(5)` is counted (`sleeps`), not performed.
- The `ThreadPoolExecutor` is modelled as probing the candidates one after the other. `ex.map` returns results in candidate order, which is the order the model keeps.
- Python's set iteration order is hash-dependent and not modelled. Validate.ValidateLinks returns the order it used, constrained only to list each identifier once; the order of `links.m3u8` depends on it, but the set of links, and so the output playlist, does not (Validate.FilterLiveIsLiveLinks, Pipeline.Run).
- `print` output is not modelled.
- Base64.Decode: Python's `b64decode` (without `validate=True`) is lenient where the model is strict. It silently drops characters outside the alphabet. A `=` in the first or second position of a group is skipped. A `=` that completes a group ends decoding, and whatever follows is ignored, so `QQ==QUJD` and `QQ==x` both decode to `b'A'`. The model fails on all of these inputs, so such a playlist or channel line contributes nothing in the model although Python decodes it. Missing padding fails in both.
- Premium.Search: Python's `\d` also matches non-ASCII Unicode decimal digits; the model matches only `0`-`9`.
- Candidates.Format: `str.format` is modelled only for templates with a single `{}` placeholder. Such templates are stored already split at the placeholder.
- Candidates.CandidateMatches proves only that searching a candidate succeeds. It does not prove that the leftmost match captures exactly the identifier.
- Utf8.Decode: its contract only bounds the output length (at most one character per byte). The decoded value is pinned down only for ASCII input, through Utf8.DecodeAscii; multi-byte sequences are decoded but no lemma characterises them.
- Utf8.DecodeScalar: its contract bounds how many bytes a scalar consumes and gives the value only for an ASCII lead byte; the values of 2- to 4-byte sequences are not stated.
- Utf8.DecodeAscii: the UTF-8 round trip is proved only for ASCII text. Proxy.UnwrapWrap and Proxy.UnwrapWatch are limited to ASCII upstream URLs for the same reason.
