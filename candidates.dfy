/**
 * Candidate generation (all_channels/main.py:68-76): every identifier is
 * substituted into each of five mirror URL templates.
 */
module Candidates {
  import opened Text
  import Premium

  /** A URL template `head{}tail`, kept split at its single `{}` placeholder. */
  datatype Template = Template(head: string, tail: string)

  /** `t.format(id)`: the placeholder replaced by `id`. */
  function Format(t: Template, id: string): (url: string)
    ensures |url| == |t.head| + |id| + |t.tail|
    ensures url[..|t.head|] == t.head && url[|t.head|..|t.head| + |id|] == id
            && url[|t.head| + |id|..] == t.tail
  {
    t.head + id + t.tail
  }

  /** The five mirrors, in list order (all_channels/main.py:68-74). */
  const Templates: seq<Template> := [
    Template("https://nfsnew.newkso.ru/nfs/premium", "/mono.m3u8"),
    Template("https://windnew.newkso.ru/wind/premium", "/mono.m3u8"),
    Template("https://zekonew.newkso.ru/zeko/premium", "/mono.m3u8"),
    Template("https://dokko1new.newkso.ru/dokko1/premium", "/mono.m3u8"),
    Template("https://ddy6new.newkso.ru/ddy6/premium", "/mono.m3u8")
  ]

  /** The candidates of one identifier, one per template in list order. */
  function Expand(id: string): (urls: seq<string>)
    ensures |urls| == |Templates|
    ensures forall j :: 0 <= j < |Templates| ==> urls[j] == Format(Templates[j], id)
  {
    seq(|Templates|, j requires 0 <= j < |Templates| => Format(Templates[j], id))
  }

  /** `[t.format(i) for i in ids for t in templates]`, with `ids` in iteration order `order`. */
  function Candidates(order: seq<string>): seq<string>
  {
    if order == [] then [] else Candidates(order[..|order| - 1]) + Expand(order[|order| - 1])
  }

  /**
   * There are `|order| * 5` candidates, laid out identifier-major: candidate
   * `a * 5 + b` is template `b` filled with identifier `a`, so no
   * (identifier, template) pair is missing or repeated.
   */
  lemma {:induction false} CandidatesLayout(order: seq<string>)
    ensures |Candidates(order)| == |order| * |Templates|
    ensures forall a, b :: 0 <= a < |order| && 0 <= b < |Templates| ==>
      Candidates(order)[a * |Templates| + b] == Format(Templates[b], order[a])
  {
    if order != [] {
      var n := |order| - 1;
      var init := order[..n];
      CandidatesLayout(init);
      var c := Candidates(order);
      assert c == Candidates(init) + Expand(order[n]);
      forall a, b | 0 <= a < |order| && 0 <= b < |Templates|
        ensures c[a * |Templates| + b] == Format(Templates[b], order[a])
      {
        if a < n {
          assert order[a] == init[a];
        } else {
          assert a * |Templates| + b == |Candidates(init)| + b;
        }
      }
    }
  }

  /** No candidate is the empty string: every template has a non-empty head. */
  lemma {:induction false} CandidatesNonEmpty(order: seq<string>)
    ensures forall j :: 0 <= j < |Candidates(order)| ==> |Candidates(order)[j]| > 0
  {
    if order != [] {
      var init := order[..|order| - 1];
      CandidatesNonEmpty(init);
      var c0 := Candidates(init);
      var e := Expand(order[|order| - 1]);
      assert Candidates(order) == c0 + e;
      forall j | 0 <= j < |c0| + |e| ensures |(c0 + e)[j]| > 0 {
        if j >= |c0| {
          assert |Templates[j - |c0|].head| > 0;
        }
      }
    }
  }

  /** Every template is `...premium{}/mono.m3u8`, so a filled template carries the pattern. */
  lemma TemplateShape(j: int)
    requires 0 <= j < |Templates|
    ensures |Templates[j].head| >= |Premium.Lead|
    ensures Templates[j].head[|Templates[j].head| - |Premium.Lead|..] == Premium.Lead
    ensures Templates[j].tail == Premium.Trail
  {
  }

  /** A filled template carries the pattern, with `id` captured where the template placed it. */
  lemma CandidateCaptures(j: int, id: string)
    requires 0 <= j < |Templates|
    requires Premium.IsDigits(id)
    ensures Premium.Captures(Format(Templates[j], id), |Templates[j].head| - |Premium.Lead|, id)
  {
    var t := Templates[j];
    TemplateShape(j);
    var url := Format(t, id);
    var h := |t.head|;
    var p := h - |Premium.Lead|;
    SubSlice(url, 0, h, p, h);
    assert url[p..h] == Premium.Lead;
    assert url[h + |id|..h + |id| + |Premium.Trail|] == Premium.Trail;
    Premium.ThreeSlices(url, p, Premium.Lead, id, Premium.Trail);
  }

  /**
   * Every candidate built from a digit identifier contains the pattern, so
   * searching it succeeds.
   */
  lemma CandidateMatches(j: int, id: string)
    requires 0 <= j < |Templates|
    requires Premium.IsDigits(id)
    ensures Premium.Search(Format(Templates[j], id)).Some?
  {
    CandidateCaptures(j, id);
  }
}
