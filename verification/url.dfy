/**
 * A raw URL query string: `key=value` pairs joined by `&`, after a `?`.
 * Nothing is percent-encoded on the way in and nothing is decoded on the
 * way out, which is how the relay builds its authorize URL.
 */
module Url {
  import opened Text

  type Param = (string, string)

  /** `key=value`. */
  function RenderParam(p: Param): string {
    p.0 + "=" + p.1
  }

  function RenderParams(ps: seq<Param>): (r: seq<string>)
    ensures |r| == |ps|
    ensures forall k :: 0 <= k < |ps| ==> r[k] == RenderParam(ps[k])
  {
    if |ps| == 0 then [] else [RenderParam(ps[0])] + RenderParams(ps[1..])
  }

  /** The query string: the rendered parameters joined by `&`. */
  function RenderQuery(ps: seq<Param>): string {
    Join(RenderParams(ps), '&')
  }

  /** One query segment split at its first `=`; a segment without one has an empty value. */
  function ParseParam(segment: string): (p: Param)
    ensures p.0 + (if '=' in segment then "=" else "") + p.1 == segment
    ensures '=' !in p.0
  {
    var i := IndexOf(segment, '=');
    assert forall k :: 0 <= k < i ==> segment[..i][k] == segment[k];
    if i == |segment| then
      assert segment[..i] == segment;
      (segment, "")
    else
      assert segment == segment[..i] + "=" + segment[i + 1..];
      (segment[..i], segment[i + 1..])
  }

  function ParseParams(segments: seq<string>): (ps: seq<Param>)
    ensures |ps| == |segments|
    ensures forall k :: 0 <= k < |segments| ==> ps[k] == ParseParam(segments[k])
  {
    if |segments| == 0 then [] else [ParseParam(segments[0])] + ParseParams(segments[1..])
  }

  /** The query string split on `&`, each segment split at its first `=`. */
  function ParseQuery(q: string): (ps: seq<Param>)
    ensures |ps| >= 1
  {
    ParseParams(Split(q, '&'))
  }

  datatype ParsedUrl = ParsedUrl(base: string, query: seq<Param>)

  /** A URL split at its first `?` into the part before and the parsed query. */
  function ParseUrl(url: string): (r: ParsedUrl)
    ensures '?' !in r.base && r.base <= url
    ensures r.query == [] <==> r.base == url
  {
    var i := IndexOf(url, '?');
    assert forall k :: 0 <= k < i ==> url[..i][k] == url[k];
    if i == |url| then ParsedUrl(url, []) else ParsedUrl(url[..i], ParseQuery(url[i + 1..]))
  }

  /** A parameter survives a raw round trip when its key has no `=` and neither half has a `&`. */
  predicate RawSafe(p: Param) {
    '=' !in p.0 && '&' !in p.0 && '&' !in p.1
  }

  /** A value with a `&` renders as the segment for its part before the `&`, the `&`, and the rest. */
  lemma RenderParamCut(key: string, head: string, rest: string)
    ensures RenderParam((key, head + "&" + rest)) == RenderParam((key, head)) + "&" + rest
  {
  }

  lemma ParseRenderParam(p: Param)
    requires '=' !in p.0
    ensures ParseParam(RenderParam(p)) == p
  {
    IndexOfAfter(p.0, '=', p.1);
    var s := RenderParam(p);
    assert s[..|p.0|] == p.0;
    assert s[|p.0| + 1..] == p.1;
  }

  /** Parsing a rendered query gives back the parameters, in order, unchanged. */
  lemma ParseRenderQuery(ps: seq<Param>)
    requires |ps| >= 1
    requires forall k :: 0 <= k < |ps| ==> RawSafe(ps[k])
    ensures ParseQuery(RenderQuery(ps)) == ps
  {
    var segments := RenderParams(ps);
    forall k | 0 <= k < |ps|
      ensures '&' !in segments[k]
      ensures ParseParam(segments[k]) == ps[k]
    {
      ParseRenderParam(ps[k]);
    }
    SplitJoin(segments, '&');
  }

  /** A URL whose base has no `?` is read as that base and the parsed text after the `?`. */
  lemma ParseUrlAfterBase(base: string, q: string)
    requires '?' !in base
    ensures ParseUrl(base + "?" + q) == ParsedUrl(base, ParseQuery(q))
  {
    var url := base + "?" + q;
    IndexOfAfter(base, '?', q);
    assert url[..|base|] == base;
    assert url[|base| + 1..] == q;
  }

  /** Parsing `base ? query` gives back the base and the parameters when the base has no `?`. */
  lemma ParseRenderUrl(base: string, ps: seq<Param>)
    requires '?' !in base
    requires |ps| >= 1
    requires forall k :: 0 <= k < |ps| ==> RawSafe(ps[k])
    ensures ParseUrl(base + "?" + RenderQuery(ps)) == ParsedUrl(base, ps)
  {
    ParseUrlAfterBase(base, RenderQuery(ps));
    ParseRenderQuery(ps);
  }
}
