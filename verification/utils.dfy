/** The static helpers of the client: vqd extraction, markup and URL
    normalisation, and the Tor proxy alias.
 */
module Utils {
  import opened Outcomes
  import opened Strings

  /** The URL-decoding, entity-decoding and tag-stripping routines of the
      framework, taken as given functions. */
  datatype Decoders = Decoders(
    urlDecode: string -> string,
    htmlDecode: string -> string,
    stripTags: string -> string)

  /** A start marker and the end marker that closes the token after it. */
  datatype Marker = Marker(start: string, end: string)

  /** The marker pairs, in the order they are tried. */
  const VqdMarkers: seq<Marker> := [Marker("vqd=\"", "\""), Marker("vqd=", "&"), Marker("vqd='", "'")]

  const TorProxy: string := "socks5://127.0.0.1:9150"

  /** `i` is the first position at or after `from` where `pat` occurs. */
  ghost predicate FirstAt(s: string, pat: string, from: nat, i: nat) {
    from <= i && OccursAt(s, pat, i) && forall j: nat :: from <= j < i ==> !OccursAt(s, pat, j)
  }

  /** The first start marker of `m` is at `s` and the first end marker behind it at `e`. */
  ghost predicate SelectsAt(html: string, m: Marker, s: nat, e: nat) {
    FirstAt(html, m.start, 0, s) && FirstAt(html, m.end, s + |m.start|, e)
  }

  /** `tok` is what marker pair `m` selects in `html`: the text after the first
      start marker up to the first end marker behind it. */
  ghost predicate Selects(html: string, m: Marker, tok: string) {
    exists s: nat, e: nat :: SelectsAt(html, m, s, e) && tok == html[s + |m.start|..e]
  }

  lemma FirstAtUnique(s: string, pat: string, from: nat, i: nat, j: nat)
    requires FirstAt(s, pat, from, i) && FirstAt(s, pat, from, j)
    ensures i == j
  {
  }

  /** What marker pair `m` picks out of `html`: the text between the first
      start marker and the first end marker behind it, when both occur. */
  function TryMarker(html: string, m: Marker): (r: Option<string>)
    ensures r.Some? ==> Contains(html, m.start) && |m.start| + |r.value| <= |html|
    ensures !Contains(html, m.start) ==> r.None?
  {
    ContainsIffIndexOf(html, m.start);
    match IndexOf(html, m.start, 0)
    case None => None
    case Some(s) =>
      match IndexOf(html, m.end, s + |m.start|)
      case None => None
      case Some(e) => Some(html[s + |m.start|..e])
  }

  /** A marker pair yields exactly the token it selects, and the token never
      holds the end marker. */
  lemma TryMarkerSelects(html: string, m: Marker)
    ensures TryMarker(html, m).Some? ==> Selects(html, m, TryMarker(html, m).value)
    ensures TryMarker(html, m).Some? && m.end != [] ==> !Contains(TryMarker(html, m).value, m.end)
    ensures TryMarker(html, m).None? ==> forall tok :: !Selects(html, m, tok)
  {
    match IndexOf(html, m.start, 0)
    case None =>
      forall tok ensures !Selects(html, m, tok) {
        forall s: nat, e: nat ensures !SelectsAt(html, m, s, e) {
          assert !OccursAt(html, m.start, s);
        }
      }
    case Some(s) =>
      var from := s + |m.start|;
      assert FirstAt(html, m.start, 0, s);
      match IndexOf(html, m.end, from)
      case None =>
        forall tok ensures !Selects(html, m, tok) {
          forall s': nat, e: nat ensures !SelectsAt(html, m, s', e) {
            if FirstAt(html, m.start, 0, s') {
              FirstAtUnique(html, m.start, 0, s, s');
              assert e < from || !OccursAt(html, m.end, e);
            }
          }
        }
      case Some(e) =>
        assert SelectsAt(html, m, s, e);
        FirstEndNotInToken(html, m.end, from, e);
  }

  /** Text that stops at the first occurrence of `end` does not hold `end`. */
  lemma FirstEndNotInToken(html: string, end: string, from: nat, e: nat)
    requires from <= e <= |html|
    requires forall j: nat :: from <= j < e ==> !OccursAt(html, end, j)
    ensures end != [] ==> !Contains(html[from..e], end)
  {
    if end != [] {
      forall i: nat | i <= |html[from..e]|
        ensures !OccursAt(html[from..e], end, i)
      {
        OccursInSlice(html, end, from, e, i);
      }
    }
  }

  /** The first marker pair of `ms` that yields a token, with its position. */
  function FirstMarker(html: string, ms: seq<Marker>): (r: Option<(nat, string)>)
    ensures r.Some? ==> r.value.0 < |ms| && TryMarker(html, ms[r.value.0]) == Some(r.value.1)
    ensures r.Some? ==> forall j :: 0 <= j < r.value.0 ==> TryMarker(html, ms[j]).None?
    ensures r.None? ==> forall j :: 0 <= j < |ms| ==> TryMarker(html, ms[j]).None?
  {
    if ms == [] then None
    else match TryMarker(html, ms[0])
      case Some(tok) => Some((0, tok))
      case None =>
        match FirstMarker(html, ms[1..])
        case None => None
        case Some(hit) => Some((hit.0 + 1, hit.1))
  }

  /** `ExtractVqd`: the session token of a search page, taken by the first
      of the marker pairs that yields one; without any, a search error. */
  function ExtractVqd(html: string): (r: Result<string>)
    ensures r.Ok? <==> exists k :: 0 <= k < |VqdMarkers| && TryMarker(html, VqdMarkers[k]).Some?
    ensures r.Ok? ==> exists k :: 0 <= k < |VqdMarkers| && TryMarker(html, VqdMarkers[k]) == Some(r.value)
                                && forall j :: 0 <= j < k ==> TryMarker(html, VqdMarkers[j]).None?
    ensures r.Fail? ==> r.error == SearchError(NoVqd)
  {
    match FirstMarker(html, VqdMarkers)
    case None => Fail(SearchError(NoVqd))
    case Some(hit) => Ok(hit.1)
  }

  /** The token is the one the first selecting marker pair picks, it holds no
      end marker of that pair, and extraction fails only when no pair selects. */
  lemma ExtractVqdSelects(html: string)
    ensures ExtractVqd(html).Ok? ==>
      exists k :: 0 <= k < |VqdMarkers|
        && Selects(html, VqdMarkers[k], ExtractVqd(html).value)
        && !Contains(ExtractVqd(html).value, VqdMarkers[k].end)
        && (forall j, tok :: 0 <= j < k ==> !Selects(html, VqdMarkers[j], tok))
    ensures ExtractVqd(html).Fail? ==>
      ExtractVqd(html).error == SearchError(NoVqd)
      && forall k, tok :: 0 <= k < |VqdMarkers| ==> !Selects(html, VqdMarkers[k], tok)
  {
    TryMarkerSelects(html, VqdMarkers[0]);
    TryMarkerSelects(html, VqdMarkers[1]);
    TryMarkerSelects(html, VqdMarkers[2]);
    var hit := FirstMarker(html, VqdMarkers);
    if hit.Some? {
      var k := hit.value.0;
      assert Selects(html, VqdMarkers[k], ExtractVqd(html).value);
    }
  }

  /** `vqd="tok"` yields `tok` when the token holds no double quote. */
  lemma {:induction false} VqdDoubleQuoted(tok: string, rest: string)
    requires '"' !in tok
    ensures ExtractVqd("vqd=\"" + tok + "\"" + rest) == Ok(tok)
  {
    var html := "vqd=\"" + tok + "\"" + rest;
    assert html[..5] == "vqd=\"";
    IndexOfIs(html, "vqd=\"", 0, 0);
    var e := 5 + |tok|;
    assert html[e..e + 1] == "\"";
    forall j: nat | 5 <= j < e ensures !OccursAt(html, "\"", j) {
      OccursAtHead(html, "\"", j);
      assert html[j] == tok[j - 5];
    }
    IndexOfIs(html, "\"", 5, e);
    assert html[5..e] == tok;
    assert TryMarker(html, VqdMarkers[0]) == Some(tok);
  }

  /** `vqd=tok&` yields `tok` in a page without double quotes when the token
      holds no ampersand. */
  lemma {:induction false} VqdAmpersand(tok: string, rest: string)
    requires '"' !in tok && '"' !in rest && '&' !in tok
    ensures ExtractVqd("vqd=" + tok + "&" + rest) == Ok(tok)
  {
    var html := "vqd=" + tok + "&" + rest;
    assert '"' !in html;
    AbsentChar(html, "vqd=\"", 4);
    IndexOfNone(html, "vqd=\"", 0);
    assert TryMarker(html, VqdMarkers[0]) == None;
    assert html[..4] == "vqd=";
    IndexOfIs(html, "vqd=", 0, 0);
    var e := 4 + |tok|;
    assert html[e..e + 1] == "&";
    forall j: nat | 4 <= j < e ensures !OccursAt(html, "&", j) {
      OccursAtHead(html, "&", j);
      assert html[j] == tok[j - 4];
    }
    IndexOfIs(html, "&", 4, e);
    assert html[4..e] == tok;
    assert TryMarker(html, VqdMarkers[1]) == Some(tok);
  }

  /** Without `vqd=` anywhere in the page, extraction fails. */
  lemma VqdAbsent(html: string)
    requires !Contains(html, "vqd=")
    ensures ExtractVqd(html) == Fail(SearchError(NoVqd))
  {
    forall j: nat, q | q in ["\"", "", "'"] ensures !OccursAt(html, "vqd=" + q, j) {
      OccursPrefix(html, "vqd=", q, j);
      assert j <= |html| ==> !OccursAt(html, "vqd=", j);
    }
    assert VqdMarkers[0].start == "vqd=" + "\"";
    assert VqdMarkers[1].start == "vqd=" + "";
    assert VqdMarkers[2].start == "vqd=" + "'";
    IndexOfNone(html, VqdMarkers[0].start, 0);
    IndexOfNone(html, VqdMarkers[1].start, 0);
    IndexOfNone(html, VqdMarkers[2].start, 0);
  }

  /** `Normalize`: strips tags and decodes entities; empty for absent or empty markup. */
  function Normalize(raw: Option<string>, d: Decoders): (r: string)
    ensures raw.None? || raw.value == [] ==> r == []
    ensures raw.Some? && raw.value != [] ==> r == d.htmlDecode(d.stripTags(raw.value))
  {
    if raw.None? || raw.value == [] then [] else d.htmlDecode(d.stripTags(raw.value))
  }

  /** `string.Replace(" ", "+")`. */
  function ReplaceSpaces(s: string): (r: string)
    ensures |r| == |s|
    ensures forall i :: 0 <= i < |s| ==> r[i] == (if s[i] == ' ' then '+' else s[i])
    ensures ' ' !in r
  {
    if s == [] then [] else [if s[0] == ' ' then '+' else s[0]] + ReplaceSpaces(s[1..])
  }

  /** `NormalizeUrl`: URL-decodes and writes spaces as '+'. */
  function NormalizeUrl(url: Option<string>, d: Decoders): (r: string)
    ensures url.None? || url.value == [] ==> r == []
    ensures ' ' !in r
    ensures url.Some? && url.value != [] ==> |r| == |d.urlDecode(url.value)|
  {
    if url.None? || url.value == [] then [] else ReplaceSpaces(d.urlDecode(url.value))
  }

  /** `ExpandProxyTbAlias`: "tb" names the local Tor proxy. */
  function ExpandProxyTbAlias(proxy: Option<string>): (r: Option<string>)
    ensures proxy == Some("tb") ==> r == Some(TorProxy)
    ensures proxy != Some("tb") ==> r == proxy
  {
    if proxy == Some("tb") then Some(TorProxy) else proxy
  }

  lemma ExpandProxyTbAliasIdempotent(proxy: Option<string>)
    ensures ExpandProxyTbAlias(ExpandProxyTbAlias(proxy)) == ExpandProxyTbAlias(proxy)
  {
  }
}
