/** The image, video and news searches: JSON result pages walked with the
    `s=` cursor of their `next` link, their filter strings and their
    safesearch tables.
 */
module Media {
  import opened Outcomes
  import opened Strings
  import opened Utils
  import opened Transport
  import opened Paging
  import opened Forms

  // ---------------------------------------------------------------------
  // The cursor

  const CursorMark: string := "s="

  /** `next.Split("s=")[1].Split("&")[0]`: the text after the first "s=" up
      to the first '&' or the next "s=", whichever comes first; without any
      "s=" the index 1 is out of range. */
  function CursorOf(next: string): (r: Result<string>)
    ensures r.Fail? ==> r.error == RuntimeError(IndexOutOfRange)
  {
    match IndexOf(next, CursorMark, 0)
    case None => Fail(RuntimeError(IndexOutOfRange))
    case Some(i) =>
      var piece := match IndexOf(next, CursorMark, i + 2)
        case None => next[i + 2..]
        case Some(j) => next[i + 2..j];
      Ok(SplitOn('&', piece)[0])
  }

  /** `c` is the cursor of `next`: it follows the first "s=", holds neither
      '&' nor "s=", and ends where `next` ends, at a '&' or at an "s=". */
  ghost predicate CursorAt(next: string, c: string) {
    && '&' !in c
    && !Contains(c, CursorMark)
    && exists i: nat :: FirstAt(next, CursorMark, 0, i) && OccursAt(next, c, i + 2) && Bounded(next, i + 2 + |c|)
  }

  /** Position `k` of `next` ends a cursor. */
  predicate Bounded(next: string, k: nat) {
    k == |next| || (k < |next| && next[k] == '&') || OccursAt(next, CursorMark, k)
  }

  /** `CursorOf` succeeds exactly when `next` holds an "s=", and then yields
      the cursor `CursorAt` describes. */
  lemma CursorOfSelects(next: string)
    ensures CursorOf(next).Ok? <==> Contains(next, CursorMark)
    ensures CursorOf(next).Ok? ==> CursorAt(next, CursorOf(next).value)
  {
    ContainsIffIndexOf(next, CursorMark);
    match IndexOf(next, CursorMark, 0)
    case None =>
    case Some(i) =>
      match IndexOf(next, CursorMark, i + 2)
      case None =>
        assert next[i + 2..] == next[i + 2..|next|];
        assert CursorOf(next) == Ok(SplitOn('&', next[i + 2..|next|])[0]);
        PieceCursor(next, i, |next|);
      case Some(j) =>
        assert CursorOf(next) == Ok(SplitOn('&', next[i + 2..j])[0]);
        PieceCursor(next, i, j);
  }

  /** The text up to the first '&' of the piece between the first "s=" at `i`
      and the next "s=" at `hi` (or the end) is the cursor. */
  lemma PieceCursor(next: string, i: nat, hi: nat)
    requires FirstAt(next, CursorMark, 0, i) && i + 2 <= hi <= |next|
    requires FirstAt(next, CursorMark, i + 2, hi) || (hi == |next| && forall j: nat :: i + 2 <= j ==> !OccursAt(next, CursorMark, j))
    ensures CursorAt(next, SplitOn('&', next[i + 2..hi])[0])
  {
    var piece := next[i + 2..hi];
    var c := SplitOn('&', piece)[0];
    var n := |c|;
    assert c == piece[..n] && (n == |piece| || piece[n] == '&') by {
      SplitHead('&', piece);
    }
    assert OccursAt(next, c, i + 2) by {
      assert next[i + 2..i + 2 + n] == piece[..n];
    }
    NoMarkBefore(next, i, hi, c);
    assert Bounded(next, i + 2 + n) by {
      if n < |piece| {
        assert next[i + 2 + n] == piece[n];
      }
    }
    assert FirstAt(next, CursorMark, 0, i) && OccursAt(next, c, i + 2) && Bounded(next, i + 2 + |c|);
  }

  /** A slice that starts behind the first "s=" and ends before the next one
      holds no "s=". */
  lemma NoMarkBefore(next: string, i: nat, hi: nat, c: string)
    requires i + 2 + |c| <= hi <= |next| && c == next[i + 2..i + 2 + |c|]
    requires FirstAt(next, CursorMark, i + 2, hi) || (hi == |next| && forall j: nat :: i + 2 <= j ==> !OccursAt(next, CursorMark, j))
    ensures !Contains(c, CursorMark)
  {
    forall j: nat | j <= |c| ensures !OccursAt(c, CursorMark, j) {
      OccursInSlice(next, CursorMark, i + 2, i + 2 + |c|, j);
    }
  }

  /** A string has at most one cursor. */
  lemma CursorAtUnique(next: string, c1: string, c2: string)
    requires CursorAt(next, c1) && CursorAt(next, c2)
    ensures c1 == c2
  {
    var i1 := CursorStart(next, c1);
    var i2 := CursorStart(next, c2);
    FirstAtUnique(next, CursorMark, 0, i1, i2);
    SameStartSameCursor(next, i1, c1, c2);
  }

  /** Where the "s=" of a cursor starts. */
  lemma CursorStart(next: string, c: string) returns (i: nat)
    requires CursorAt(next, c)
    ensures FirstAt(next, CursorMark, 0, i) && OccursAt(next, c, i + 2) && Bounded(next, i + 2 + |c|)
  {
    i :| FirstAt(next, CursorMark, 0, i) && OccursAt(next, c, i + 2) && Bounded(next, i + 2 + |c|);
  }

  lemma SameStartSameCursor(next: string, i: nat, c1: string, c2: string)
    requires OccursAt(next, c1, i + 2) && Bounded(next, i + 2 + |c1|) && '&' !in c1 && !Contains(c1, CursorMark)
    requires OccursAt(next, c2, i + 2) && Bounded(next, i + 2 + |c2|) && '&' !in c2 && !Contains(c2, CursorMark)
    ensures c1 == c2
  {
    if |c1| < |c2| {
      ShorterNotBounded(next, i, c1, c2);
    } else if |c2| < |c1| {
      ShorterNotBounded(next, i, c2, c1);
    } else {
      assert c1 == next[i + 2..i + 2 + |c1|] == c2;
    }
  }

  /** A cursor candidate does not end strictly inside a longer cursor. */
  lemma ShorterNotBounded(next: string, i: nat, a: string, b: string)
    requires |a| < |b|
    requires OccursAt(next, a, i + 2) && OccursAt(next, b, i + 2)
    requires '&' !in b && !Contains(b, CursorMark)
    requires Bounded(next, i + 2 + |b|)
    ensures !Bounded(next, i + 2 + |a|)
  {
    var k := i + 2 + |a|;
    var e := i + 2 + |b|;
    var m: nat := |a|;
    assert b == next[i + 2..e];
    assert next[k] == b[m];
    assert next[k] != '&';
    if k + 2 <= e {
      assert b[m] == next[k] && b[m + 1] == next[k + 1];
      assert b[m..m + 2] == next[k..k + 2];
      assert !OccursAt(b, CursorMark, m);
      assert !OccursAt(next, CursorMark, k);
    } else if k + 2 <= |next| {
      assert e == k + 1 && e < |next|;
      if OccursAt(next, CursorMark, e) {
        assert next[e..e + 2][0] == next[e];
      }
      assert next[e] == '&' || next[e] == 's';
      assert next[k..k + 2][1] == next[e] != '=' == CursorMark[1];
      assert next[k..k + 2] != CursorMark;
    }
  }

  /** A `next` link built as prefix, "s=", cursor and a tail that is empty or
      starts with '&' gives the cursor back, when the prefix holds no "s=". */
  lemma {:induction false} CursorRoundTrip(prefix: string, c: string, tail: string)
    requires !Contains(prefix, CursorMark)
    requires '&' !in c && !Contains(c, CursorMark)
    requires tail == [] || tail[0] == '&'
    ensures CursorOf(prefix + CursorMark + c + tail) == Ok(c)
  {
    var next := prefix + CursorMark + c + tail;
    var i := |prefix|;
    assert OccursAt(next, CursorMark, i) by {
      assert next[i..i + 2] == CursorMark;
    }
    forall j: nat | j < i ensures !OccursAt(next, CursorMark, j) {
      if j + 2 <= i {
        assert next[j..j + 2] == prefix[j..j + 2];
        if OccursAt(next, CursorMark, j) {
          assert OccursAt(prefix, CursorMark, j);
        }
      } else {
        assert next[j + 1] == 's';
      }
    }
    assert next[i + 2..i + 2 + |c|] == c;
    assert Bounded(next, i + 2 + |c|) by {
      if tail != [] {
        assert next[i + 2 + |c|] == tail[0];
      }
    }
    assert CursorAt(next, c) by {
      assert FirstAt(next, CursorMark, 0, i);
    }
    assert Contains(next, CursorMark);
    CursorOfSelects(next);
    CursorAtUnique(next, c, CursorOf(next).value);
  }

  /** The request for the next page: the previous one with `s` set to the
      cursor. */
  function NextCursor(payload: Payload, next: string): (r: Result<Payload>)
    ensures r.Ok? ==> r.value.Keys == payload.Keys + {"s"}
    ensures r.Ok? ==> forall k :: k in payload && k != "s" ==> r.value[k] == payload[k]
    ensures r.Ok? ==> CursorOf(next).Ok? && r.value["s"] == CursorOf(next).value
    ensures r.Fail? <==> CursorOf(next).Fail?
  {
    var c :- CursorOf(next);
    Ok(payload["s" := c])
  }

  // ---------------------------------------------------------------------
  // JSON result pages

  /** A JSON result page: its records and its `next` entry, which is absent,
      JSON null or a string. */
  datatype JsonDoc<R> = JsonDoc(results: seq<R>, next: Option<Option<string>>)

  /** A JSON page is never exhausted by itself.  An absent or empty `next`
      ends the search; a null one fails with a null-reference error when it
      is read, after the page's records and before the cap is consulted. */
  function JsonPage<R>(doc: JsonDoc<R>): (r: Page<R, string>)
    ensures !r.exhausted && r.records == doc.results
    ensures r.fault.Some? <==> doc.next == Some(None)
    ensures r.fault.Some? ==> r.fault.value == RuntimeError(NullReference)
    ensures r.cursor.None? <==> doc.next.None? || doc.next.value.None? || doc.next.value.value == []
    ensures r.cursor.Some? ==> r.cursor.value == doc.next.value.value
  {
    match doc.next
    case None => Page(false, doc.results, None, None)
    case Some(None) => Page(false, doc.results, None, Some(RuntimeError(NullReference)))
    case Some(Some(link)) => Page(false, doc.results, if link == [] then None else Some(link), None)
  }

  function JsonServer<R>(server: (nat, Payload) -> Reply<JsonDoc<R>>): (nat, Payload) -> Reply<Page<R, string>> {
    (n: nat, p: Payload) => MapReply(server(n, p), (doc: JsonDoc<R>) => JsonPage(doc))
  }

  /** Every request of a JSON search agrees with the first one except in `s`. */
  lemma {:induction false} RequestsDifferInCursor<R, T>(ep: Endpoint<Payload, string, R, T>, sent: seq<Payload>, n: nat)
    requires ep.advance == NextCursor
    requires 0 < n <= |sent|
    requires forall i :: 0 < i < |sent| ==> Advanced(ep, sent[i - 1], sent[i])
    ensures forall k :: k in sent[0] && k != "s" ==> k in sent[n - 1] && sent[n - 1][k] == sent[0][k]
    ensures n > 1 ==> sent[n - 1].Keys == sent[0].Keys + {"s"}
  {
    if n > 1 {
      RequestsDifferInCursor(ep, sent, n - 1);
      assert Advanced(ep, sent[n - 2], sent[n - 1]);
      var c :| ep.advance(sent[n - 2], c) == Ok(sent[n - 1]);
      assert NextCursor(sent[n - 2], c) == Ok(sent[n - 1]);
    }
  }

  // ---------------------------------------------------------------------
  // Filters and safesearch

  /** A filter field: its name and its value, absent when the caller passed null. */
  type Field = (string, Option<string>)

  /** The segment a field contributes: "name:value" when given, "" otherwise. */
  function Candidate(f: Field): (r: string)
    ensures f.1.None? <==> r == []
  {
    if f.1.Some? then f.0 + ":" + f.1.value else ""
  }

  function Candidates(fields: seq<Field>): (r: seq<string>)
    ensures |r| == |fields|
    ensures forall k :: 0 <= k < |r| ==> r[k] == Candidate(fields[k])
  {
    if fields == [] then [] else [Candidate(fields[0])] + Candidates(fields[1..])
  }

  /** `.Where(s => !string.IsNullOrEmpty(s))`. */
  function NonEmpty(parts: seq<string>): (r: seq<string>)
    ensures forall k :: 0 <= k < |r| ==> r[k] != [] && r[k] in parts
  {
    if parts == [] then []
    else (if parts[0] == [] then [] else [parts[0]]) + NonEmpty(parts[1..])
  }

  /** The filter string: the given fields' segments, comma-joined; empty
      exactly when no field is given. */
  function FilterString(fields: seq<Field>): (r: string)
    ensures r == [] <==> forall k :: 0 <= k < |fields| ==> fields[k].1.None?
  {
    NonEmptyCandidates(fields);
    PresentEmptyIff(fields);
    JoinWith(',', NonEmpty(Candidates(fields)))
  }

  /** The segments of the given fields, in field order. */
  function Present(fields: seq<Field>): (r: seq<string>)
    ensures |r| <= |fields|
  {
    if fields == [] then []
    else (if fields[0].1.Some? then [fields[0].0 + ":" + fields[0].1.value] else []) + Present(fields[1..])
  }

  /** No segment is present exactly when no field is given. */
  lemma {:induction false} PresentEmptyIff(fields: seq<Field>)
    ensures Present(fields) == [] <==> forall k :: 0 <= k < |fields| ==> fields[k].1.None?
  {
    if fields != [] {
      PresentEmptyIff(fields[1..]);
      assert forall k :: 1 <= k < |fields| ==> fields[k] == fields[1..][k - 1];
    }
  }

  lemma {:induction false} NonEmptyCandidates(fields: seq<Field>)
    ensures NonEmpty(Candidates(fields)) == Present(fields)
  {
    if fields != [] {
      assert Candidates(fields)[1..] == Candidates(fields[1..]);
      NonEmptyCandidates(fields[1..]);
    }
  }

  /** No segment of the given fields holds a comma when no name or value does. */
  lemma {:induction false} PresentNoComma(fields: seq<Field>)
    requires forall k :: 0 <= k < |fields| ==> ',' !in fields[k].0 && (fields[k].1.Some? ==> ',' !in fields[k].1.value)
    ensures forall k :: 0 <= k < |Present(fields)| ==> ',' !in Present(fields)[k] && Present(fields)[k] != []
  {
    if fields != [] {
      PresentNoComma(fields[1..]);
    }
  }

  /** The filter string splits at its commas into exactly the given fields'
      "name:value" segments, in order, none of them empty; with no field
      given it is empty. */
  lemma FilterSplits(fields: seq<Field>)
    requires forall k :: 0 <= k < |fields| ==> ',' !in fields[k].0 && (fields[k].1.Some? ==> ',' !in fields[k].1.value)
    ensures FilterString(fields) == [] <==> Present(fields) == []
    ensures Present(fields) != [] ==> SplitOn(',', FilterString(fields)) == Present(fields)
  {
    NonEmptyCandidates(fields);
    PresentNoComma(fields);
    var ps := Present(fields);
    if ps != [] {
      SplitJoin(',', ps);
      assert |ps[0]| > 0;
      JoinStartsWith(',', ps);
    }
  }

  lemma {:induction false} JoinStartsWith(sep: char, parts: seq<string>)
    requires parts != []
    ensures |JoinWith(sep, parts)| >= |parts[0]|
  {
  }

  /** The image filters of the caller, in the order they are written. */
  datatype ImageFilters = ImageFilters(
    timelimit: Option<string>, size: Option<string>, color: Option<string>,
    kind: Option<string>, layout: Option<string>, license: Option<string>)

  function ImageFields(f: ImageFilters): seq<Field> {
    [("time", f.timelimit), ("size", f.size), ("color", f.color),
     ("type", f.kind), ("layout", f.layout), ("license", f.license)]
  }

  /** The video filters of the caller. */
  datatype VideoFilters = VideoFilters(
    timelimit: Option<string>, resolution: Option<string>, duration: Option<string>, license: Option<string>)

  function VideoFields(f: VideoFilters): seq<Field> {
    [("publishedAfter", f.timelimit), ("videoDefinition", f.resolution),
     ("videoDuration", f.duration), ("videoLicense", f.license)]
  }

  /** Two image filters given, the others left null. */
  lemma ImageFilterExample(day: string, red: string)
    requires ',' !in day && ',' !in red
    ensures SplitOn(',', FilterString(ImageFields(ImageFilters(Some(day), None, Some(red), None, None, None))))
            == ["time:" + day, "color:" + red]
  {
    var fields := ImageFields(ImageFilters(Some(day), None, Some(red), None, None, None));
    TwoImageFields(day, red);
    FilterSplits(fields);
  }

  /** The segments of the two filters, none holding a comma. */
  lemma TwoImageFields(day: string, red: string)
    requires ',' !in day && ',' !in red
    ensures var fields := ImageFields(ImageFilters(Some(day), None, Some(red), None, None, None));
      && Present(fields) == ["time:" + day, "color:" + red]
      && forall k :: 0 <= k < |fields| ==> ',' !in fields[k].0 && (fields[k].1.Some? ==> ',' !in fields[k].1.value)
  {
    TwoImagePresent(day, red);
    ImageFieldsNoComma(ImageFilters(Some(day), None, Some(red), None, None, None));
  }

  lemma TwoImagePresent(day: string, red: string)
    ensures Present(ImageFields(ImageFilters(Some(day), None, Some(red), None, None, None))) == ["time:" + day, "color:" + red]
  {
    var none: Option<string> := None;
    var t3: seq<Field> := [("type", none), ("layout", none), ("license", none)];
    assert Present(t3[1..][1..]) == [] by {
      assert t3[1..][1..] == [("license", none)] && t3[1..][1..][1..] == [];
    }
    assert Present(t3[1..]) == [];
    assert Present(t3) == [];
    var t2: seq<Field> := [("color", Some(red))] + t3;
    assert t2[1..] == t3;
    var t1: seq<Field> := [("size", none)] + t2;
    assert t1[1..] == t2;
    var fields: seq<Field> := [("time", Some(day))] + t1;
    assert fields[1..] == t1;
    assert fields == ImageFields(ImageFilters(Some(day), None, Some(red), None, None, None));
    assert Present(t2) == ["color" + ":" + red];
    assert Present(t1) == ["color" + ":" + red];
    assert Present(fields) == ["time" + ":" + day, "color" + ":" + red];
    assert "time" + ":" + day == "time:" + day && "color" + ":" + red == "color:" + red;
  }

  /** The image field names hold no comma, and neither do the given values
      when the caller's do not. */
  lemma ImageFieldsNoComma(f: ImageFilters)
    requires f.timelimit.Some? ==> ',' !in f.timelimit.value
    requires f.size.Some? ==> ',' !in f.size.value
    requires f.color.Some? ==> ',' !in f.color.value
    requires f.kind.Some? ==> ',' !in f.kind.value
    requires f.layout.Some? ==> ',' !in f.layout.value
    requires f.license.Some? ==> ',' !in f.license.value
    ensures var fields := ImageFields(f);
      forall k :: 0 <= k < |fields| ==> ',' !in fields[k].0 && (fields[k].1.Some? ==> ',' !in fields[k].1.value)
  {
    var fields := ImageFields(f);
    forall k | 0 <= k < |fields|
      ensures ',' !in fields[k].0 && (fields[k].1.Some? ==> ',' !in fields[k].1.value)
    {
      assert k == 0 || k == 1 || k == 2 || k == 3 || k == 4 || k == 5;
    }
  }

  /** No video filter given: the filter string is empty. */
  lemma VideoFilterNone()
    ensures FilterString(VideoFields(VideoFilters(None, None, None, None))) == []
  {
    NonEmptyCandidates(VideoFields(VideoFilters(None, None, None, None)));
  }

  /** Safesearch levels of the image search. */
  const ImageSafesearch: map<string, string> := map["on" := "1", "moderate" := "1", "off" := "-1"]

  /** Safesearch levels of the video and news searches. */
  const VideoSafesearch: map<string, string> := map["on" := "1", "moderate" := "-1", "off" := "-2"]

  /** The `p` parameter: the level of the lower-cased safesearch name; an
      unknown name is a missing key. */
  function SafesearchValue(table: map<string, string>, safesearch: string): (r: Result<string>)
    ensures r.Ok? <==> AsciiLower(safesearch) in table
    ensures r.Fail? ==> r.error == RuntimeError(KeyNotFound)
    ensures r.Ok? ==> r.value in table.Values
  {
    var key := AsciiLower(safesearch);
    if key in table then Ok(table[key]) else Fail(RuntimeError(KeyNotFound))
  }

  /** The two tables: images map on, moderate and off to 1, 1 and -1; videos
      and news to 1, -1 and -2; the names are matched without regard to
      ASCII case, and nothing else is accepted. */
  lemma SafesearchTables(safesearch: string)
    ensures AsciiLower(safesearch) == "on" ==>
      SafesearchValue(ImageSafesearch, safesearch) == Ok("1") && SafesearchValue(VideoSafesearch, safesearch) == Ok("1")
    ensures AsciiLower(safesearch) == "moderate" ==>
      SafesearchValue(ImageSafesearch, safesearch) == Ok("1") && SafesearchValue(VideoSafesearch, safesearch) == Ok("-1")
    ensures AsciiLower(safesearch) == "off" ==>
      SafesearchValue(ImageSafesearch, safesearch) == Ok("-1") && SafesearchValue(VideoSafesearch, safesearch) == Ok("-2")
    ensures AsciiLower(safesearch) !in {"on", "moderate", "off"} ==>
      SafesearchValue(ImageSafesearch, safesearch).Fail? && SafesearchValue(VideoSafesearch, safesearch).Fail?
  {
  }

  lemma SafesearchIgnoresCase()
    ensures SafesearchValue(VideoSafesearch, "Moderate") == Ok("-1")
    ensures SafesearchValue(ImageSafesearch, "OFF") == Ok("-1")
  {
    LowerOf("Moderate", "moderate");
    LowerOf("OFF", "off");
  }

  lemma LowerOf(s: string, t: string)
    requires |s| == |t| && forall i :: 0 <= i < |s| ==> LowerChar(s[i]) == t[i]
    ensures AsciiLower(s) == t
  {
  }

  // ---------------------------------------------------------------------
  // The token and the payloads

  /** `GetVqd`: the search page for the query, and the token in it. */
  function GetVqd(home: Reply<string>): (r: Result<string>)
    ensures GetUrl(home).Fail? ==> r == Fail(GetUrl(home).error)
    ensures GetUrl(home).Ok? ==> r == ExtractVqd(home.resp.body)
  {
    var resp :- GetUrl(home);
    ExtractVqd(resp.body)
  }

  /** The first request of the image and video searches. */
  function MediaPayload(keywords: string, region: string, vqd: string, filter: string, level: string): (r: Payload)
    ensures r.Keys == {"l", "o", "q", "vqd", "f", "p"}
    ensures r["l"] == region && r["o"] == "json" && r["q"] == keywords
    ensures r["vqd"] == vqd && r["f"] == filter && r["p"] == level
  {
    map["l" := region, "o" := "json", "q" := keywords, "vqd" := vqd, "f" := filter, "p" := level]
  }

  /** The first request of the news search. */
  function NewsPayload(keywords: string, region: string, vqd: string, level: string, timelimit: Option<string>): (r: Payload)
    ensures r.Keys == {"l", "o", "noamp", "q", "vqd", "p"} + (if IsNullOrEmpty(timelimit) then {} else {"df"})
    ensures r["l"] == region && r["o"] == "json" && r["noamp"] == "1" && r["q"] == keywords
    ensures r["vqd"] == vqd && r["p"] == level
  {
    WithTimelimit(map["l" := region, "o" := "json", "noamp" := "1", "q" := keywords, "vqd" := vqd, "p" := level], timelimit)
  }

  // ---------------------------------------------------------------------
  // Images

  const ImagePageBound: nat := 5
  const VideoPageBound: nat := 8
  const NewsPageBound: nat := 5

  /** An image record: its `image` field (absent, null or a string) and the
      fields copied into the result. */
  datatype ImageRecord = ImageRecord(
    image: Option<Option<string>>, title: string, thumbnail: string, url: string,
    height: string, width: string, source: string)

  datatype ImageItem = ImageItem(
    title: string, image: string, thumbnail: string, url: string,
    height: string, width: string, source: string)

  /** An image counts under its image URL; a null one is skipped and a
      missing one is a missing key. */
  function ImageJudge(r: ImageRecord): (v: Verdict)
    ensures v.Accept? <==> r.image.Some? && r.image.value.Some?
    ensures v.Accept? ==> v.key == r.image.value.value
    ensures v.Abort? <==> r.image.None?
    ensures v.Abort? ==> v.error == RuntimeError(KeyNotFound)
  {
    match r.image
    case None => Abort(RuntimeError(KeyNotFound))
    case Some(None) => Skip
    case Some(Some(url)) => Accept(url)
  }

  /** The result of an accepted image record: its image URL, the key, is
      normalised, as are its thumbnail and page URLs. */
  function ImageEmit(d: Decoders): (e: ImageRecord -> ImageItem)
    ensures forall r :: ImageJudge(r).Accept? ==> ImageFrom(d)(ImageJudge(r).key, e(r))
    ensures forall r :: e(r).thumbnail == NormalizeUrl(Some(r.thumbnail), d) && e(r).url == NormalizeUrl(Some(r.url), d)
  {
    (r: ImageRecord) =>
      ImageItem(r.title, NormalizeUrl(if r.image.Some? then r.image.value else None, d),
                NormalizeUrl(Some(r.thumbnail), d), NormalizeUrl(Some(r.url), d), r.height, r.width, r.source)
  }

  /** A result's image is its key, normalised. */
  function ImageFrom(d: Decoders): (string, ImageItem) -> bool {
    (k: string, item: ImageItem) => item.image == NormalizeUrl(Some(k), d)
  }

  function ImageEndpoint(d: Decoders): Endpoint<Payload, string, ImageRecord, ImageItem> {
    Endpoint(ImagePageBound, (cap, acc, recs) => KeyedScan(ImageJudge, ImageEmit(d), cap, acc, recs), NextCursor)
  }

  /** `Images`: an empty query is refused; the token is fetched, then the
      safesearch name looked up, before the first result page is asked for. */
  function Images(keywords: string, region: string, safesearch: string, filters: ImageFilters, cap: Option<int>,
                  d: Decoders, home: Reply<string>, server: (nat, Payload) -> Reply<JsonDoc<ImageRecord>>): (w: Walked<Payload, ImageItem>)
    ensures keywords == [] ==> w == Walked([], Fail(ArgumentError("keywords")))
    ensures keywords != [] && GetVqd(home).Fail? ==> w == Walked([], Fail(GetVqd(home).error))
    ensures w.sent == [] <==> keywords == [] || GetVqd(home).Fail? || SafesearchValue(ImageSafesearch, safesearch).Fail?
    ensures w.sent != [] ==> w.sent[0] == MediaPayload(keywords, region, GetVqd(home).value,
                                                      FilterString(ImageFields(filters)),
                                                      SafesearchValue(ImageSafesearch, safesearch).value)
    ensures |w.sent| <= ImagePageBound
    ensures cap.None? ==> |w.sent| <= 1
  {
    if keywords == [] then Walked([], Fail(ArgumentError("keywords")))
    else match GetVqd(home)
      case Fail(e) => Walked([], Fail(e))
      case Ok(vqd) =>
        match SafesearchValue(ImageSafesearch, safesearch)
        case Fail(e) => Walked([], Fail(e))
        case Ok(level) =>
          Search(ImageEndpoint(d), JsonServer(server), cap,
                 MediaPayload(keywords, region, vqd, FilterString(ImageFields(filters)), level))
  }

  /** The image search repeats no image, respects the cap, gives each result
      its own image URL normalised, and varies its requests only in `s`. */
  lemma ImagesResults(keywords: string, region: string, safesearch: string, filters: ImageFilters, cap: Option<int>,
                      d: Decoders, home: Reply<string>, server: (nat, Payload) -> Reply<JsonDoc<ImageRecord>>)
    ensures var w := Images(keywords, region, safesearch, filters, cap, d, home, server);
      && (w.outcome.Ok? ==>
            && Unique(w.outcome.value)
            && AllResults(w.outcome.value, ImageFrom(d))
            && (cap.Some? ==> |w.outcome.value.items| <= Max(cap.value, 1)))
      && (forall i :: 0 < i < |w.sent| ==> w.sent[i].Keys == w.sent[0].Keys + {"s"})
  {
    var w := Images(keywords, region, safesearch, filters, cap, d, home, server);
    if w.sent != [] {
      var ep := ImageEndpoint(d);
      var payload := w.sent[0];
      KeyedSound(ImageJudge, ImageEmit(d));
      KeyedKeeps(ImageJudge, ImageEmit(d), ImageFrom(d));
      WalkUnique(ep, JsonServer(server), cap, payload, NoResults(), []);
      WalkKeeps(ep, JsonServer(server), cap, payload, NoResults(), [], ImageFrom(d));
      WalkChains(ep, JsonServer(server), cap, payload, NoResults(), []);
      forall i | 0 < i < |w.sent| ensures w.sent[i].Keys == w.sent[0].Keys + {"s"} {
        RequestsDifferInCursor(ep, w.sent, i + 1);
      }
    }
  }

  // ---------------------------------------------------------------------
  // Videos

  /** A video record is passed through as it is: a string-valued object. */
  type VideoRecord = map<string, string>

  /** A video counts under its `content` field; a record without one is a
      missing key. */
  function VideoJudge(r: VideoRecord): (v: Verdict)
    ensures v.Accept? <==> "content" in r
    ensures v.Accept? ==> v.key == r["content"]
    ensures v.Abort? ==> v.error == RuntimeError(KeyNotFound)
  {
    if "content" in r then Accept(r["content"]) else Abort(RuntimeError(KeyNotFound))
  }

  function VideoEmit(r: VideoRecord): VideoRecord {
    r
  }

  /** A result's `content` is its key. */
  function ContentKey(k: string, item: VideoRecord): bool {
    "content" in item && item["content"] == k
  }

  function VideoEndpoint(): Endpoint<Payload, string, VideoRecord, VideoRecord> {
    Endpoint(VideoPageBound, (cap, acc, recs) => KeyedScan(VideoJudge, VideoEmit, cap, acc, recs), NextCursor)
  }

  /** `Videos`: as `Images`, with the video filters and table and up to 8 pages. */
  function Videos(keywords: string, region: string, safesearch: string, filters: VideoFilters, cap: Option<int>,
                  home: Reply<string>, server: (nat, Payload) -> Reply<JsonDoc<VideoRecord>>): (w: Walked<Payload, VideoRecord>)
    ensures keywords == [] ==> w == Walked([], Fail(ArgumentError("keywords")))
    ensures keywords != [] && GetVqd(home).Fail? ==> w == Walked([], Fail(GetVqd(home).error))
    ensures w.sent == [] <==> keywords == [] || GetVqd(home).Fail? || SafesearchValue(VideoSafesearch, safesearch).Fail?
    ensures w.sent != [] ==> w.sent[0] == MediaPayload(keywords, region, GetVqd(home).value,
                                                      FilterString(VideoFields(filters)),
                                                      SafesearchValue(VideoSafesearch, safesearch).value)
    ensures |w.sent| <= VideoPageBound
    ensures cap.None? ==> |w.sent| <= 1
  {
    if keywords == [] then Walked([], Fail(ArgumentError("keywords")))
    else match GetVqd(home)
      case Fail(e) => Walked([], Fail(e))
      case Ok(vqd) =>
        match SafesearchValue(VideoSafesearch, safesearch)
        case Fail(e) => Walked([], Fail(e))
        case Ok(level) =>
          Search(VideoEndpoint(), JsonServer(server), cap,
                 MediaPayload(keywords, region, vqd, FilterString(VideoFields(filters)), level))
  }

  /** No two video results share a `content`, and the cap is respected. */
  lemma VideosResults(keywords: string, region: string, safesearch: string, filters: VideoFilters, cap: Option<int>,
                      home: Reply<string>, server: (nat, Payload) -> Reply<JsonDoc<VideoRecord>>)
    ensures var w := Videos(keywords, region, safesearch, filters, cap, home, server);
      w.outcome.Ok? ==>
        && (forall i :: 0 <= i < |w.outcome.value.items| ==> "content" in w.outcome.value.items[i])
        && (forall i, j :: 0 <= i < j < |w.outcome.value.items| ==>
              w.outcome.value.items[i]["content"] != w.outcome.value.items[j]["content"])
        && (cap.Some? ==> |w.outcome.value.items| <= Max(cap.value, 1))
  {
    var w := Videos(keywords, region, safesearch, filters, cap, home, server);
    if w.sent != [] {
      var ep := VideoEndpoint();
      var payload := w.sent[0];
      KeyedSound(VideoJudge, VideoEmit);
      KeyedKeeps(VideoJudge, VideoEmit, ContentKey);
      WalkUnique(ep, JsonServer(server), cap, payload, NoResults(), []);
      WalkKeeps(ep, JsonServer(server), cap, payload, NoResults(), [], ContentKey);
      if w.outcome.Ok? {
        var c := w.outcome.value;
        assert forall i :: 0 <= i < |c.items| ==> ContentKey(c.keys[i], c.items[i]);
      }
    }
  }

  /** With a cap, a server whose pages hold no video but always link a next
      page is asked for exactly eight pages. */
  lemma VideosReachEight(keywords: string, region: string, safesearch: string, filters: VideoFilters, cap: int,
                         home: Reply<string>, server: (nat, Payload) -> Reply<JsonDoc<VideoRecord>>, next: string)
    requires keywords != [] && GetVqd(home).Ok? && SafesearchValue(VideoSafesearch, safesearch).Ok?
    requires Contains(next, CursorMark)
    requires forall n, p :: server(n, p) == Answered(Response(OK, map[], JsonDoc([], Some(Some(next)))))
    ensures var w := Videos(keywords, region, safesearch, filters, Some(cap), home, server);
      |w.sent| == VideoPageBound && w.outcome == Ok(NoResults())
  {
    var payload := MediaPayload(keywords, region, GetVqd(home).value, FilterString(VideoFields(filters)),
                                SafesearchValue(VideoSafesearch, safesearch).value);
    VideoSearchReachesEight(payload, cap, server, next);
  }

  /** The video walk from any first request, on such a server. */
  lemma VideoSearchReachesEight(payload: Payload, cap: int, server: (nat, Payload) -> Reply<JsonDoc<VideoRecord>>, next: string)
    requires Contains(next, CursorMark)
    requires forall n, p :: server(n, p) == Answered(Response(OK, map[], JsonDoc([], Some(Some(next)))))
    ensures var w := Search(VideoEndpoint(), JsonServer(server), Some(cap), payload);
      |w.sent| == VideoPageBound && w.outcome == Ok(NoResults())
  {
    CursorOfSelects(next);
    assert next != [];
    forall n, p ensures JsonServer(server)(n, p) == Answered(Response(OK, map[], Page(false, [], Some(next), None))) {
      assert server(n, p) == Answered(Response(OK, map[], JsonDoc([], Some(Some(next)))));
    }
    WalkReachesBound(VideoEndpoint(), JsonServer(server), cap, payload, NoResults(), [], next);
  }

  /** A first page with a null `next` fails the search, with or without a
      cap, unless its records fill the cap first. */
  lemma NullNextFails(payload: Payload, cap: Option<int>, server: (nat, Payload) -> Reply<JsonDoc<VideoRecord>>,
                      headers: map<string, seq<string>>)
    requires server(0, payload) == Answered(Response(OK, headers, JsonDoc([], Some(None))))
    ensures Search(VideoEndpoint(), JsonServer(server), cap, payload) == Walked([payload], Fail(RuntimeError(NullReference)))
  {
    assert JsonServer(server)(0, payload) == Answered(Response(OK, headers, Page(false, [], None, Some(RuntimeError(NullReference)))));
  }

  // ---------------------------------------------------------------------
  // News

  /** A news record: its `url` (absent, JSON null, or a string) and the
      fields copied into the result; the date is kept as given. */
  datatype NewsRecord = NewsRecord(
    url: Option<Option<string>>, date: string, title: string, excerpt: string, image: Option<string>, source: string)

  datatype NewsItem = NewsItem(
    date: string, title: string, body: string, url: string, image: Option<string>, source: string)

  /** A news story counts under its URL.  A record without a "url" key is a
      missing key; a null one fails when its text is asked for. */
  function NewsJudge(r: NewsRecord): (v: Verdict)
    ensures v.Accept? <==> r.url.Some? && r.url.value.Some?
    ensures v.Accept? ==> v.key == r.url.value.value
    ensures r.url.None? ==> v == Abort(RuntimeError(KeyNotFound))
    ensures r.url == Some(None) ==> v == Abort(RuntimeError(NullReference))
    ensures !v.Skip?
  {
    match r.url
    case None => Abort(RuntimeError(KeyNotFound))
    case Some(None) => Abort(RuntimeError(NullReference))
    case Some(Some(u)) => Accept(u)
  }

  /** The result of an accepted news record: its URL, the key, normalised,
      the excerpt normalised into the body, and the image, when present,
      normalised. */
  function NewsEmit(d: Decoders): (e: NewsRecord -> NewsItem)
    ensures forall r :: NewsJudge(r).Accept? ==> NewsFrom(d)(NewsJudge(r).key, e(r))
    ensures forall r :: e(r).body == Normalize(Some(r.excerpt), d) && (e(r).image.Some? <==> r.image.Some?)
  {
    (r: NewsRecord) =>
      NewsItem(r.date, r.title, Normalize(Some(r.excerpt), d), NormalizeUrl(if r.url.Some? then r.url.value else None, d),
               if r.image.Some? then Some(NormalizeUrl(r.image, d)) else None, r.source)
  }

  /** A result's URL is its key, normalised. */
  function NewsFrom(d: Decoders): (string, NewsItem) -> bool {
    (k: string, item: NewsItem) => item.url == NormalizeUrl(Some(k), d)
  }

  function NewsEndpoint(d: Decoders): Endpoint<Payload, string, NewsRecord, NewsItem> {
    Endpoint(NewsPageBound, (cap, acc, recs) => KeyedScan(NewsJudge, NewsEmit(d), cap, acc, recs), NextCursor)
  }

  /** `News`: as `Images`, with the news table and `df` for a time limit. */
  function News(keywords: string, region: string, safesearch: string, timelimit: Option<string>, cap: Option<int>,
                d: Decoders, home: Reply<string>, server: (nat, Payload) -> Reply<JsonDoc<NewsRecord>>): (w: Walked<Payload, NewsItem>)
    ensures keywords == [] ==> w == Walked([], Fail(ArgumentError("keywords")))
    ensures keywords != [] && GetVqd(home).Fail? ==> w == Walked([], Fail(GetVqd(home).error))
    ensures w.sent == [] <==> keywords == [] || GetVqd(home).Fail? || SafesearchValue(VideoSafesearch, safesearch).Fail?
    ensures w.sent != [] ==> w.sent[0] == NewsPayload(keywords, region, GetVqd(home).value,
                                                     SafesearchValue(VideoSafesearch, safesearch).value, timelimit)
    ensures |w.sent| <= NewsPageBound
    ensures cap.None? ==> |w.sent| <= 1
  {
    if keywords == [] then Walked([], Fail(ArgumentError("keywords")))
    else match GetVqd(home)
      case Fail(e) => Walked([], Fail(e))
      case Ok(vqd) =>
        match SafesearchValue(VideoSafesearch, safesearch)
        case Fail(e) => Walked([], Fail(e))
        case Ok(level) => Search(NewsEndpoint(d), JsonServer(server), cap, NewsPayload(keywords, region, vqd, level, timelimit))
  }

  /** The news search repeats no URL, respects the cap and gives each result
      its own URL normalised. */
  lemma NewsResults(keywords: string, region: string, safesearch: string, timelimit: Option<string>, cap: Option<int>,
                    d: Decoders, home: Reply<string>, server: (nat, Payload) -> Reply<JsonDoc<NewsRecord>>)
    ensures var w := News(keywords, region, safesearch, timelimit, cap, d, home, server);
      w.outcome.Ok? ==>
        && Unique(w.outcome.value)
        && AllResults(w.outcome.value, NewsFrom(d))
        && (cap.Some? ==> |w.outcome.value.items| <= Max(cap.value, 1))
  {
    var w := News(keywords, region, safesearch, timelimit, cap, d, home, server);
    if w.sent != [] {
      var ep := NewsEndpoint(d);
      var payload := w.sent[0];
      KeyedSound(NewsJudge, NewsEmit(d));
      KeyedKeeps(NewsJudge, NewsEmit(d), NewsFrom(d));
      WalkUnique(ep, JsonServer(server), cap, payload, NoResults(), []);
      WalkKeeps(ep, JsonServer(server), cap, payload, NoResults(), [], NewsFrom(d));
    }
  }
}
