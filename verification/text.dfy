/** The text search: the html backend, the lite backend with its row state
    machine, and the fallback between the two.
 */
module TextSearch {
  import opened Outcomes
  import opened Strings
  import opened Utils
  import opened Transport
  import opened Paging
  import opened Forms

  /** One text result: title, link and snippet. */
  datatype TextItem = TextItem(title: string, href: string, body: string)

  const GooglePrefix: string := "http://www.google.com/search?q="
  const AdPrefix: string := "https://duckduckgo.com/y.js?ad_domain"

  /** Links that are not results: Google searches and sponsored links. */
  predicate IsAdLink(href: string) {
    StartsWith(href, GooglePrefix) || StartsWith(href, AdPrefix)
  }

  /** A result whose link is neither a Google search nor a sponsored link. */
  function KeyNotAd(href: string, item: TextItem): bool {
    !IsAdLink(href)
  }

  const HtmlPageBound: nat := 5
  const LitePageBound: nat := 5
  const NoHtmlResults: string := "No  results."
  const NoLiteResults: string := "No more results."

  // ---------------------------------------------------------------------
  // The html backend

  /** A result block of the html page: the href of its first link, the text
      of its heading link, and the text nodes under its first link. */
  datatype HtmlBlock = HtmlBlock(href: Option<string>, title: Option<string>, texts: seq<string>)

  /** An html page: its text, its result blocks (none when the page has no
      block at all), and its next-page element with the hidden inputs in it. */
  datatype HtmlDoc = HtmlDoc(text: string, blocks: Option<seq<HtmlBlock>>, nav: Option<Option<seq<(string, string)>>>)

  function HtmlPage(doc: HtmlDoc): (r: Page<HtmlBlock, Option<seq<(string, string)>>>)
    ensures r.exhausted <==> Contains(doc.text, NoHtmlResults) || doc.blocks.None?
    ensures !r.exhausted ==> r.records == doc.blocks.value
    ensures r.cursor == doc.nav
  {
    Page(Contains(doc.text, NoHtmlResults) || doc.blocks.None?, doc.blocks.GetOr([]), doc.nav, None)
  }

  /** A block counts under its href unless it has none or links elsewhere. */
  function HtmlJudge(b: HtmlBlock): (v: Verdict)
    ensures v.Accept? <==> b.href.Some? && !IsAdLink(b.href.value)
    ensures v.Accept? ==> v.key == b.href.value
    ensures !v.Abort?
  {
    if b.href.Some? && !IsAdLink(b.href.value) then Accept(b.href.value) else Skip
  }

  /** The result a block yields: decoded title, link and snippet text. */
  function HtmlItem(d: Decoders, b: HtmlBlock): TextItem {
    TextItem(Normalize(Some(b.title.GetOr([])), d), NormalizeUrl(b.href, d), Normalize(Some(Concat(b.texts)), d))
  }

  function HtmlEmit(d: Decoders): HtmlBlock -> TextItem {
    (b: HtmlBlock) => HtmlItem(d, b)
  }

  function HtmlPayload(keywords: string, region: string, timelimit: Option<string>): (r: Payload)
    ensures "q" in r && r["q"] == keywords && "b" in r && r["b"] == [] && "kl" in r && r["kl"] == region
    ensures r.Keys == {"q", "b", "kl"} + (if IsNullOrEmpty(timelimit) then {} else {"df"})
  {
    WithTimelimit(map["q" := keywords, "b" := [], "kl" := region], timelimit)
  }

  /** The server's replies seen as pages. */
  function HtmlServer(server: (nat, Payload) -> Reply<HtmlDoc>): (nat, Payload) -> Reply<Page<HtmlBlock, Option<seq<(string, string)>>>> {
    (n: nat, p: Payload) => MapReply(server(n, p), HtmlPage)
  }

  function HtmlEndpoint(d: Decoders): Endpoint<Payload, Option<seq<(string, string)>>, HtmlBlock, TextItem> {
    Endpoint(HtmlPageBound, (cap, acc, recs) => KeyedScan(HtmlJudge, HtmlEmit(d), cap, acc, recs), NextForm)
  }

  /** `TextHtml`: an empty query is refused before any request. */
  function TextHtml(keywords: string, region: string, timelimit: Option<string>, cap: Option<int>,
                    d: Decoders, server: (nat, Payload) -> Reply<HtmlDoc>): (w: Walked<Payload, TextItem>)
    ensures keywords == [] <==> w.sent == []
    ensures keywords == [] ==> w.outcome == Fail(ArgumentError("keywords"))
    ensures keywords != [] ==> w.sent[0] == HtmlPayload(keywords, region, timelimit)
    ensures |w.sent| <= HtmlPageBound
    ensures cap.None? ==> |w.sent| <= 1
  {
    if keywords == [] then Walked([], Fail(ArgumentError("keywords")))
    else Search(HtmlEndpoint(d), HtmlServer(server), cap, HtmlPayload(keywords, region, timelimit))
  }

  /** The html search's results repeat no link, never include an ad or a
      Google link, and respect the cap. */
  lemma TextHtmlResults(keywords: string, region: string, timelimit: Option<string>, cap: Option<int>,
                        d: Decoders, server: (nat, Payload) -> Reply<HtmlDoc>)
    ensures var w := TextHtml(keywords, region, timelimit, cap, d, server);
      w.outcome.Ok? ==>
        && Unique(w.outcome.value)
        && AllResults(w.outcome.value, KeyNotAd)
        && (cap.Some? ==> |w.outcome.value.items| <= Max(cap.value, 1))
  {
    if keywords != [] {
      var ep := HtmlEndpoint(d);
      var payload := HtmlPayload(keywords, region, timelimit);
      KeyedSound(HtmlJudge, HtmlEmit(d));
      KeyedKeeps(HtmlJudge, HtmlEmit(d), KeyNotAd);
      WalkUnique(ep, HtmlServer(server), cap, payload, NoResults(), []);
      WalkKeeps(ep, HtmlServer(server), cap, payload, NoResults(), [], KeyNotAd);
    }
  }

  // ---------------------------------------------------------------------
  // The lite backend

  /** The link of a lite-table row: its href, if any, and its text. */
  datatype LiteLink = LiteLink(href: Option<string>, text: string)

  /** A row of the lite result table: its `data-row` number (None when the
      attribute is not a 32-bit integer; a missing attribute reads as 0), its
      first link, and the text of its snippet cell. */
  datatype LiteRow = LiteRow(dataRow: Option<int>, link: Option<LiteLink>, snippet: Option<string>)

  /** A lite page: its text, the rows of its last table (None without any),
      and the next-page form with its hidden inputs. */
  datatype LiteDoc = LiteDoc(text: string, rows: Option<seq<LiteRow>>, form: Option<Option<seq<(string, string)>>>)

  function LitePage(doc: LiteDoc): (r: Page<LiteRow, Option<seq<(string, string)>>>)
    ensures r.exhausted <==> Contains(doc.text, NoLiteResults) || doc.rows.None?
    ensures !r.exhausted ==> r.records == doc.rows.value
    ensures r.cursor == doc.form
  {
    Page(Contains(doc.text, NoLiteResults) || doc.rows.None?, doc.rows.GetOr([]), doc.form, None)
  }

  /** C#'s `%`, which truncates toward zero: the remainder takes the sign of
      the dividend. */
  function TruncRem(a: int, b: int): (r: int)
    requires b > 0
    ensures -b < r < b
    ensures a >= 0 ==> r == a % b
    ensures a < 0 ==> r == -TruncRem(-a, b)
    decreases if a < 0 then 1 else 0
  {
    if a >= 0 then a % b else -((-a) % b)
  }

  /** `data-row % 4 + 1`: the row's place in its four-row result group. */
  function RowIndex(dataRow: int): (r: int)
    ensures -2 <= r <= 4
    ensures r == 1 <==> dataRow % 4 == 0
    ensures r == 2 <==> dataRow >= 0 && dataRow % 4 == 1
  {
    TruncRem(dataRow, 4) + 1
  }

  /** The href of the result being read, and its title. */
  datatype LiteState = LiteState(href: Option<string>, title: string)

  const LiteStart: LiteState := LiteState(None, [])

  /** The state is consistent with the results: the pending href is cached
      but not yet a result. */
  ghost predicate LiteInv(acc: Collected<TextItem>, st: LiteState) {
    Unique(acc) && (st.href.Some? ==> st.href.value in acc.seen && st.href.value !in acc.keys)
  }

  function LiteItem(d: Decoders, st: LiteState, row: LiteRow): TextItem
    requires st.href.Some?
  {
    var body := if row.snippet.Some? then Trim(row.snippet.value) else [];
    TextItem(Normalize(Some(st.title), d), NormalizeUrl(st.href, d), Normalize(Some(body), d))
  }

  /** The state after a first row: its link, unless it has none, is cached or
      is an ad; then the link is cached. */
  function LiteLinkRow(acc: Collected<TextItem>, st: LiteState, row: LiteRow): (r: (Collected<TextItem>, LiteState))
    ensures r.1.href.Some? <==> row.link.Some? && row.link.value.href.Some?
                                && row.link.value.href.value !in acc.seen && !IsAdLink(row.link.value.href.value)
    ensures r.1.href.Some? ==> r.1.href == row.link.value.href && r.0.seen == acc.seen + {r.1.href.value}
    ensures r.1.href.None? ==> r.0 == acc
  {
    var href := if row.link.Some? then row.link.value.href else None;
    if href.None? || href.value in acc.seen || IsAdLink(href.value) then (acc, LiteState(None, st.title))
    else (acc.(seen := acc.seen + {href.value}), LiteState(href, row.link.value.text))
  }

  /** The lite row state machine over one page.  A first row (index 1) picks
      up a link; a second row (index 2) turns the pending link into a result
      and clears it; other rows change nothing.  The scan stops at the cap. */
  function LiteScan(d: Decoders, cap: Option<int>, acc: Collected<TextItem>, st: LiteState,
                    rows: seq<LiteRow>): (r: Result<Scanned<TextItem>>)
    ensures r.Ok? && LiteInv(acc, st) && Room(cap, |acc.items|) ==> ScanOk(cap, acc, r.value)
    ensures r.Ok? ==> Extends(acc, r.value.collected)
    ensures r.Ok? && (st.href.Some? ==> !IsAdLink(st.href.value)) ==>
              forall j :: |acc.keys| <= j < |r.value.collected.keys| ==> !IsAdLink(r.value.collected.keys[j])
    ensures r.Ok? && |acc.keys| == |acc.items| ==> |r.value.collected.keys| == |r.value.collected.items|
    ensures r.Fail? ==> r.error == RuntimeError(MalformedNumber) && exists i :: 0 <= i < |rows| && rows[i].dataRow.None?
    ensures (forall i :: 0 <= i < |rows| ==> rows[i].dataRow.Some?) ==> r.Ok?
    decreases |rows|
  {
    if rows == [] then Ok(Scanned(acc, false))
    else if rows[0].dataRow.None? then Fail(RuntimeError(MalformedNumber))
    else
      var index := RowIndex(rows[0].dataRow.value);
      if index == 1 then
        var (acc', st') := LiteLinkRow(acc, st, rows[0]);
        LiteScan(d, cap, acc', st', rows[1..])
      else if index == 2 && st.href.Some? then
        var acc' := Add(acc, st.href.value, LiteItem(d, st, rows[0]));
        if Full(cap, |acc'.items|) then Ok(Scanned(acc', true))
        else LiteScan(d, cap, acc', LiteState(None, st.title), rows[1..])
      else LiteScan(d, cap, acc, st, rows[1..])
  }

  /** The lite row loop as the source writes it: a second row turns the
      pending link into a result but leaves it pending, so a further second
      row before the next first row emits the same link again. */
  function LiteScanAsWritten(d: Decoders, cap: Option<int>, acc: Collected<TextItem>, st: LiteState,
                             rows: seq<LiteRow>): (r: Result<Scanned<TextItem>>)
    ensures r.Ok? ==> Extends(acc, r.value.collected)
    ensures r.Ok? && Room(cap, |acc.items|) ==> CapOk(cap, acc, r.value)
    ensures r.Ok? && (st.href.Some? ==> !IsAdLink(st.href.value)) ==>
              forall j :: |acc.keys| <= j < |r.value.collected.keys| ==> !IsAdLink(r.value.collected.keys[j])
    ensures r.Ok? && |acc.keys| == |acc.items| ==> |r.value.collected.keys| == |r.value.collected.items|
    ensures r.Fail? ==> r.error == RuntimeError(MalformedNumber) && exists i :: 0 <= i < |rows| && rows[i].dataRow.None?
    ensures (forall i :: 0 <= i < |rows| ==> rows[i].dataRow.Some?) ==> r.Ok?
    decreases |rows|
  {
    if rows == [] then Ok(Scanned(acc, false))
    else if rows[0].dataRow.None? then Fail(RuntimeError(MalformedNumber))
    else
      var index := RowIndex(rows[0].dataRow.value);
      if index == 1 then
        var (acc', st') := LiteLinkRow(acc, st, rows[0]);
        LiteScanAsWritten(d, cap, acc', st', rows[1..])
      else if index == 2 && st.href.Some? then
        var acc' := Add(acc, st.href.value, LiteItem(d, st, rows[0]));
        if Full(cap, |acc'.items|) then Ok(Scanned(acc', true))
        else LiteScanAsWritten(d, cap, acc', st, rows[1..])
      else LiteScanAsWritten(d, cap, acc, st, rows[1..])
  }

  /** A link row (data-row 0) followed by two snippet rows (data-row 1 and
      5, both of index 2): the loop as written returns the link twice, the
      corrected loop once. */
  lemma LiteDuplicateHref(d: Decoders, href: string, text: string)
    requires !IsAdLink(href)
    ensures var rows := [LiteRow(Some(0), Some(LiteLink(Some(href), text)), None),
                         LiteRow(Some(1), None, None), LiteRow(Some(5), None, None)];
      && LiteScanAsWritten(d, None, NoResults(), LiteStart, rows).Ok?
      && LiteScanAsWritten(d, None, NoResults(), LiteStart, rows).value.collected.keys == [href, href]
      && !Unique(LiteScanAsWritten(d, None, NoResults(), LiteStart, rows).value.collected)
      && LiteScan(d, None, NoResults(), LiteStart, rows).Ok?
      && LiteScan(d, None, NoResults(), LiteStart, rows).value.collected.keys == [href]
  {
    var rows := [LiteRow(Some(0), Some(LiteLink(Some(href), text)), None),
                 LiteRow(Some(1), None, None), LiteRow(Some(5), None, None)];
    assert RowIndex(0) == 1 && RowIndex(1) == 2 && RowIndex(5) == 2;
    var (acc1, st1) := LiteLinkRow(NoResults(), LiteStart, rows[0]);
    assert st1.href == Some(href);
    var acc2 := Add(acc1, href, LiteItem(d, st1, rows[1]));
    var acc3 := Add(acc2, href, LiteItem(d, st1, rows[2]));
    assert rows[1..] == [rows[1], rows[2]] && rows[1..][1..] == [rows[2]] && rows[1..][1..][1..] == [];
    assert LiteScanAsWritten(d, None, acc3, st1, []) == Ok(Scanned(acc3, false));
    assert LiteScanAsWritten(d, None, acc2, st1, [rows[2]]) == Ok(Scanned(acc3, false));
    assert LiteScanAsWritten(d, None, acc1, st1, rows[1..]) == Ok(Scanned(acc3, false));
    assert acc3.keys == [href, href];
    assert LiteScanAsWritten(d, None, NoResults(), LiteStart, rows) == Ok(Scanned(acc3, false));
    assert acc3.keys[0] == acc3.keys[1];
    var st2 := LiteState(None, st1.title);
    assert LiteScan(d, None, acc2, st2, [rows[2]]) == Ok(Scanned(acc2, false));
    assert LiteScan(d, None, acc1, st1, rows[1..]) == Ok(Scanned(acc2, false));
  }

  /** A lite page scan from a fresh state is a sound page scan that adds no
      ad or Google link. */
  lemma LiteSound(d: Decoders)
    ensures Sound(LiteEndpoint(d, Intended).scan)
    ensures ResultsKeep(LiteEndpoint(d, Intended).scan, KeyNotAd)
  {
    forall cap, acc: Collected<TextItem>, rows | AllResults(acc, KeyNotAd) && |acc.keys| == |acc.items|
                                                 && LiteScan(d, cap, acc, LiteStart, rows).Ok?
      ensures AllResults(LiteScan(d, cap, acc, LiteStart, rows).value.collected, KeyNotAd)
      ensures |LiteScan(d, cap, acc, LiteStart, rows).value.collected.keys| == |LiteScan(d, cap, acc, LiteStart, rows).value.collected.items|
    {
      var c := LiteScan(d, cap, acc, LiteStart, rows).value.collected;
      forall j | 0 <= j < |c.keys| && j < |c.items| ensures KeyNotAd(c.keys[j], c.items[j]) {
        if j < |acc.keys| { assert c.keys[j] == acc.keys[j]; }
      }
    }
  }

  function LitePayload(keywords: string, region: string, timelimit: Option<string>): (r: Payload)
    ensures "q" in r && r["q"] == keywords && "kl" in r && r["kl"] == region
    ensures r.Keys == {"q", "kl"} + (if IsNullOrEmpty(timelimit) then {} else {"df"})
  {
    WithTimelimit(map["q" := keywords, "kl" := region], timelimit)
  }

  function LiteServer(server: (nat, Payload) -> Reply<LiteDoc>): (nat, Payload) -> Reply<Page<LiteRow, Option<seq<(string, string)>>>> {
    (n: nat, p: Payload) => MapReply(server(n, p), LitePage)
  }

  /** The page scan of a reading: the row loop as written, or corrected. */
  function LitePageScan(d: Decoders, reading: Reading, cap: Option<int>, acc: Collected<TextItem>,
                        rows: seq<LiteRow>): Result<Scanned<TextItem>>
  {
    if reading.AsWritten? then LiteScanAsWritten(d, cap, acc, LiteStart, rows)
    else LiteScan(d, cap, acc, LiteStart, rows)
  }

  function LiteEndpoint(d: Decoders, reading: Reading): Endpoint<Payload, Option<seq<(string, string)>>, LiteRow, TextItem> {
    Endpoint(LitePageBound, (cap, acc, rows) => LitePageScan(d, reading, cap, acc, rows), NextForm)
  }

  /** The row loop as written keeps to the cap and adds no ad or Google link. */
  lemma LiteAsWrittenKept(d: Decoders)
    ensures Capped(LiteEndpoint(d, AsWritten).scan)
    ensures ResultsKeep(LiteEndpoint(d, AsWritten).scan, KeyNotAd)
  {
    forall cap, acc: Collected<TextItem>, rows | AllResults(acc, KeyNotAd) && |acc.keys| == |acc.items|
                                                 && LiteScanAsWritten(d, cap, acc, LiteStart, rows).Ok?
      ensures AllResults(LiteScanAsWritten(d, cap, acc, LiteStart, rows).value.collected, KeyNotAd)
    {
      var c := LiteScanAsWritten(d, cap, acc, LiteStart, rows).value.collected;
      forall j | 0 <= j < |c.keys| && j < |c.items| ensures KeyNotAd(c.keys[j], c.items[j]) {
        if j < |acc.keys| { assert c.keys[j] == acc.keys[j]; }
      }
    }
  }

  /** `TextLite`, in either reading: an empty query is refused before any request. */
  function TextLite(keywords: string, region: string, timelimit: Option<string>, cap: Option<int>, reading: Reading,
                    d: Decoders, server: (nat, Payload) -> Reply<LiteDoc>): (w: Walked<Payload, TextItem>)
    ensures keywords == [] <==> w.sent == []
    ensures keywords == [] ==> w.outcome == Fail(ArgumentError("keywords"))
    ensures keywords != [] ==> w.sent[0] == LitePayload(keywords, region, timelimit)
    ensures |w.sent| <= LitePageBound
    ensures cap.None? ==> |w.sent| <= 1
  {
    if keywords == [] then Walked([], Fail(ArgumentError("keywords")))
    else Search(LiteEndpoint(d, reading), LiteServer(server), cap, LitePayload(keywords, region, timelimit))
  }

  /** In both readings the lite search's results never include an ad or a
      Google link and respect the cap; corrected, they also repeat no link. */
  lemma TextLiteResults(keywords: string, region: string, timelimit: Option<string>, cap: Option<int>,
                        reading: Reading, d: Decoders, server: (nat, Payload) -> Reply<LiteDoc>)
    ensures var w := TextLite(keywords, region, timelimit, cap, reading, d, server);
      w.outcome.Ok? ==>
        && AllResults(w.outcome.value, KeyNotAd)
        && (cap.Some? ==> |w.outcome.value.items| <= Max(cap.value, 1))
        && (reading.Intended? ==> Unique(w.outcome.value))
  {
    if keywords != [] {
      var payload := LitePayload(keywords, region, timelimit);
      var ep := LiteEndpoint(d, reading);
      if reading.AsWritten? {
        LiteAsWrittenKept(d);
        WalkCapped(ep, LiteServer(server), cap, payload, NoResults(), []);
      } else {
        LiteSound(d);
        WalkUnique(ep, LiteServer(server), cap, payload, NoResults(), []);
      }
      WalkKeeps(ep, LiteServer(server), cap, payload, NoResults(), [], KeyNotAd);
    }
  }

  /** A server that answers every request with the page `doc`. */
  function OnePage<D>(doc: D): (nat, Payload) -> Reply<D> {
    (n: nat, p: Payload) => Answered(Response(OK, map[], doc))
  }

  /** End to end: a server whose one page holds a link row followed by two
      snippet rows.  Read as written the lite search returns that link twice;
      corrected, once. */
  lemma TextLiteRepeats(keywords: string, region: string, timelimit: Option<string>, d: Decoders,
                        href: string, text: string)
    requires keywords != [] && !IsAdLink(href)
    ensures var rows := [LiteRow(Some(0), Some(LiteLink(Some(href), text)), None),
                         LiteRow(Some(1), None, None), LiteRow(Some(5), None, None)];
      var server := OnePage(LiteDoc([], Some(rows), None));
      && TextLite(keywords, region, timelimit, None, AsWritten, d, server).outcome.Ok?
      && TextLite(keywords, region, timelimit, None, AsWritten, d, server).outcome.value.keys == [href, href]
      && TextLite(keywords, region, timelimit, None, Intended, d, server).outcome.Ok?
      && TextLite(keywords, region, timelimit, None, Intended, d, server).outcome.value.keys == [href]
  {
    var rows := [LiteRow(Some(0), Some(LiteLink(Some(href), text)), None),
                 LiteRow(Some(1), None, None), LiteRow(Some(5), None, None)];
    var server := OnePage(LiteDoc([], Some(rows), None));
    var payload := LitePayload(keywords, region, timelimit);
    LiteDuplicateHref(d, href, text);
    assert !Contains([], NoLiteResults) by {
      assert forall j :: !OccursAt([], NoLiteResults, j);
    }
    var doc := LiteDoc([], Some(rows), None);
    assert server(0, payload) == Answered(Response(OK, map[], doc));
    assert LitePage(doc) == Page(false, rows, None, None);
    assert LiteServer(server)(0, payload) == Answered(Response(OK, map[], Page(false, rows, None, None)));
  }

  // ---------------------------------------------------------------------
  // Backend fallback

  /** The backends tried, in order: "api" and "ecosia" stand for "auto", and
      "auto" tries html and lite in an order the caller's shuffle decides. */
  function Backends(backend: string, swap: bool): (r: seq<string>)
    ensures backend in {"auto", "api", "ecosia"} ==> r == (if swap then ["lite", "html"] else ["html", "lite"])
    ensures backend !in {"auto", "api", "ecosia"} ==> r == [backend]
  {
    var b := if backend == "api" || backend == "ecosia" then "auto" else backend;
    if b == "auto" then (if swap then ["lite", "html"] else ["html", "lite"]) else [b]
  }

  /** Try the backends in order: the first success is the answer; a failure
      is swallowed unless the failing backend is the last one, whose error is
      raised wrapped. */
  function Fallback<X>(order: seq<string>, i: nat, attempt: string -> Result<X>, none: X): (r: Result<X>)
    requires i <= |order|
    ensures r.Fail? ==> i < |order| && attempt(order[|order| - 1]).Fail?
                        && r.error == SearchError(Wrapped(attempt(order[|order| - 1]).error))
    ensures r.Ok? ==> r.value == none || exists k :: i <= k < |order| && attempt(order[k]) == r
    ensures i < |order| && attempt(order[i]).Ok? ==> r == attempt(order[i])
    decreases |order| - i
  {
    if i == |order| then Ok(none)
    else match attempt(order[i])
      case Ok(v) => Ok(v)
      case Fail(e) =>
        if order[i] == order[|order| - 1] then Fail(SearchError(Wrapped(e)))
        else Fallback(order, i + 1, attempt, none)
  }

  /** Over distinct backends: the answer is the first success, and the search
      fails only when every backend fails, with the last one's error. */
  lemma {:induction false} FallbackFirstSuccess<X>(order: seq<string>, i: nat, attempt: string -> Result<X>, none: X)
    requires i < |order|
    requires forall a, b :: 0 <= a < b < |order| ==> order[a] != order[b]
    ensures var r := Fallback(order, i, attempt, none);
      && (r.Ok? <==> exists k :: i <= k < |order| && attempt(order[k]).Ok?)
      && (r.Ok? ==> exists k :: i <= k < |order| && attempt(order[k]) == Ok(r.value)
                                && forall m :: i <= m < k ==> attempt(order[m]).Fail?)
      && (r.Fail? ==> r.error == SearchError(Wrapped(attempt(order[|order| - 1]).error)))
    decreases |order| - i
  {
    if attempt(order[i]).Fail? && i + 1 < |order| {
      assert order[i] != order[|order| - 1];
      FallbackFirstSuccess(order, i + 1, attempt, none);
    }
  }

  /** `Text`: the backends of `Backends` tried in order, each by `RunBackend`.
      It answers with the first backend that succeeds and fails, wrapping
      the last backend's error, only when every backend fails. */
  function Text(keywords: string, region: string, timelimit: Option<string>, backend: string, swap: bool,
                cap: Option<int>, reading: Reading, d: Decoders, html: (nat, Payload) -> Reply<HtmlDoc>,
                lite: (nat, Payload) -> Reply<LiteDoc>): (r: Result<seq<TextItem>>)
    ensures var order := Backends(backend, swap);
      var run := (b: string) => RunBackend(b, keywords, region, timelimit, cap, reading, d, html, lite);
      && (r.Ok? <==> exists k :: 0 <= k < |order| && run(order[k]).Ok?)
      && (r.Ok? ==> exists k :: 0 <= k < |order| && run(order[k]) == r && forall m :: 0 <= m < k ==> run(order[m]).Fail?)
      && (r.Fail? ==> r.error == SearchError(Wrapped(run(order[|order| - 1]).error)))
  {
    var order := Backends(backend, swap);
    var attempt := Attempt(keywords, region, timelimit, cap, reading, d, html, lite);
    FallbackFirstSuccess(order, 0, attempt, []);
    Fallback(order, 0, attempt, [])
  }

  function Attempt(keywords: string, region: string, timelimit: Option<string>, cap: Option<int>, reading: Reading,
                   d: Decoders, html: (nat, Payload) -> Reply<HtmlDoc>,
                   lite: (nat, Payload) -> Reply<LiteDoc>): string -> Result<seq<TextItem>>
  {
    (b: string) => RunBackend(b, keywords, region, timelimit, cap, reading, d, html, lite)
  }

  /** One backend's search, reduced to its results. */
  function RunBackend(b: string, keywords: string, region: string, timelimit: Option<string>, cap: Option<int>,
                      reading: Reading, d: Decoders, html: (nat, Payload) -> Reply<HtmlDoc>,
                      lite: (nat, Payload) -> Reply<LiteDoc>): (r: Result<seq<TextItem>>)
    ensures b == "html" ==> (r.Ok? <==> TextHtml(keywords, region, timelimit, cap, d, html).outcome.Ok?)
    ensures b == "html" && r.Ok? ==> r.value == TextHtml(keywords, region, timelimit, cap, d, html).outcome.value.items
    ensures b != "html" ==> (r.Ok? <==> TextLite(keywords, region, timelimit, cap, reading, d, lite).outcome.Ok?)
    ensures b != "html" && r.Ok? ==> r.value == TextLite(keywords, region, timelimit, cap, reading, d, lite).outcome.value.items
    ensures keywords == [] ==> r == Fail(ArgumentError("keywords"))
  {
    var w := if b == "html" then TextHtml(keywords, region, timelimit, cap, d, html)
             else TextLite(keywords, region, timelimit, cap, reading, d, lite);
    match w.outcome
    case Ok(c) => Ok(c.items)
    case Fail(e) => Fail(e)
  }

  /** With "auto", the text search answers with the first backend of the
      shuffled order that succeeds, and fails, wrapping the second backend's
      error, only when both fail. */
  lemma TextAuto(keywords: string, region: string, timelimit: Option<string>, swap: bool,
                 cap: Option<int>, reading: Reading, d: Decoders, html: (nat, Payload) -> Reply<HtmlDoc>,
                 lite: (nat, Payload) -> Reply<LiteDoc>)
    ensures var first := if swap then "lite" else "html";
      var second := if swap then "html" else "lite";
      var a := RunBackend(first, keywords, region, timelimit, cap, reading, d, html, lite);
      var b := RunBackend(second, keywords, region, timelimit, cap, reading, d, html, lite);
      var r := Text(keywords, region, timelimit, "auto", swap, cap, reading, d, html, lite);
      && (a.Ok? ==> r == a)
      && (a.Fail? ==> r == (if b.Ok? then b else Fail(SearchError(Wrapped(b.error)))))
  {
    var order := Backends("auto", swap);
    var attempt := Attempt(keywords, region, timelimit, cap, reading, d, html, lite);
    assert order[0] != order[|order| - 1];
    assert attempt(order[0]) == RunBackend(order[0], keywords, region, timelimit, cap, reading, d, html, lite);
    assert attempt(order[1]) == RunBackend(order[1], keywords, region, timelimit, cap, reading, d, html, lite);
    var tail := Fallback(order, 1, attempt, []);
    assert attempt(order[1]).Fail? ==> tail == Fail(SearchError(Wrapped(attempt(order[1]).error)));
  }

  /** An empty query fails every backend, so the text search fails wrapped. */
  lemma TextEmptyQuery(region: string, timelimit: Option<string>, backend: string, swap: bool,
                       cap: Option<int>, reading: Reading, d: Decoders, html: (nat, Payload) -> Reply<HtmlDoc>,
                       lite: (nat, Payload) -> Reply<LiteDoc>)
    ensures Text([], region, timelimit, backend, swap, cap, reading, d, html, lite) == Fail(SearchError(Wrapped(ArgumentError("keywords"))))
  {
    var order := Backends(backend, swap);
    var attempt := Attempt([], region, timelimit, cap, reading, d, html, lite);
    FallbackFirstSuccess(order, 0, attempt, []);
  }
}
