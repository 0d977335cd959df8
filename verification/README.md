# DuckDuckGoDotNet, the decision layer, in Dafny

DuckDuckGoDotNet is a scraping client for DuckDuckGo. It has two client classes
with near-identical logic: `DuckDuckGoSearch` (asynchronous) and `DDGS`
(synchronous). This project models, once for both, the pure decisions those
clients make beneath the network and parsing layers:

- how a reply status becomes a value or an exception;
- how the search token (`vqd`) is cut out of a page;
- how the chat token pair is cached and rotated;
- how a client settles its proxy and user agent;
- the pagination loop shared by the text (html and lite), image, video and news
  searches, with its page bound, de-duplication, result cap, `s=` cursor, lite
  row state machine and ad filter;
- how the chat's server-sent event lines are read and folded into the
  conversation's history and token count;
- the synchronous client's request pacer;
- the model, role and safesearch tables, the filter strings and the text
  backend fallback.

Pages, reply headers, event lines, the clock and every random choice are plain
inputs. A server is a function from (request number, payload) to a reply.

Modules, in dependency order:

- `Outcomes`: `Option`, `Result` and the exception kinds.
- `Strings`: the .NET string operations used (`StartsWith`, `IndexOf`,
  `Split`, `Trim`, `Join`, ASCII lower-casing).
- `Utils`: `ExtractVqd`, `Normalize`, `NormalizeUrl`, `ExpandProxyTbAlias`.
- `Models`: the model and role tables of both clients.
- `Client`: construction settings.
- `Transport`: status classification and the pacer.
- `Paging`: the generic walker.
- `Forms`: form payloads.
- `TextSearch`: html and lite text search, and the backend fallback.
- `Media`: images, videos and news.
- `Chat`: the chat.

Where the code and its documentation disagree, the model follows the code:

- The cursor is cut with `Split("s=")[1].Split("&")[0]`. So it also ends at a
  second "s=", not only at '&'. A `next` link without "s=" raises an index
  error.
- A cap of zero or less still returns the first accepted result.
- An empty `DDGS_PROXY`, or an empty `proxy` argument with no `proxies`, is
  rejected by the "://" check.

Three places in the code do not do what it evidently means to do (see
Findings). The members they touch take a `Reading`: `AsWritten` follows the
code, `Intended` the evident intent, and each contract states both.

- The lite row machine emits a link again after a second snippet row
  (`TextLite`, `TextLiteResults`, `Text`).
- The chat's header lookups throw on an absent header, so their fallbacks
  never apply (`GetChatVqd`, `Exchange`, `AsyncTurn`, `SyncTurn`).
- The asynchronous token request sets the client's timeout, which `HttpClient`
  refuses once the client has sent a request (`GetChatVqd`, `AsyncTurn`).

## Model

| member | source | states |
|---|---|---|
| Transport.GetUrl | src/DuckDuckGoDotNet/DuckDuckGoSearch.cs:137-156 | status 200 passes the response on, 202/301/403/400/429/418 raise a rate limit, any other status a search error; a transport failure is a timeout when its message says so, a search error otherwise |
| Transport.GetUrlWithTimeout | src/DuckDuckGoDotNet/DuckDuckGoSearch.cs:135-137 | as written, a request with a timeout on a client that has already sent one fails with an invalid-operation error, whatever the reply; on a fresh client it is `GetUrl` |
| Transport.TimeoutAfterStartFails | src/DuckDuckGoDotNet/DuckDuckGoSearch.cs:135-137 | a 200 reply that `GetUrl` passes on still fails when the timeout is set on a started client |
| Transport.ClassifiedByStatus | src/DuckDuckGoDotNet/DuckDuckGoSearch.cs:139-147 | the verdict depends on the status alone, never on the body |
| Transport.StatusClasses | src/DockDockGoDotNet/dockdocksearch.cs:169-177 | every answered status lands in exactly one of success, rate limit and search error |
| Transport.Sleep | src/DockDockGoDotNet/dockdocksearch.cs:110-126 | a 750 ms delay is due exactly when an earlier request was made less than 20 seconds ago; the pacer always records now |
| Transport.SyncGetUrl | src/DockDockGoDotNet/dockdocksearch.cs:139-186 | the synchronous request paces first, then classifies as the asynchronous one does |
| Transport.FirstNeverDelays | src/DockDockGoDotNet/dockdocksearch.cs:113-121 | a fresh pacer never delays its first request, and after a run holds the last request's time |
| Transport.RunEndsAtLast | src/DockDockGoDotNet/dockdocksearch.cs:121 | after any run of requests the pacer holds the time of the last one |
| Transport.RunTotal | src/DockDockGoDotNet/dockdocksearch.cs:110-126 | the total delay of a run is the sum of its per-request delays |
| Transport.SparseNeverDelays | src/DockDockGoDotNet/dockdocksearch.cs:113-120 | requests at least 20 seconds apart are never delayed |
| Transport.BurstDelays | src/DockDockGoDotNet/dockdocksearch.cs:113-124 | n requests in the same second wait 750 ms each, except the first on a fresh pacer |
| Strings.IndexOf | src/DuckDuckGoDotNet/Utils.cs:30-37 | the first position at or after the start where the pattern occurs, or none (the source's -1) when it occurs nowhere there |
| Strings.Trim | src/DuckDuckGoDotNet/DuckDuckGoSearch.cs:204 | the result is a slice of the input with only white space cut off either end, and it neither starts nor ends with white space |
| Strings.WhiteSpaceAscii | src/DuckDuckGoDotNet/DuckDuckGoSearch.cs:390 | among ASCII characters exactly space and tab through carriage return are white space to `Trim`; the no-break and ideographic spaces are too, the zero-width space and byte-order mark are not |
| Strings.SplitOn | src/DuckDuckGoDotNet/DuckDuckGoSearch.cs:494 | splitting always yields at least one piece, and no piece holds the separator |
| Strings.AsciiLower | src/DuckDuckGoDotNet/DuckDuckGoSearch.cs:459 | the same length, each ASCII capital replaced by its small letter and every other character kept; on lookups into the safesearch keys on, moderate and off it agrees with the culture-sensitive `ToLower`, because none of those words has a letter whose case mapping depends on the culture |
| Strings.LowerWordAscii | src/DuckDuckGoDotNet/DuckDuckGoSearch.cs:459 | a string that lower-cases to a word of a to z letters consists only of ASCII letters, so a safesearch hit never depends on non-ASCII case rules |
| Utils.TryMarkerSelects | src/DuckDuckGoDotNet/Utils.cs:30-39 | a marker pair yields the text between the first start marker and the first end marker behind it, which holds no end marker; it yields nothing exactly when no such text exists |
| Utils.TryMarker | src/DuckDuckGoDotNet/Utils.cs:30-39 | a token comes only from a page holding the start marker, and fits in the page behind that marker |
| Utils.FirstMarker | src/DuckDuckGoDotNet/Utils.cs:28-40 | the pairs are tried in order and the first that yields wins; none yields when every pair fails |
| Utils.ExtractVqdSelects | src/DuckDuckGoDotNet/Utils.cs:17-42 | success gives the token of the first marker pair that selects one, and no earlier pair selects anything; failure is a search error exactly when no pair selects |
| Utils.ExtractVqd | src/DuckDuckGoDotNet/Utils.cs:17-42 | succeeds exactly when some marker pair yields a token, and then gives the token of the first pair that yields one; otherwise a search error |
| Utils.VqdDoubleQuoted | src/DuckDuckGoDotNet/Utils.cs:23-37 | `vqd="tok"` yields tok |
| Utils.VqdAmpersand | src/DuckDuckGoDotNet/Utils.cs:24-37 | `vqd=tok&` yields tok when no double quote precedes |
| Utils.VqdAbsent | src/DuckDuckGoDotNet/Utils.cs:28-41 | a page without `vqd=` fails with a search error |
| Utils.Normalize | src/DuckDuckGoDotNet/Utils.cs:45-50 | null or empty gives the empty string, anything else the decoded text with tags stripped |
| Utils.NormalizeUrl | src/DuckDuckGoDotNet/Utils.cs:53-58 | null or empty gives the empty string; the result never holds a space and is as long as the decoded URL |
| Utils.ReplaceSpaces | src/DuckDuckGoDotNet/Utils.cs:57 | each space becomes '+' and nothing else changes |
| Utils.ExpandProxyTbAlias | src/DuckDuckGoDotNet/Utils.cs:61-65 | exactly "tb" becomes the local Tor proxy; everything else is kept |
| Utils.ExpandProxyTbAliasIdempotent | src/DuckDuckGoDotNet/Utils.cs:64 | expanding twice is expanding once |
| Models.ModelTable | src/DuckDuckGoDotNet/AI/Models.cs:9-20 | the identifiers of the five models; any other value falls back to gpt-4o-mini |
| Models.GetModel | src/DuckDuckGoDotNet/AI/Models.cs:9-20 | every model's identifier is one of the five; it is gpt-4o-mini exactly for Gpt4oMini and for undeclared values |
| Models.GetModelInjective | src/DuckDuckGoDotNet/AI/Models.cs:11-19 | distinct declared models have distinct identifiers |
| Models.ToModelName | src/DuckDuckGoDotNet/AI/Extentions.cs:14-30 | the second table agrees with `GetModel` on every value, falling back to gpt-4o-mini |
| Models.ToRole | src/DuckDuckGoDotNet/AI/Extentions.cs:5-13 | User is "user", Assistant is "assistant", any other value throws |
| Models.ToRoleInjective | src/DuckDuckGoDotNet/AI/Extentions.cs:7-12 | two roles with the same name are the same role |
| Models.ResolveModel | src/DockDockGoDotNet/dockdocksearch.cs:209-215 | the requested identifier is always one of the table's values; an unknown short name gives gpt-4o-mini |
| Models.TablesAgree | src/DockDockGoDotNet/dockdocksearch.cs:49-56 | the synchronous table maps each model's short name to the identifier the asynchronous table gives it, and holds nothing else |
| Client.GetUserAgent | src/DuckDuckGoDotNet/DuckDuckGoSearch.cs:83-95 | the Safari agent exactly for a "safari_" profile, the Chrome agent for every other |
| Client.SafariPrefixIff | src/DuckDuckGoDotNet/DuckDuckGoSearch.cs:86-93 | a profile name starts with "safari_" exactly when the profile is a Safari one |
| Client.ProfileAgents | src/DuckDuckGoDotNet/DuckDuckGoSearch.cs:24-37 | the 48 profiles: Safari ones present the Safari agent, all others the Chrome agent |
| Client.ChosenProxy | src/DuckDuckGoDotNet/DuckDuckGoSearch.cs:47-53 | the environment variable, else the expanded `proxy`; `proxies` replaces either when `proxy` is null or empty |
| Client.EffectiveProxy | src/DuckDuckGoDotNet/DuckDuckGoSearch.cs:54-57 | the chosen proxy is kept exactly when it is absent or holds "://", and is otherwise an argument error |
| Client.DefaultHeaders | src/DuckDuckGoDotNet/DuckDuckGoSearch.cs:72-77 | the caller's headers with Referer forced to the search site |
| Client.NewClient | src/DuckDuckGoDotNet/DuckDuckGoSearch.cs:45-81 | construction fails exactly on a bad proxy (checked first, an argument error) or a timeout outside 1 to 2147483 seconds (an argument error); otherwise the timeout is the argument or 10, the headers get the Referer, and the agent follows the profile's family |
| Client.TimeoutBounds | src/DuckDuckGoDotNet/DuckDuckGoSearch.cs:58-71 | the timeouts `HttpClient` takes are exactly 1 to 2147483 whole seconds, and the default 10 is one |
| Client.ChosenTimeout | src/DuckDuckGoDotNet/DuckDuckGoSearch.cs:58 | the caller's timeout when given; otherwise 10 seconds, which is within the range `HttpClient` takes |
| Client.EnvWinsOverProxy | src/DuckDuckGoDotNet/DuckDuckGoSearch.cs:47-48 | the environment variable wins over an explicit proxy |
| Client.ProxiesWinWhenProxyEmpty | src/DuckDuckGoDotNet/DuckDuckGoSearch.cs:49-53 | `proxies` wins, even over the environment variable, when `proxy` is null or empty |
| Client.TorAliasAccepted | src/DuckDuckGoDotNet/DuckDuckGoSearch.cs:48-57 | "tb" passes the scheme check as the Tor proxy |
| Client.NoProxyDirect | src/DuckDuckGoDotNet/DuckDuckGoSearch.cs:47-57 | no proxy setting gives a direct client |
| Client.SchemelessRejected | src/DuckDuckGoDotNet/DuckDuckGoSearch.cs:54-57 | a proxy without a scheme is rejected, from either source |
| Client.EmptyProxyRejected | src/DuckDuckGoDotNet/DuckDuckGoSearch.cs:48-57 | an empty `proxy` argument is rejected |
| Paging.Add | src/DuckDuckGoDotNet/DuckDuckGoSearch.cs:326-335 | adding a fresh key keeps the keys distinct and appends exactly one result |
| Paging.KeyedScan | src/DuckDuckGoDotNet/DuckDuckGoSearch.cs:472-490 | scanning a page only appends; from distinct keys and room under the cap it keeps keys distinct and stops at the cap; a failure is the abort of some record |
| Paging.KeyedSound | src/DuckDuckGoDotNet/DuckDuckGoSearch.cs:472-490 | keyed scanning keeps the walker's uniqueness and cap invariant |
| Paging.KeyedFailsIffAbort | src/DuckDuckGoDotNet/DuckDuckGoSearch.cs:546-550 | an uncapped scan fails exactly when some record aborts |
| Paging.KeyedCovers | src/DuckDuckGoDotNet/DuckDuckGoSearch.cs:472-477 | after an uncapped scan every accepted record's key has been seen, and it was either seen before the scan or is the key of one of the scan's results |
| Paging.KeyedFromRecords | src/DuckDuckGoDotNet/DuckDuckGoSearch.cs:472-487 | every result a scan adds is the emission of an accepted record of the page, under that record's key |
| Paging.CapTruncates | src/DuckDuckGoDotNet/DuckDuckGoSearch.cs:488 | a capped scan yields a prefix of the uncapped scan's results |
| Paging.Walk | src/DuckDuckGoDotNet/DuckDuckGoSearch.cs:465-495 | the walk sends at most the bound's number of requests, extends the ones already sent, and sends no second request without a cap; a page whose next link cannot be read fails the walk once its records are taken, unless the cap was already reached |
| Paging.Search | src/DuckDuckGoDotNet/DuckDuckGoSearch.cs:462-496 | a search sends its first payload first, between one and the bound's number of requests, and exactly one without a cap |
| Paging.WalkChains | src/DuckDuckGoDotNet/DuckDuckGoSearch.cs:492-494 | each later request is the previous one advanced by the cursor of the page it fetched |
| Paging.WalkUnique | src/DuckDuckGoDotNet/DuckDuckGoSearch.cs:307-348 | a successful walk returns distinct keys, extends what it started from and never exceeds the cap (one result at least) |
| Paging.WalkCapped | src/DuckDuckGoDotNet/DuckDuckGoSearch.cs:359-398 | with a scanner that keeps only the cap invariant, a successful walk still extends what it started from and never exceeds the cap |
| Paging.WalkReachesBound | src/DuckDuckGoDotNet/DuckDuckGoSearch.cs:539-559 | a server that always offers a next page and no results is asked exactly the bound's number of times |
| Paging.KeyedKeeps | src/DuckDuckGoDotNet/DuckDuckGoSearch.cs:472-490 | a property every accepted record's (key, result) pair has is kept by keyed scanning |
| Paging.KeyedKeepsOne | src/DuckDuckGoDotNet/DuckDuckGoSearch.cs:472-490 | one scan keeps such a property, and keys and results aligned |
| Paging.WalkKeeps | src/DuckDuckGoDotNet/DuckDuckGoSearch.cs:465-495 | a property kept by the scanner holds of every result of a successful walk |
| Forms.WithTimelimit | src/DuckDuckGoDotNet/DuckDuckGoSearch.cs:305 | a non-empty time limit adds "df"; otherwise the payload is unchanged |
| Forms.ToDictionary | src/DuckDuckGoDotNet/DuckDuckGoSearch.cs:346 | the hidden inputs become a payload exactly when their names are distinct (else a duplicate-key error), holding each input and nothing else |
| Forms.NextForm | src/DuckDuckGoDotNet/DuckDuckGoSearch.cs:343-347 | without hidden inputs the payload is kept; with them it is replaced |
| TextSearch.HtmlPage | src/DuckDuckGoDotNet/DuckDuckGoSearch.cs:313-319 | a page saying "No results." or without result blocks ends the walk; otherwise its blocks are the records |
| TextSearch.HtmlJudge | src/DuckDuckGoDotNet/DuckDuckGoSearch.cs:323-325 | a block is taken exactly when it has a link that is not a Google or ad link, keyed by that link |
| TextSearch.HtmlPayload | src/DuckDuckGoDotNet/DuckDuckGoSearch.cs:304-305 | the first html form: q, empty b, kl, and df when a time limit is given |
| TextSearch.TextHtml | src/DuckDuckGoDotNet/DuckDuckGoSearch.cs:300-350 | empty keywords fail before any request; otherwise at most 5 requests, only one without a cap |
| TextSearch.TextHtmlResults | src/DuckDuckGoDotNet/DuckDuckGoSearch.cs:307-337 | html results have distinct links, none a Google or ad link, and respect the cap |
| TextSearch.LitePage | src/DuckDuckGoDotNet/DuckDuckGoSearch.cs:365-371 | a page saying "No more results." or without rows ends the walk; otherwise its rows are the records |
| TextSearch.TruncRem | src/DuckDuckGoDotNet/DuckDuckGoSearch.cs:376 | C#'s remainder: the sign of the dividend, magnitude below the divisor |
| TextSearch.RowIndex | src/DockDockGoDotNet/dockdocksearch.cs:387 | `data-row % 4 + 1` is 1 exactly for multiples of 4 and 2 exactly for non-negative values one above |
| TextSearch.LiteLinkRow | src/DockDockGoDotNet/dockdocksearch.cs:388-398 | a link row holds its link exactly when it is present, unseen and not an ad, and then marks it seen; otherwise it clears the link |
| TextSearch.LiteScan | src/DockDockGoDotNet/dockdocksearch.cs:384-409 | the row machine with the link cleared once used: only appends, keeps links distinct and under the cap, emits no ad link, fails only on an unparsable data-row |
| TextSearch.LiteScanAsWritten | src/DockDockGoDotNet/dockdocksearch.cs:384-409 | the row machine as written, which keeps the link after emitting: it only appends, stays under the cap, emits no ad link and keeps keys and results aligned; it fails only on an unparsable data-row, and never when every row has one |
| TextSearch.LiteDuplicateHref | src/DockDockGoDotNet/dockdocksearch.cs:399-409 | a link row followed by two snippet rows: as written the link is emitted twice, corrected once |
| TextSearch.LiteSound | src/DockDockGoDotNet/dockdocksearch.cs:384-409 | the row machine keeps the walker's uniqueness and cap invariant and emits no ad link |
| TextSearch.LiteAsWrittenKept | src/DockDockGoDotNet/dockdocksearch.cs:384-409 | the as-written row machine keeps the walker's cap invariant and emits no ad link (but not distinct links) |
| TextSearch.LitePayload | src/DuckDuckGoDotNet/DuckDuckGoSearch.cs:356-357 | the first lite form: q, kl, and df when a time limit is given |
| TextSearch.TextLite | src/DuckDuckGoDotNet/DuckDuckGoSearch.cs:352-411 | in either reading: empty keywords fail before any request; otherwise at most 5 requests, only one without a cap |
| TextSearch.TextLiteResults | src/DuckDuckGoDotNet/DuckDuckGoSearch.cs:359-398 | in either reading, lite results hold no Google or ad link and respect the cap; in the intended reading the links are also distinct |
| TextSearch.TextLiteRepeats | src/DuckDuckGoDotNet/DuckDuckGoSearch.cs:373-398 | end to end, one lite page with data-rows 0 (a link), 1 and 5: as written the search returns that link twice, in the intended reading once |
| TextSearch.Backends | src/DuckDuckGoDotNet/DuckDuckGoSearch.cs:277-283 | "api" and "ecosia" act as "auto"; "auto" tries html and lite in one of the two orders; any other backend alone |
| TextSearch.FallbackFirstSuccess | src/DuckDuckGoDotNet/DuckDuckGoSearch.cs:285-296 | the first backend that succeeds gives the answer; only when all fail is the last failure raised, wrapped |
| TextSearch.Fallback | src/DuckDuckGoDotNet/DuckDuckGoSearch.cs:285-296 | a failure is the last backend's error, wrapped; a success is some backend's own result; the first backend's success is returned as it is |
| TextSearch.Text | src/DuckDuckGoDotNet/DuckDuckGoSearch.cs:269-298 | succeeds exactly when some backend of the order succeeds, and then with the first success, every earlier backend having failed; otherwise fails with the last backend's error wrapped |
| TextSearch.RunBackend | src/DuckDuckGoDotNet/DuckDuckGoSearch.cs:289 | "html" runs the html search, anything else the lite search; empty keywords fail with an argument error |
| TextSearch.TextAuto | src/DockDockGoDotNet/dockdocksearch.cs:288-308 | "auto": the first backend's success is returned, else the second's result, its failure wrapped |
| TextSearch.TextEmptyQuery | src/DuckDuckGoDotNet/DuckDuckGoSearch.cs:285-302 | empty keywords fail on every backend order with the argument error wrapped |
| Media.CursorOfSelects | src/DuckDuckGoDotNet/DuckDuckGoSearch.cs:494 | the cursor exists exactly when the link holds "s=", and is the text after the first "s=" up to '&', the next "s=" or the end |
| Media.CursorOf | src/DuckDuckGoDotNet/DuckDuckGoSearch.cs:494 | the only failure is an index error (for a link without "s=") |
| Media.CursorAtUnique | src/DuckDuckGoDotNet/DuckDuckGoSearch.cs:494 | a link has at most one cursor |
| Media.CursorRoundTrip | src/DuckDuckGoDotNet/DuckDuckGoSearch.cs:494 | a link built as prefix, "s=", cursor and '&' tail gives that cursor back |
| Media.NextCursor | src/DuckDuckGoDotNet/DuckDuckGoSearch.cs:492-494 | the next payload is the previous one with "s" set to the cursor, or an index error |
| Media.JsonPage | src/DuckDuckGoDotNet/DuckDuckGoSearch.cs:492-493 | the page's records are the reply's results; an absent or empty `next` ends the walk after this page; a JSON-null `next` fails with a null-reference error when it is read, after the records and with or without a cap; otherwise `next` is the cursor |
| Media.NullNextFails | src/DuckDuckGoDotNet/DuckDuckGoSearch.cs:556 | an uncapped video search whose first reply has a null `next` fails with a null-reference error after one request |
| Media.RequestsDifferInCursor | src/DuckDuckGoDotNet/DuckDuckGoSearch.cs:494 | every later media request carries an "s" key and otherwise the keys of the one before |
| Media.FilterSplits | src/DuckDuckGoDotNet/DuckDuckGoSearch.cs:448-455 | splitting the filter string at commas gives back exactly the present fields, in order, with their prefixes |
| Media.FilterString | src/DuckDuckGoDotNet/DuckDuckGoSearch.cs:448-455 | the filter string is empty exactly when no filter is given |
| Media.PresentEmptyIff | src/DuckDuckGoDotNet/DuckDuckGoSearch.cs:448-455 | no segment is present exactly when no filter is given |
| Media.PresentNoComma | src/DuckDuckGoDotNet/DuckDuckGoSearch.cs:448-455 | with comma-free values no segment holds a comma |
| Media.ImageFilterExample | src/DuckDuckGoDotNet/DuckDuckGoSearch.cs:448-455 | time and color alone give "time:…,color:…" |
| Media.VideoFilterNone | src/DuckDuckGoDotNet/DuckDuckGoSearch.cs:524-529 | no video filter gives the empty string |
| Media.SafesearchValue | src/DuckDuckGoDotNet/DuckDuckGoSearch.cs:459 | the level is the table's entry for the lower-cased name, or a key-not-found error |
| Media.SafesearchTables | src/DockDockGoDotNet/dockdocksearch.cs:439 | images map on, moderate and off to 1, 1 and -1; videos and news to 1, -1 and -2; nothing else is accepted |
| Media.SafesearchIgnoresCase | src/DuckDuckGoDotNet/DuckDuckGoSearch.cs:459 | "Moderate" and "OFF" are looked up as lower case |
| Media.GetVqd | src/DuckDuckGoDotNet/DuckDuckGoSearch.cs:159-165 | a failed page request propagates; otherwise the token of the page body |
| Media.MediaPayload | src/DuckDuckGoDotNet/DuckDuckGoSearch.cs:457-460 | the first image or video request: l, o=json, q, vqd, f, p |
| Media.NewsPayload | src/DuckDuckGoDotNet/DuckDuckGoSearch.cs:582-586 | the first news request: l, o=json, noamp=1, q, vqd, p, and df when a time limit is given |
| Media.ImageJudge | src/DuckDuckGoDotNet/DuckDuckGoSearch.cs:474-475 | a missing "image" aborts, a null one is skipped, a present one is the key |
| Media.ImageEmit | src/DuckDuckGoDotNet/DuckDuckGoSearch.cs:474-487 | an accepted image record's result carries its key, the image URL, normalised, and its thumbnail and page URLs normalised |
| Media.Images | src/DuckDuckGoDotNet/DuckDuckGoSearch.cs:432-497 | empty keywords fail before any request, and a bad safesearch fails before any page request (after the token request); otherwise at most 5 page requests, one without a cap |
| Media.ImagesResults | src/DuckDuckGoDotNet/DuckDuckGoSearch.cs:462-494 | image results have distinct image URLs, each the record's, respect the cap, and each later request adds the cursor |
| Media.VideoJudge | src/DuckDuckGoDotNet/DuckDuckGoSearch.cs:548 | a row without "content" aborts with key-not-found, any other is keyed by its content |
| Media.Videos | src/DuckDuckGoDotNet/DuckDuckGoSearch.cs:510-561 | empty keywords fail before any request, and a bad safesearch fails before any page request (after the token request); otherwise at most 8 page requests, one without a cap |
| Media.VideosResults | src/DuckDuckGoDotNet/DuckDuckGoSearch.cs:536-553 | every video row returned has a content, contents are distinct, and the cap holds |
| Media.VideosReachEight | src/DuckDuckGoDotNet/DuckDuckGoSearch.cs:539 | a server that always offers a next page and no rows is asked exactly 8 times |
| Media.NewsJudge | src/DuckDuckGoDotNet/DuckDuckGoSearch.cs:600-601 | a missing "url" aborts with a key-not-found error, a null one with a null-reference error, and a string one is the key |
| Media.NewsEmit | src/DuckDuckGoDotNet/DuckDuckGoSearch.cs:600-611 | an accepted news record's result carries its key, the URL, normalised, the excerpt normalised as the body, and an image exactly when the record has one |
| Media.News | src/DuckDuckGoDotNet/DuckDuckGoSearch.cs:571-623 | empty keywords fail before any request, and a bad safesearch fails before any page request (after the token request); otherwise at most 5 page requests, one without a cap |
| Media.NewsResults | src/DuckDuckGoDotNet/DuckDuckGoSearch.cs:588-615 | news results have distinct URLs, each the record's, and respect the cap |
| Chat.GetString | src/DuckDuckGoDotNet/DuckDuckGoSearch.cs:219-231 | a JSON string reads as itself, null as null, any other value throws |
| Chat.ChatError | src/DuckDuckGoDotNet/DuckDuckGoSearch.cs:221-227 | under 429 a conversation limit exactly for ERR_CONVERSATION_LIMIT and a rate limit otherwise; any other status a search error |
| Chat.Interpret | src/DuckDuckGoDotNet/DuckDuckGoSearch.cs:202-234 | non-data lines are ignored; "[DONE]" ends; the limit mark raises; unparsable data raises; non-objects are ignored; a fragment comes only from an object's string message |
| Chat.ReadStream | src/DuckDuckGoDotNet/DuckDuckGoSearch.cs:200-237 | a reply yields at most one fragment per line; `ReadStreamConcat`, `DoneEndsReading` and `OnlyDataLines` state how it is read |
| Chat.MessageLine | src/DuckDuckGoDotNet/DuckDuckGoSearch.cs:229-233 | a data line with a string message and no error action emits that message |
| Chat.ReadStreamConcat | src/DuckDuckGoDotNet/DuckDuckGoSearch.cs:200-237 | reading two runs of lines is reading the first, then the second only if the first ran out |
| Chat.DoneEndsReading | src/DuckDuckGoDotNet/DuckDuckGoSearch.cs:205 | nothing after a "[DONE]" line is read |
| Chat.OnlyDataLines | src/DuckDuckGoDotNet/DuckDuckGoSearch.cs:202 | the reply reads the same with every non-data line dropped |
| Chat.DataOf | src/DuckDuckGoDotNet/DuckDuckGoSearch.cs:204 | the payload is a slice of the text after "data:" with only white space around it, and it neither starts nor ends with white space |
| Chat.Joined | src/DuckDuckGoDotNet/DuckDuckGoSearch.cs:238 | the answer starts with the first fragment (a null one counts as empty), and is empty exactly when every fragment is null or empty |
| Chat.JoinedAppend | src/DuckDuckGoDotNet/DuckDuckGoSearch.cs:238 | joining fragments distributes over concatenation |
| Chat.StreamExample | src/DuckDuckGoDotNet/DuckDuckGoSearch.cs:200-238 | two messages, a comment, "[DONE]" and anything after give the two messages joined |
| Chat.HeaderOr | src/DuckDuckGoDotNet/DuckDuckGoSearch.cs:193-194 | the header's first value, or the previous token when it has none |
| Chat.HeaderAsWritten | src/DuckDuckGoDotNet/DuckDuckGoSearch.cs:193-194 | as written: throws exactly when the header is absent, otherwise agrees with `HeaderOr` |
| Chat.MissingHeaderThrows | src/DuckDuckGoDotNet/DuckDuckGoSearch.cs:173 | a reply without the token header throws as written where the fallback keeps the token |
| Chat.Header | src/DuckDuckGoDotNet/DuckDuckGoSearch.cs:193-194 | a lookup fails, with a header-not-found error, exactly in the as-written reading when the header is absent; otherwise it gives `HeaderOr`'s value |
| Chat.PromptTokens | src/DuckDuckGoDotNet/DuckDuckGoSearch.cs:181 | a prompt counts a quarter of its length, at least one |
| Chat.GetChatVqd | src/DuckDuckGoDotNet/DuckDuckGoSearch.cs:167-176 | a request is sent exactly when a half is missing or a refresh is forced, else the cached pair is returned; as written a request on a started client fails with an invalid-operation error; a failed request propagates; as written an absent header fails; otherwise the reply's headers, each falling back on the previous half |
| Chat.Exchange | src/DuckDuckGoDotNet/DuckDuckGoSearch.cs:180-240 | the request carries the history with the prompt; the history gains exactly the prompt and, on success, the joined answer; the count grows by the prompt's tokens and the answer's length; present headers rotate the token; when the stream cannot be read the turn fails with the error of the failing line; as written an absent header fails with nothing read, the token already rotated when only the hash header is absent |
| Chat.AsyncTurn | src/DuckDuckGoDotNet/DuckDuckGoSearch.cs:177-243 | a failed token request leaves the conversation unchanged and sends nothing; otherwise the request names the model's identifier and the fetched pair, which the reply's headers rotate or, as written, whose absence fails the turn |
| Chat.SyncTurn | src/DockDockGoDotNet/dockdocksearch.cs:198-273 | the token is requested, through the pacer, only when none is held; as written a status reply without the token header fails with nothing sent; the request names a table model and no hash |
| Chat.ExchangeKeepsCount | src/DuckDuckGoDotNet/DuckDuckGoSearch.cs:180-240 | an exchange keeps the count equal to what the history accounts for |
| Chat.TurnsKeepCount | src/DockDockGoDotNet/dockdocksearch.cs:206-270 | every turn of either client, in either reading, keeps the count equal to what the history accounts for |
| Chat.AsyncKeepsCount | src/DuckDuckGoDotNet/DuckDuckGoSearch.cs:177-243 | an asynchronous turn keeps the count equal to what the history accounts for |
| Chat.SyncKeepsCount | src/DockDockGoDotNet/dockdocksearch.cs:198-273 | a synchronous turn keeps the count equal to what the history accounts for |
| Chat.TurnKeepsHistory | src/DuckDuckGoDotNet/DuckDuckGoSearch.cs:180 | a turn keeps every earlier message |
| Chat.CachedTokenReused | src/DuckDuckGoDotNet/DuckDuckGoSearch.cs:170-175 | a conversation holding both halves sends the held pair, in either reading and even on a client that has sent requests before |
| Chat.MissingTokenHeaderTurn | src/DuckDuckGoDotNet/DuckDuckGoSearch.cs:172-179 | on a fresh conversation, a status reply without x-vqd-4: as written the turn fails with the conversation unchanged and nothing sent; the intended turn sends the request with an empty token |
| Chat.MissingHashHeaderExchange | src/DuckDuckGoDotNet/DuckDuckGoSearch.cs:180-194 | a chat reply with the token but without the hash header: as written the prompt is recorded and the token rotated, and the turn fails; the intended turn reads the reply |
| Chat.TokenAfterStartThrows | src/DuckDuckGoDotNet/DuckDuckGoSearch.cs:167-179 | on a client that has sent a request, a needed token request fails as written with an invalid-operation error and the conversation unchanged; the intended one is sent and succeeds exactly on a 200 reply |

## Left out

- HTTP transport is not modelled: `HttpClient` setup, the TLS callback, URL
  encoding and request headers other than the chat tokens. A reply is a status,
  headers and a body, or a refusal that does or does not mention a timeout.
  Of the `timeout` argument only its one effect on a client that has already
  sent a request is modelled: `client.Timeout` refuses the assignment.
- An `HttpClient` timeout surfaces as `TaskCanceledException`, which the
  clients do not catch. The model folds it into the refusal kinds.
- HTML and JSON parsing are not modelled. Pages arrive as parsed structures:
  blocks, rows, hidden inputs, result records and a `next` link.
- Some exceptions raised while reading a JSON page are not modelled: a missing
  "results" key, and the `ToString`/`long.Parse` failures of fields other than
  the de-duplication key. A news date is not converted.
- `WebUtility.UrlDecode`, `WebUtility.HtmlDecode` and the tag-stripping regex
  are parameters (`Decoders`).
- The random profile choice and the `Guid` shuffle are inputs (`Profile`,
  `swap`). So is the clock (`now`).
- `Thread.Sleep` is not modelled; the pacer returns the delay in milliseconds
  instead. The search walkers do not thread the pacer through their requests:
  pacing is modelled per request (`SyncGetUrl`, `PaceRun`).
- Lazy enumeration of the chat stream is not modelled; a turn is read to its
  end. A caller that stops consuming early leaves only the prompt in the
  history.
- A transport failure of the chat request is not classified by the source. It
  is modelled as one runtime error.
- String lengths count characters, not UTF-16 code units.
- String comparisons are ordinal: `StartsWith`, `IndexOf` and `Contains`
  compare characters one by one. The source's `string.StartsWith(string)` and
  `IndexOf(string)` are culture-sensitive and skip ignorable code points such
  as a soft hyphen, so on such text the model and the source can disagree.
- Client.NewClient: `new WebProxy` rejects a proxy URI it cannot parse (such as
  "http://", which passes the "://" check), and invalid default header names
  throw when added; neither failure is modelled.
- Strings.AsciiLower: only ASCII capitals are lower-cased, where `ToLower`
  lower-cases every letter by the current culture's rules. The two differ only
  on strings that are not a safesearch key under either, so both end in the
  same missing-key error.
- Media.VideoJudge: a video row is a `map<string, string>`, so a JSON null
  `content` cannot be represented. In the source
  (src/DuckDuckGoDotNet/DuckDuckGoSearch.cs:544-550) a null content is an ordinary
  de-duplication key: the first such row is kept, later ones are skipped, and
  nothing is thrown.
- `int` overflow of the token count is not modelled.
- A null `safesearch` or `keywords` argument is not modelled; both are plain
  strings. A null `safesearch` would throw a null-reference error in the source.
- Logging, console warnings and the demo program are not modelled.
- The declaration-only files are not modelled separately: the exception classes
  become the `Error` datatype, and the search item classes become the item
  datatypes.
- Chat.ReadStream: its own contract bounds only the number of fragments. Its
  behaviour is stated by `ReadStreamConcat`, `DoneEndsReading`, `OnlyDataLines`
  and `StreamExample`.
- Utils.NormalizeUrl: the decoder is abstract, so the contract states length
  and the absence of spaces, not the decoded text.
- TextSearch.LiteScanAsWritten: it does not keep links distinct, which is
  the point of the finding; `LiteDuplicateHref` and `TextLiteRepeats` show it.

## Findings

| source | as written | input that shows it | evidently intended | confidence | as-written member | corrected member |
|---|---|---|---|---|---|---|
| src/DockDockGoDotNet/dockdocksearch.cs:399-409 | after a snippet row emits a result, `href` keeps its value (the same holds in DuckDuckGoSearch.cs:388-398), so a second snippet row emits the same link again | rows with data-row 0 (a fresh link), 1 and 5: both later rows have row index 2 (`TextSearch.LiteDuplicateHref`) | one result per link: the link is cleared once used, as the de-duplication cache intends | not executed; low, it needs two snippet rows after one link row | TextSearch.LiteScanAsWritten | TextSearch.LiteScan |
| src/DuckDuckGoDotNet/DuckDuckGoSearch.cs:193-194 | `GetValues` throws when the reply lacks the header, so the `?? chatVqd` fallback, and `FirstOrDefault(chatVqd)` at line 173 and the sync copies at dockdocksearch.cs:203 and 223, can never keep the previous token | a chat or status reply without an x-vqd-4 header (`Chat.MissingHeaderThrows`, `Chat.MissingTokenHeaderTurn`, `Chat.MissingHashHeaderExchange`) | keep the previous token when the header is missing | not executed; high, `HttpHeaders.GetValues` is documented to throw for a missing header | Chat.HeaderAsWritten | Chat.HeaderOr |
| src/DuckDuckGoDotNet/DuckDuckGoSearch.cs:135-137 | the token request passes the client's own `timeout` (line 172), never null, so `GetUrl` assigns `client.Timeout`, which `HttpClient` refuses once it has sent a request | the first chat turn of a client that has already run a text, image, video or news search (`Chat.TokenAfterStartThrows`) | the request is sent with the client's timeout | not executed; high, `HttpClient` documents that its properties cannot change after the first request | Transport.GetUrlWithTimeout | Transport.GetUrl |
