/** The pagination loop shared by every search: fetch a page, scan its
    records into the results, stop when the cap is reached, fail when the
    next link cannot be read, stop when no cap was given, when there is no
    next page or when the page bound is hit, and otherwise derive the next
    request from the page's cursor.
 */
module Paging {
  import opened Outcomes
  import opened Transport

  /** One page as the loop sees it: whether it announces that there are no
      (more) results, its records, the cursor to the next page if any, and
      the error reading the next link raises, if it does. */
  datatype Page<R, C> = Page(exhausted: bool, records: seq<R>, cursor: Option<C>, fault: Option<Error>)

  /** The results so far, each with the key it was de-duplicated by, and the
      set of keys already taken (the loop's cache). */
  datatype Collected<T> = Collected(seen: set<string>, keys: seq<string>, items: seq<T>)

  /** The results of scanning one page; `full` when the cap stopped it. */
  datatype Scanned<T> = Scanned(collected: Collected<T>, full: bool)

  /** What a record contributes: a result under a key, nothing, or an error. */
  datatype Verdict = Accept(key: string) | Skip | Abort(error: Error)

  /** A search endpoint: how many pages it fetches at most, how it scans a
      page, and how it turns the current request and a cursor into the next
      request. */
  datatype Endpoint<!P, -C, -R, !T> = Endpoint(
    maxPages: nat,
    scan: (Option<int>, Collected<T>, seq<R>) -> Result<Scanned<T>>,
    advance: (P, C) -> Result<P>)

  /** The requests a search sent, in order, and what it returned. */
  datatype Walked<P, T> = Walked(sent: seq<P>, outcome: Result<Collected<T>>)

  function NoResults<T>(): Collected<T> {
    Collected({}, [], [])
  }

  /** The loop's stopping test after a result is added. */
  predicate Full(cap: Option<int>, n: int) {
    cap.Some? && n >= cap.value
  }

  /** The count `n` leaves room under the cap: no cap, nothing yet, or below it. */
  predicate Room(cap: Option<int>, n: int) {
    cap.None? || n == 0 || n < cap.value
  }

  /** No key is used twice, every used key is in the cache, and each result
      has its key. */
  ghost predicate Unique<T>(c: Collected<T>) {
    && |c.keys| == |c.items|
    && (forall i :: 0 <= i < |c.keys| ==> c.keys[i] in c.seen)
    && (forall i, j :: 0 <= i < j < |c.keys| ==> c.keys[i] != c.keys[j])
  }

  /** `b` continues `a`: earlier results and cache entries are kept. */
  ghost predicate Extends<T>(a: Collected<T>, b: Collected<T>) {
    a.seen <= b.seen && a.keys <= b.keys && a.items <= b.items
  }

  /** A page scan kept to the cap, given room under it: it only appends, and
      it stops full, at most one past a cap below one, or leaves room. */
  ghost predicate CapOk<T>(cap: Option<int>, acc: Collected<T>, sc: Scanned<T>) {
    && Extends(acc, sc.collected)
    && (sc.full ==> Full(cap, |sc.collected.items|) && |sc.collected.items| <= Max(cap.value, 1))
    && (!sc.full ==> Room(cap, |sc.collected.items|))
  }

  /** What a well-behaved page scan guarantees, given room under the cap. */
  ghost predicate ScanOk<T>(cap: Option<int>, acc: Collected<T>, sc: Scanned<T>) {
    Unique(sc.collected) && CapOk(cap, acc, sc)
  }

  /** `scan` keeps to the cap on every input with room under it. */
  ghost predicate Capped<T(!new), R(!new)>(scan: (Option<int>, Collected<T>, seq<R>) -> Result<Scanned<T>>) {
    forall cap, acc: Collected<T>, recs ::
      Room(cap, |acc.items|) && scan(cap, acc, recs).Ok? ==> CapOk(cap, acc, scan(cap, acc, recs).value)
  }

  /** `scan` behaves well on every input with room under the cap. */
  ghost predicate Sound<T(!new), R(!new)>(scan: (Option<int>, Collected<T>, seq<R>) -> Result<Scanned<T>>) {
    forall cap, acc, recs ::
      Unique(acc) && Room(cap, |acc.items|) && scan(cap, acc, recs).Ok? ==>
        ScanOk(cap, acc, scan(cap, acc, recs).value)
  }

  /** Adding a result under a fresh key. */
  function Add<T>(acc: Collected<T>, key: string, item: T): (r: Collected<T>)
    ensures Unique(acc) && key !in acc.seen ==> Unique(r)
    ensures Extends(acc, r) && |r.items| == |acc.items| + 1
  {
    Collected(acc.seen + {key}, acc.keys + [key], acc.items + [item])
  }

  /** The scan of the html, image, video and news searches: each record is
      judged; an accepted record whose key is not yet taken is added, and the
      scan stops as soon as the cap is reached. */
  function KeyedScan<R, T>(judge: R -> Verdict, emit: R -> T, cap: Option<int>,
                           acc: Collected<T>, recs: seq<R>): (r: Result<Scanned<T>>)
    ensures r.Ok? ==> Extends(acc, r.value.collected)
    ensures r.Ok? && Unique(acc) && Room(cap, |acc.items|) ==> ScanOk(cap, acc, r.value)
    ensures r.Fail? ==> exists i :: 0 <= i < |recs| && judge(recs[i]) == Abort(r.error)
    decreases |recs|
  {
    if recs == [] then Ok(Scanned(acc, false))
    else match judge(recs[0])
      case Abort(e) => Fail(e)
      case Skip => KeyedScan(judge, emit, cap, acc, recs[1..])
      case Accept(k) =>
        if k in acc.seen then KeyedScan(judge, emit, cap, acc, recs[1..])
        else
          var acc' := Add(acc, k, emit(recs[0]));
          if Full(cap, |acc'.items|) then Ok(Scanned(acc', true))
          else KeyedScan(judge, emit, cap, acc', recs[1..])
  }

  /** The keyed scan is a sound page scan. */
  lemma KeyedSound<R(!new), T(!new)>(judge: R -> Verdict, emit: R -> T)
    ensures Sound((cap, acc, recs) => KeyedScan(judge, emit, cap, acc, recs))
  {
  }

  /** Without a cap, the scan fails exactly when some record aborts it. */
  lemma {:induction false} KeyedFailsIffAbort<R, T>(judge: R -> Verdict, emit: R -> T, acc: Collected<T>, recs: seq<R>)
    ensures KeyedScan(judge, emit, None, acc, recs).Fail? <==> exists i :: 0 <= i < |recs| && judge(recs[i]).Abort?
    decreases |recs|
  {
    if recs != [] {
      var acc' := if judge(recs[0]).Accept? && judge(recs[0]).key !in acc.seen
                  then Add(acc, judge(recs[0]).key, emit(recs[0])) else acc;
      KeyedFailsIffAbort(judge, emit, acc', recs[1..]);
      if exists i :: 0 <= i < |recs| && judge(recs[i]).Abort? {
        var i :| 0 <= i < |recs| && judge(recs[i]).Abort?;
        if i > 0 { assert recs[1..][i - 1] == recs[i]; }
      }
      if exists i :: 0 <= i < |recs[1..]| && judge(recs[1..][i]).Abort? {
        var i :| 0 <= i < |recs[1..]| && judge(recs[1..][i]).Abort?;
        assert judge(recs[i + 1]).Abort?;
      }
    }
  }

  /** Without a cap, every accepted record's key ends up in the cache, and
      is either one taken before the scan or the key of a result: no record
      is lost except as a duplicate. */
  lemma {:induction false} KeyedCovers<R, T>(judge: R -> Verdict, emit: R -> T, acc: Collected<T>, recs: seq<R>)
    requires KeyedScan(judge, emit, None, acc, recs).Ok?
    ensures forall i :: 0 <= i < |recs| && judge(recs[i]).Accept? ==>
              judge(recs[i]).key in KeyedScan(judge, emit, None, acc, recs).value.collected.seen
    ensures forall i :: 0 <= i < |recs| && judge(recs[i]).Accept? ==>
              judge(recs[i]).key in acc.seen || judge(recs[i]).key in KeyedScan(judge, emit, None, acc, recs).value.collected.keys
    decreases |recs|
  {
    if recs != [] {
      var added := judge(recs[0]).Accept? && judge(recs[0]).key !in acc.seen;
      var acc' := if added then Add(acc, judge(recs[0]).key, emit(recs[0])) else acc;
      assert KeyedScan(judge, emit, None, acc, recs) == KeyedScan(judge, emit, None, acc', recs[1..]);
      KeyedCovers(judge, emit, acc', recs[1..]);
      var c := KeyedScan(judge, emit, None, acc', recs[1..]).value.collected;
      assert acc'.keys <= c.keys;
      if added {
        assert c.keys[|acc'.keys| - 1] == judge(recs[0]).key;
      }
      forall i | 0 < i < |recs| ensures recs[i] == recs[1..][i - 1] { }
    }
  }

  /** Every new result was emitted from a record accepted under its key. */
  lemma {:induction false} KeyedFromRecords<R, T>(judge: R -> Verdict, emit: R -> T, cap: Option<int>,
                                                  acc: Collected<T>, recs: seq<R>)
    requires |acc.keys| == |acc.items|
    requires KeyedScan(judge, emit, cap, acc, recs).Ok?
    ensures var c := KeyedScan(judge, emit, cap, acc, recs).value.collected;
      |c.keys| == |c.items| &&
      forall j :: |acc.keys| <= j < |c.keys| ==>
        exists i :: 0 <= i < |recs| && judge(recs[i]) == Accept(c.keys[j]) && c.items[j] == emit(recs[i])
    decreases |recs|
  {
    if recs != [] && judge(recs[0]).Accept? {
      var k := judge(recs[0]).key;
      if k in acc.seen {
        KeyedFromRecords(judge, emit, cap, acc, recs[1..]);
        Shift(judge, emit, recs, KeyedScan(judge, emit, cap, acc, recs).value.collected, |acc.keys|);
      } else {
        var acc' := Add(acc, k, emit(recs[0]));
        if !Full(cap, |acc'.items|) {
          KeyedFromRecords(judge, emit, cap, acc', recs[1..]);
          Shift(judge, emit, recs, KeyedScan(judge, emit, cap, acc, recs).value.collected, |acc'.keys|);
        }
        var c := KeyedScan(judge, emit, cap, acc, recs).value.collected;
        assert c.keys[|acc.keys|] == k && c.items[|acc.keys|] == emit(recs[0]);
      }
    } else if recs != [] && judge(recs[0]).Skip? {
      KeyedFromRecords(judge, emit, cap, acc, recs[1..]);
      Shift(judge, emit, recs, KeyedScan(judge, emit, cap, acc, recs).value.collected, |acc.keys|);
    }
  }

  /** A witness found in `recs[1..]` is a witness in `recs`. */
  lemma Shift<R, T>(judge: R -> Verdict, emit: R -> T, recs: seq<R>, c: Collected<T>, from: nat)
    requires recs != [] && |c.keys| == |c.items|
    requires forall j :: from <= j < |c.keys| ==>
      exists i :: 0 <= i < |recs[1..]| && judge(recs[1..][i]) == Accept(c.keys[j]) && c.items[j] == emit(recs[1..][i])
    ensures forall j :: from <= j < |c.keys| ==>
      exists i :: 0 <= i < |recs| && judge(recs[i]) == Accept(c.keys[j]) && c.items[j] == emit(recs[i])
  {
    forall j | from <= j < |c.keys|
      ensures exists i :: 0 <= i < |recs| && judge(recs[i]) == Accept(c.keys[j]) && c.items[j] == emit(recs[i])
    {
      var i :| 0 <= i < |recs[1..]| && judge(recs[1..][i]) == Accept(c.keys[j]) && c.items[j] == emit(recs[1..][i]);
      assert recs[1..][i] == recs[i + 1];
    }
    assert forall j :: from <= j < |c.keys| ==>
      exists i :: 0 <= i < |recs| && judge(recs[i]) == Accept(c.keys[j]) && c.items[j] == emit(recs[i]);
  }

  /** The cap only cuts the results short: when the uncapped scan succeeds,
      the capped one does too, and its results are a prefix of the uncapped
      ones. */
  lemma {:induction false} CapTruncates<R, T>(judge: R -> Verdict, emit: R -> T, cap: Option<int>,
                                              acc: Collected<T>, recs: seq<R>)
    requires KeyedScan(judge, emit, None, acc, recs).Ok?
    ensures KeyedScan(judge, emit, cap, acc, recs).Ok?
    ensures KeyedScan(judge, emit, cap, acc, recs).value.collected.items
              <= KeyedScan(judge, emit, None, acc, recs).value.collected.items
    decreases |recs|
  {
    if recs != [] && judge(recs[0]).Accept? && judge(recs[0]).key !in acc.seen {
      var acc' := Add(acc, judge(recs[0]).key, emit(recs[0]));
      if !Full(cap, |acc'.items|) {
        CapTruncates(judge, emit, cap, acc', recs[1..]);
      }
    } else if recs != [] {
      CapTruncates(judge, emit, cap, acc, recs[1..]);
    }
  }

  /** The search loop from the request `payload` on, `sent` being the
      requests already sent.  `server(n, p)` is the reply to the `n`-th
      request, `p`; the page bound is the endpoint's. */
  function Walk<P, C, R, T>(ep: Endpoint<P, C, R, T>, server: (nat, P) -> Reply<Page<R, C>>, cap: Option<int>,
                            payload: P, acc: Collected<T>, sent: seq<P>): (w: Walked<P, T>)
    requires |sent| < ep.maxPages
    ensures sent + [payload] <= w.sent && |w.sent| <= ep.maxPages
    ensures cap.None? ==> w.sent == sent + [payload]
    decreases ep.maxPages - |sent|
  {
    var sent' := sent + [payload];
    match GetUrl(server(|sent|, payload))
    case Fail(e) => Walked(sent', Fail(e))
    case Ok(resp) =>
      var page := resp.body;
      if page.exhausted then Walked(sent', Ok(acc))
      else match ep.scan(cap, acc, page.records)
        case Fail(e) => Walked(sent', Fail(e))
        case Ok(sc) =>
          if sc.full then Walked(sent', Ok(sc.collected))
          else if page.fault.Some? then Walked(sent', Fail(page.fault.value))
          else if cap.None? || page.cursor.None? then Walked(sent', Ok(sc.collected))
          else match ep.advance(payload, page.cursor.value)
            case Fail(e) => Walked(sent', Fail(e))
            case Ok(next) =>
              if |sent'| == ep.maxPages then Walked(sent', Ok(sc.collected))
              else Walk(ep, server, cap, next, sc.collected, sent')
  }

  /** A whole search: the loop from the first request with no results yet. */
  function Search<P, C, R, T>(ep: Endpoint<P, C, R, T>, server: (nat, P) -> Reply<Page<R, C>>,
                              cap: Option<int>, payload: P): (w: Walked<P, T>)
    requires ep.maxPages > 0
    ensures 1 <= |w.sent| <= ep.maxPages && w.sent[0] == payload
    ensures cap.None? ==> w.sent == [payload]
  {
    Walk(ep, server, cap, payload, NoResults(), [])
  }

  /** `b` is a request the endpoint derives from `a` and some cursor. */
  ghost predicate Advanced<P, C(!new), R, T>(ep: Endpoint<P, C, R, T>, a: P, b: P) {
    exists c :: ep.advance(a, c) == Ok(b)
  }

  /** Each request after the first is derived from the one before it. */
  lemma {:induction false} WalkChains<P, C(!new), R, T>(ep: Endpoint<P, C, R, T>, server: (nat, P) -> Reply<Page<R, C>>,
                                                     cap: Option<int>, payload: P, acc: Collected<T>, sent: seq<P>)
    requires |sent| < ep.maxPages
    ensures var w := Walk(ep, server, cap, payload, acc, sent);
      forall i :: |sent| < i < |w.sent| ==> Advanced(ep, w.sent[i - 1], w.sent[i])
    decreases ep.maxPages - |sent|
  {
    var w := Walk(ep, server, cap, payload, acc, sent);
    var sent' := sent + [payload];
    if |w.sent| > |sent'| {
      var resp := GetUrl(server(|sent|, payload)).value;
      var sc := ep.scan(cap, acc, resp.body.records).value;
      var c := resp.body.cursor.value;
      var next := ep.advance(payload, c).value;
      assert w == Walk(ep, server, cap, next, sc.collected, sent');
      WalkChains(ep, server, cap, next, sc.collected, sent');
      assert w.sent[|sent'|] == next;
      assert Advanced(ep, w.sent[|sent'| - 1], w.sent[|sent'|]);
    }
  }

  /** With a sound scan, the results never repeat a key, earlier results are
      kept, and with a cap there are at most `max(cap, 1)` of them. */
  lemma {:induction false} WalkUnique<P, C, R(!new), T(!new)>(ep: Endpoint<P, C, R, T>, server: (nat, P) -> Reply<Page<R, C>>,
                                                          cap: Option<int>, payload: P, acc: Collected<T>, sent: seq<P>)
    requires |sent| < ep.maxPages
    requires Sound(ep.scan) && Unique(acc) && Room(cap, |acc.items|)
    ensures var w := Walk(ep, server, cap, payload, acc, sent);
      w.outcome.Ok? ==>
        && Unique(w.outcome.value)
        && Extends(acc, w.outcome.value)
        && (cap.Some? ==> |w.outcome.value.items| <= Max(cap.value, 1))
    decreases ep.maxPages - |sent|
  {
    var sent' := sent + [payload];
    var reply := GetUrl(server(|sent|, payload));
    if reply.Ok? && !reply.value.body.exhausted {
      var page := reply.value.body;
      var r := ep.scan(cap, acc, page.records);
      if r.Ok? {
        var sc := r.value;
        assert ScanOk(cap, acc, sc);
        if !(sc.full || page.fault.Some? || cap.None? || page.cursor.None?) {
          var a := ep.advance(payload, page.cursor.value);
          if a.Ok? && |sent'| < ep.maxPages {
            WalkUnique(ep, server, cap, a.value, sc.collected, sent');
          }
        }
      }
    }
  }

  /** With a scan kept to the cap, earlier results are kept and with a cap
      there are at most `max(cap, 1)` results, whether or not keys repeat. */
  lemma {:induction false} WalkCapped<P, C, R(!new), T(!new)>(ep: Endpoint<P, C, R, T>, server: (nat, P) -> Reply<Page<R, C>>,
                                                           cap: Option<int>, payload: P, acc: Collected<T>, sent: seq<P>)
    requires |sent| < ep.maxPages
    requires Capped(ep.scan) && Room(cap, |acc.items|)
    ensures var w := Walk(ep, server, cap, payload, acc, sent);
      w.outcome.Ok? ==>
        && Extends(acc, w.outcome.value)
        && (cap.Some? ==> |w.outcome.value.items| <= Max(cap.value, 1))
    decreases ep.maxPages - |sent|
  {
    var sent' := sent + [payload];
    var reply := GetUrl(server(|sent|, payload));
    if reply.Ok? && !reply.value.body.exhausted {
      var page := reply.value.body;
      var r := ep.scan(cap, acc, page.records);
      if r.Ok? {
        var sc := r.value;
        assert CapOk(cap, acc, sc);
        if !(sc.full || page.fault.Some? || cap.None? || page.cursor.None?) {
          var a := ep.advance(payload, page.cursor.value);
          if a.Ok? && |sent'| < ep.maxPages {
            WalkCapped(ep, server, cap, a.value, sc.collected, sent');
          }
        }
      }
    }
  }

  /** With a cap, a server that always answers with a page holding no results
      but a cursor is asked for exactly the endpoint's page bound of pages. */
  lemma {:induction false} WalkReachesBound<P, C, R, T>(ep: Endpoint<P, C, R, T>, server: (nat, P) -> Reply<Page<R, C>>,
                                                     cap: int, payload: P, acc: Collected<T>, sent: seq<P>, c: C)
    requires |sent| < ep.maxPages
    requires forall n, p :: server(n, p) == Answered(Response(OK, map[], Page(false, [], Some(c), None)))
    requires forall p :: ep.advance(p, c).Ok?
    requires forall a :: ep.scan(Some(cap), a, []) == Ok(Scanned(a, false))
    ensures var w := Walk(ep, server, Some(cap), payload, acc, sent);
      |w.sent| == ep.maxPages && w.outcome == Ok(acc)
    decreases ep.maxPages - |sent|
  {
    var sent' := sent + [payload];
    assert server(|sent|, payload) == Answered(Response(OK, map[], Page(false, [], Some(c), None)));
    assert ep.scan(Some(cap), acc, []) == Ok(Scanned(acc, false));
    if |sent'| < ep.maxPages {
      WalkReachesBound(ep, server, cap, ep.advance(payload, c).value, acc, sent', c);
    }
  }

  /** Every result of `c`, with its key, has property `q`. */
  ghost predicate AllResults<T>(c: Collected<T>, q: (string, T) -> bool) {
    forall j :: 0 <= j < |c.keys| && j < |c.items| ==> q(c.keys[j], c.items[j])
  }

  /** `scan` adds only results that, with their keys, have property `q`. */
  ghost predicate ResultsKeep<T(!new), R(!new)>(scan: (Option<int>, Collected<T>, seq<R>) -> Result<Scanned<T>>, q: (string, T) -> bool) {
    forall cap, acc, recs :: AllResults(acc, q) && |acc.keys| == |acc.items| && scan(cap, acc, recs).Ok? ==>
      && AllResults(scan(cap, acc, recs).value.collected, q)
      && |scan(cap, acc, recs).value.collected.keys| == |scan(cap, acc, recs).value.collected.items|
  }

  /** A keyed scan whose accepted records have property `q` under their keys
      adds only such results. */
  lemma KeyedKeeps<R(!new), T(!new)>(judge: R -> Verdict, emit: R -> T, q: (string, T) -> bool)
    requires forall r :: judge(r).Accept? ==> q(judge(r).key, emit(r))
    ensures ResultsKeep((cap, acc, recs) => KeyedScan(judge, emit, cap, acc, recs), q)
  {
    forall cap, acc: Collected<T>, recs | AllResults(acc, q) && |acc.keys| == |acc.items| && KeyedScan(judge, emit, cap, acc, recs).Ok?
      ensures AllResults(KeyedScan(judge, emit, cap, acc, recs).value.collected, q)
      ensures |KeyedScan(judge, emit, cap, acc, recs).value.collected.keys| == |KeyedScan(judge, emit, cap, acc, recs).value.collected.items|
    {
      KeyedKeepsOne(judge, emit, q, cap, acc, recs);
    }
  }

  lemma {:induction false} KeyedKeepsOne<R, T>(judge: R -> Verdict, emit: R -> T, q: (string, T) -> bool,
                                               cap: Option<int>, acc: Collected<T>, recs: seq<R>)
    requires forall r :: judge(r).Accept? ==> q(judge(r).key, emit(r))
    requires AllResults(acc, q) && |acc.keys| == |acc.items| && KeyedScan(judge, emit, cap, acc, recs).Ok?
    ensures AllResults(KeyedScan(judge, emit, cap, acc, recs).value.collected, q)
    ensures |KeyedScan(judge, emit, cap, acc, recs).value.collected.keys| == |KeyedScan(judge, emit, cap, acc, recs).value.collected.items|
    decreases |recs|
  {
    if recs != [] {
      match judge(recs[0])
      case Skip => KeyedKeepsOne(judge, emit, q, cap, acc, recs[1..]);
      case Accept(k) =>
        if k in acc.seen {
          KeyedKeepsOne(judge, emit, q, cap, acc, recs[1..]);
        } else {
          var acc' := Add(acc, k, emit(recs[0]));
          assert AllResults(acc', q);
          if !Full(cap, |acc'.items|) {
            KeyedKeepsOne(judge, emit, q, cap, acc', recs[1..]);
          }
        }
    }
  }

  /** When every page scan adds only results with property `q`, so does the search. */
  lemma {:induction false} WalkKeeps<P, C, R(!new), T(!new)>(ep: Endpoint<P, C, R, T>, server: (nat, P) -> Reply<Page<R, C>>,
                                                           cap: Option<int>, payload: P, acc: Collected<T>, sent: seq<P>,
                                                           q: (string, T) -> bool)
    requires |sent| < ep.maxPages
    requires ResultsKeep(ep.scan, q) && AllResults(acc, q) && |acc.keys| == |acc.items|
    ensures var w := Walk(ep, server, cap, payload, acc, sent);
      w.outcome.Ok? ==> AllResults(w.outcome.value, q)
    decreases ep.maxPages - |sent|
  {
    var reply := GetUrl(server(|sent|, payload));
    if reply.Ok? && !reply.value.body.exhausted {
      var page := reply.value.body;
      var r := ep.scan(cap, acc, page.records);
      if r.Ok? {
        assert AllResults(r.value.collected, q);
        if !(r.value.full || page.fault.Some? || cap.None? || page.cursor.None?) {
          var a := ep.advance(payload, page.cursor.value);
          if a.Ok? && |sent| + 1 < ep.maxPages {
            WalkKeeps(ep, server, cap, a.value, r.value.collected, sent + [payload], q);
          }
        }
      }
    }
  }
}

