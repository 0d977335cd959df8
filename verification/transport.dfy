/** The request layer: how a server reply becomes a value or an exception, and
    the pacer the synchronous client runs before every request.
 */
module Transport {
  import opened Outcomes

  /** An HTTP response: status code, header values by name, and a body. */
  datatype Response<B> = Response(status: int, headers: map<string, seq<string>>, body: B)

  /** What a request comes back with: a response, or a transport failure
      whose message does or does not mention a timeout. */
  datatype Reply<B> = Answered(resp: Response<B>) | Refused(mentionsTimeout: bool)

  /** The reply with its body, if any, transformed by `f`. */
  function MapReply<A, B>(reply: Reply<A>, f: A -> B): (r: Reply<B>)
    ensures r.Answered? <==> reply.Answered?
    ensures r.Answered? ==> r.resp == Response(reply.resp.status, reply.resp.headers, f(reply.resp.body))
    ensures r.Refused? ==> r.mentionsTimeout == reply.mentionsTimeout
  {
    match reply
    case Answered(resp) => Answered(Response(resp.status, resp.headers, f(resp.body)))
    case Refused(t) => Refused(t)
  }

  const OK: int := 200

  /** Statuses taken as throttling: 202, 301, 403, 400, 429 and 418. */
  const RatelimitStatuses: set<int> := {202, 301, 403, 400, 429, 418}

  /** `GetUrl` after the request is sent: 200 passes the response on, a
      throttling status raises a rate-limit error, any other status a search
      error, and a transport failure a timeout or a search error. */
  function GetUrl<B>(reply: Reply<B>): (r: Result<Response<B>>)
    ensures r.Ok? <==> reply.Answered? && reply.resp.status == OK
    ensures r.Ok? ==> r.value == reply.resp
    ensures reply.Answered? && reply.resp.status in RatelimitStatuses ==>
              r == Fail(Ratelimit(ThrottleStatus(reply.resp.status)))
    ensures reply.Answered? && reply.resp.status != OK && reply.resp.status !in RatelimitStatuses ==>
              r == Fail(SearchError(UnexpectedStatus(reply.resp.status)))
    ensures reply == Refused(true) ==> r == Fail(Timeout)
    ensures reply == Refused(false) ==> r == Fail(SearchError(TransportFailure))
  {
    match reply
    case Refused(timedOut) => if timedOut then Fail(Timeout) else Fail(SearchError(TransportFailure))
    case Answered(resp) =>
      if resp.status == OK then Ok(resp)
      else if resp.status in RatelimitStatuses then Fail(Ratelimit(ThrottleStatus(resp.status)))
      else Fail(SearchError(UnexpectedStatus(resp.status)))
  }

  /** The asynchronous `GetUrl` given a `timeout` argument, as written: it
      assigns the client's timeout before sending, which `HttpClient` refuses
      once the client has `started` (sent any request), with an exception
      the transport handler does not catch. */
  function GetUrlWithTimeout<B>(started: bool, reply: Reply<B>): (r: Result<Response<B>>)
    ensures started ==> r == Fail(RuntimeError(InvalidOperation))
    ensures !started ==> r == GetUrl(reply)
  {
    if started then Fail(RuntimeError(InvalidOperation)) else GetUrl(reply)
  }

  /** Once the client has sent a request, a request with a timeout fails
      whatever the server would have answered, where `GetUrl` passes a 200
      reply on. */
  lemma TimeoutAfterStartFails<B>(resp: Response<B>)
    requires resp.status == OK
    ensures GetUrlWithTimeout(true, Answered(resp)) == Fail(RuntimeError(InvalidOperation))
    ensures GetUrl(Answered(resp)) == Ok(resp)
  {
  }

  /** A status is classified by itself alone: two responses with the same
      status both pass or fail the same way, whatever their bodies. */
  lemma ClassifiedByStatus<B>(a: Response<B>, b: Response<B>)
    requires a.status == b.status
    ensures GetUrl(Answered(a)).Ok? <==> GetUrl(Answered(b)).Ok?
    ensures GetUrl(Answered(a)).Fail? ==> GetUrl(Answered(a)).error == GetUrl(Answered(b)).error
  {
  }

  /** Every answered status falls in exactly one of the three classes. */
  lemma StatusClasses<B>(resp: Response<B>)
    ensures var r := GetUrl(Answered(resp));
      (r.Ok? && resp.status == OK)
      || (r.Fail? && r.error.Ratelimit? && resp.status in RatelimitStatuses)
      || (r.Fail? && r.error.SearchError? && resp.status != OK && resp.status !in RatelimitStatuses)
  {
  }

  /** The pacer of the synchronous client: the Unix time in seconds of the
      previous request, 0 before the first. */
  datatype Pacer = Pacer(last: int)

  const Unpaced: Pacer := Pacer(0)

  /** Requests closer together than this many seconds are delayed. */
  const PaceWindow: int := 20

  /** The delay, in milliseconds: 0.75 seconds. */
  const PaceDelay: nat := 750

  /** `Sleep` at time `now`: the new pacer and the delay to wait.  A delay is
      due when an earlier request was made less than 20 seconds ago; the
      pacer records `now` whether or not it delays. */
  function Sleep(p: Pacer, now: int): (r: (Pacer, nat))
    ensures r.0 == Pacer(now)
    ensures r.1 == PaceDelay <==> p.last != 0 && now - p.last < PaceWindow
    ensures r.1 == 0 <==> !(p.last != 0 && now - p.last < PaceWindow)
  {
    var delay := if p.last != 0 && now - p.last < PaceWindow then PaceDelay else 0;
    (Pacer(now), delay)
  }

  /** The synchronous `GetUrl`: paces, then sends and classifies as the
      asynchronous one does. */
  function SyncGetUrl<B>(p: Pacer, now: int, reply: Reply<B>): (r: (Pacer, nat, Result<Response<B>>))
    ensures (r.0, r.1) == Sleep(p, now)
    ensures r.2 == GetUrl(reply)
  {
    var (p', delay) := Sleep(p, now);
    (p', delay, GetUrl(reply))
  }

  /** The pacer's state and total delay after requests at the times `times`. */
  function PaceRun(p: Pacer, times: seq<int>): (Pacer, nat)
    decreases |times|
  {
    if times == [] then (p, 0)
    else
      var (p', d) := Sleep(p, times[0]);
      var (q, total) := PaceRun(p', times[1..]);
      (q, d + total)
  }

  /** The delays of a run of requests, one per request. */
  function Delays(p: Pacer, times: seq<int>): (r: seq<nat>)
    ensures |r| == |times|
    decreases |times|
  {
    if times == [] then []
    else
      var (p', d) := Sleep(p, times[0]);
      [d] + Delays(p', times[1..])
  }

  /** The first request of a fresh pacer never waits, and after a run the
      pacer holds the time of the last request. */
  lemma {:induction false} FirstNeverDelays(times: seq<int>)
    requires times != []
    ensures Delays(Unpaced, times)[0] == 0
    ensures PaceRun(Unpaced, times).0 == Pacer(times[|times| - 1])
  {
    RunEndsAtLast(Unpaced, times);
  }

  lemma {:induction false} RunEndsAtLast(p: Pacer, times: seq<int>)
    requires times != []
    ensures PaceRun(p, times).0 == Pacer(times[|times| - 1])
    decreases |times|
  {
    if |times| > 1 {
      RunEndsAtLast(Sleep(p, times[0]).0, times[1..]);
    }
  }

  /** The total delay of a run is the sum of its per-request delays. */
  lemma {:induction false} RunTotal(p: Pacer, times: seq<int>)
    ensures PaceRun(p, times).1 == Sum(Delays(p, times))
    decreases |times|
  {
    if times != [] {
      var (p', d) := Sleep(p, times[0]);
      RunTotal(p', times[1..]);
      assert Delays(p, times) == [d] + Delays(p', times[1..]);
      assert ([d] + Delays(p', times[1..]))[1..] == Delays(p', times[1..]);
    }
  }

  function Sum(ds: seq<nat>): nat {
    if ds == [] then 0 else ds[0] + Sum(ds[1..])
  }

  /** Requests at least 20 seconds apart are never delayed. */
  lemma {:induction false} SparseNeverDelays(p: Pacer, times: seq<int>)
    requires times != [] ==> p.last == 0 || times[0] - p.last >= PaceWindow
    requires forall i :: 0 < i < |times| ==> times[i] - times[i - 1] >= PaceWindow
    ensures PaceRun(p, times).1 == 0
    decreases |times|
  {
    if times != [] {
      SparseNeverDelays(Pacer(times[0]), times[1..]);
    }
  }

  /** Requests all made in the same second wait 0.75 seconds each, except
      the first when the pacer is fresh. */
  lemma {:induction false} BurstDelays(p: Pacer, t: int, n: nat)
    requires t != 0 && (p.last == 0 || p.last == t)
    ensures PaceRun(p, seq(n, _ => t)).1 == (if n == 0 then 0 else if p.last == 0 then (n - 1) * PaceDelay else n * PaceDelay)
    decreases n
  {
    if n > 0 {
      var times := seq(n, _ => t);
      assert times[1..] == seq(n - 1, _ => t);
      BurstDelays(Pacer(t), t, n - 1);
    }
  }
}
