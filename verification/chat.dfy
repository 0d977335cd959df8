/** The AI chat: the token pair the service hands out, the server-sent event
    lines of a reply, and how a turn folds into the conversation's history
    and token count.  The asynchronous client names its model by the `Model`
    enum and carries a token hash; the synchronous one names models by short
    name, carries no hash, and paces its token request.
 */
module Chat {
  import opened Outcomes
  import opened Strings
  import opened Transport
  import opened Models

  // ---------------------------------------------------------------------
  // Event lines

  /** A JSON value where the client reads it as a string. */
  datatype JsonText = Str(s: string) | Null | NonString

  /** An event payload as the JSON parser returns it: not JSON at all, a
      JSON value other than an object, or an object with the three
      properties the client looks at, each possibly missing. */
  datatype Event = Malformed | NotObject | Object(action: Option<JsonText>, kind: Option<JsonText>, message: Option<JsonText>)

  /** `JsonElement.GetString()`: the string, null for JSON null; any other
      value throws. */
  function GetString(t: JsonText): (r: Result<Option<string>>)
    ensures r.Fail? <==> t.NonString?
    ensures r.Fail? ==> r.error == RuntimeError(NotAString)
    ensures t.Str? ==> r == Ok(Some(t.s))
    ensures t.Null? ==> r == Ok(None)
  {
    match t
    case Str(s) => Ok(Some(s))
    case Null => Ok(None)
    case NonString => Fail(RuntimeError(NotAString))
  }

  const DataPrefix: string := "data:"
  const DoneMark: string := "[DONE]"
  const LimitMark: string := "[DONE][LIMIT_CONVERSATION]"
  const LimitError: string := "ERR_CONVERSATION_LIMIT"
  const TooManyRequests: int := 429

  /** What one line of the reply does to the loop. */
  datatype LineOutcome = Ignore | Emit(fragment: Option<string>) | Done | Raise(error: Error)

  /** The trimmed payload of a data line: the text after the prefix with
      the blanks around it removed. */
  function DataOf(line: string): (r: string)
    requires StartsWith(line, DataPrefix)
    ensures var rest := line[|DataPrefix|..];
            exists lo, hi :: 0 <= lo <= hi <= |rest| && r == rest[lo..hi]
                             && (forall i :: 0 <= i < lo ==> IsWhiteSpace(rest[i]))
                             && (forall i :: hi <= i < |rest| ==> IsWhiteSpace(rest[i]))
    ensures r == [] || (!IsWhiteSpace(r[0]) && !IsWhiteSpace(r[|r| - 1]))
  {
    Trim(line[|DataPrefix|..])
  }

  /** The exception an `error` action raises: under status 429 a conversation
      limit when its type says so, otherwise a rate limit; under any other
      status a search error. */
  function ChatError(status: int, errType: Option<string>): (e: Error)
    ensures e.ConversationLimit? <==> status == TooManyRequests && errType == Some(LimitError)
    ensures e.Ratelimit? <==> status == TooManyRequests && errType != Some(LimitError)
    ensures e.SearchError? <==> status != TooManyRequests
    ensures e.ConversationLimit? ==> e.errType == LimitError
    ensures e.Ratelimit? ==> e.reason == ThrottleEvent(errType)
    ensures e.SearchError? ==> e.cause == ChatErrorEvent(errType)
  {
    if status == TooManyRequests then
      if errType == Some(LimitError) then ConversationLimit(LimitError) else Ratelimit(ThrottleEvent(errType))
    else SearchError(ChatErrorEvent(errType))
  }

  /** One line of the reply, `status` being the reply's status and `parse`
      the JSON parser. */
  function Interpret(line: string, status: int, parse: string -> Event): (r: LineOutcome)
    ensures !StartsWith(line, DataPrefix) ==> r == Ignore
    ensures r == Done <==> StartsWith(line, DataPrefix) && DataOf(line) == DoneMark
    ensures r.Emit? ==> StartsWith(line, DataPrefix) && parse(DataOf(line)).Object?
                        && parse(DataOf(line)).message.Some?
                        && GetString(parse(DataOf(line)).message.value) == Ok(r.fragment)
    ensures StartsWith(line, DataPrefix) && DataOf(line) == LimitMark ==> r == Raise(ConversationLimit(LimitError))
    ensures StartsWith(line, DataPrefix) && DataOf(line) !in {DoneMark, LimitMark} && parse(DataOf(line)).Malformed? ==>
              r == Raise(SearchError(MalformedEvent))
    ensures StartsWith(line, DataPrefix) && DataOf(line) !in {DoneMark, LimitMark} && parse(DataOf(line)).NotObject? ==>
              r == Ignore
    ensures r.Raise? && r.error.Ratelimit? ==> status == TooManyRequests
  {
    if !StartsWith(line, DataPrefix) then Ignore
    else
      var data := DataOf(line);
      if data == DoneMark then Done
      else if data == LimitMark then Raise(ConversationLimit(LimitError))
      else match parse(data)
        case Malformed => Raise(SearchError(MalformedEvent))
        case NotObject => Ignore
        case Object(action, kind, message) =>
          var isError: Result<bool> :=
            if action.None? then Ok(false)
            else match GetString(action.value)
              case Fail(e) => Fail(e)
              case Ok(a) => Ok(a == Some("error"));
          match isError
          case Fail(e) => Raise(e)
          case Ok(true) =>
            var errType := if kind.None? then Ok(Some("")) else GetString(kind.value);
            (match errType
             case Fail(e) => Raise(e)
             case Ok(t) => Raise(ChatError(status, t)))
          case Ok(false) =>
            if message.None? then Ignore
            else match GetString(message.value)
              case Fail(e) => Raise(e)
              case Ok(m) => Emit(m)
  }

  /** How reading stopped: the lines ran out, a "[DONE]" line came, or a line
      raised. */
  datatype End = Exhausted | Finished | Failed(error: Error)

  /** The fragments yielded and how reading stopped. */
  datatype Streamed = Streamed(fragments: seq<Option<string>>, end: End)

  /** The reading loop over the reply's lines. */
  function ReadStream(lines: seq<string>, status: int, parse: string -> Event): (r: Streamed)
    ensures |r.fragments| <= |lines|
    decreases |lines|
  {
    if lines == [] then Streamed([], Exhausted)
    else match Interpret(lines[0], status, parse)
      case Ignore => ReadStream(lines[1..], status, parse)
      case Done => Streamed([], Finished)
      case Raise(e) => Streamed([], Failed(e))
      case Emit(f) =>
        var rest := ReadStream(lines[1..], status, parse);
        Streamed([f] + rest.fragments, rest.end)
  }

  /** Reading two runs of lines is reading the first, then, if it ran out,
      the second. */
  lemma {:induction false} ReadStreamConcat(a: seq<string>, b: seq<string>, status: int, parse: string -> Event)
    ensures var ra := ReadStream(a, status, parse);
      ReadStream(a + b, status, parse) ==
        if ra.end == Exhausted then
          Streamed(ra.fragments + ReadStream(b, status, parse).fragments, ReadStream(b, status, parse).end)
        else ra
    decreases |a|
  {
    if a == [] {
      assert a + b == b;
    } else {
      assert (a + b)[0] == a[0] && (a + b)[1..] == a[1..] + b;
      ReadStreamConcat(a[1..], b, status, parse);
      var rb := ReadStream(b, status, parse);
      match Interpret(a[0], status, parse)
      case Emit(f) =>
        var rest := ReadStream(a[1..], status, parse);
        if rest.end == Exhausted {
          assert [f] + (rest.fragments + rb.fragments) == ([f] + rest.fragments) + rb.fragments;
        }
      case _ =>
    }
  }

  /** A "[DONE]" line ends the reply: whatever follows it is not read. */
  lemma DoneEndsReading(a: seq<string>, done: string, b: seq<string>, status: int, parse: string -> Event)
    requires StartsWith(done, DataPrefix) && DataOf(done) == DoneMark
    requires ReadStream(a, status, parse).end == Exhausted
    ensures ReadStream(a + [done] + b, status, parse) == Streamed(ReadStream(a, status, parse).fragments, Finished)
  {
    ReadStreamConcat(a + [done], b, status, parse);
    ReadStreamConcat(a, [done], status, parse);
    assert ReadStream([done], status, parse) == Streamed([], Finished);
    assert ReadStream(a, status, parse).fragments + [] == ReadStream(a, status, parse).fragments;
  }

  /** The lines that start with "data:". */
  function DataLines(lines: seq<string>): (r: seq<string>)
    ensures |r| <= |lines|
    ensures forall i :: 0 <= i < |r| ==> StartsWith(r[i], DataPrefix)
  {
    if lines == [] then []
    else (if StartsWith(lines[0], DataPrefix) then [lines[0]] else []) + DataLines(lines[1..])
  }

  /** Only data lines matter: the reply reads the same with every other line
      dropped. */
  lemma {:induction false} OnlyDataLines(lines: seq<string>, status: int, parse: string -> Event)
    ensures ReadStream(lines, status, parse) == ReadStream(DataLines(lines), status, parse)
    decreases |lines|
  {
    if lines != [] {
      OnlyDataLines(lines[1..], status, parse);
      var d := DataLines(lines);
      if StartsWith(lines[0], DataPrefix) {
        assert d == [lines[0]] + DataLines(lines[1..]);
        assert d[0] == lines[0] && d[1..] == DataLines(lines[1..]);
      } else {
        assert d == DataLines(lines[1..]) by { assert d == [] + DataLines(lines[1..]); }
        assert Interpret(lines[0], status, parse) == Ignore;
      }
    }
  }

  /** The fragments joined: `string.Join("", chunks)`, a null chunk adding nothing. */
  function Joined(fragments: seq<Option<string>>): (r: string)
    ensures fragments != [] ==> fragments[0].GetOr([]) <= r
    ensures r == [] <==> forall k :: 0 <= k < |fragments| ==> fragments[k].GetOr([]) == []
  {
    if fragments == [] then []
    else
      assert forall k :: 1 <= k < |fragments| ==> fragments[k] == fragments[1..][k - 1];
      fragments[0].GetOr([]) + Joined(fragments[1..])
  }

  lemma {:induction false} JoinedAppend(a: seq<Option<string>>, b: seq<Option<string>>)
    ensures Joined(a + b) == Joined(a) + Joined(b)
  {
    if a == [] {
      assert a + b == b;
    } else {
      assert (a + b)[1..] == a[1..] + b;
      JoinedAppend(a[1..], b);
    }
  }

  /** A data line with blanks after the prefix carries `payload`. */
  lemma DataLine(pad: string, payload: string)
    requires forall i :: 0 <= i < |pad| ==> pad[i] == ' '
    requires payload != [] && !IsWhiteSpace(payload[0]) && !IsWhiteSpace(payload[|payload| - 1])
    ensures StartsWith(DataPrefix + pad + payload, DataPrefix)
    ensures DataOf(DataPrefix + pad + payload) == payload
  {
    var line := DataPrefix + pad + payload;
    assert line[..|DataPrefix|] == DataPrefix;
    assert line[|DataPrefix|..] == pad + payload;
    TrimAfterBlanks(pad, payload);
  }

  /** A data line whose event is an object with a string message and a
      non-error action emits that message. */
  lemma MessageLine(pad: string, payload: string, status: int, parse: string -> Event, text: string)
    requires forall i :: 0 <= i < |pad| ==> pad[i] == ' '
    requires PlainPayload(payload)
    requires parse(payload).Object? && parse(payload).message == Some(Str(text))
    requires parse(payload).action.None? || (parse(payload).action.value.Str? && parse(payload).action.value.s != "error")
    ensures Interpret(DataPrefix + pad + payload, status, parse) == Emit(Some(text))
  {
    DataLine(pad, payload);
  }

  /** A payload that `Trim` leaves alone and that is neither end mark. */
  predicate PlainPayload(p: string) {
    p != [] && !IsWhiteSpace(p[0]) && !IsWhiteSpace(p[|p| - 1]) && p != DoneMark && p != LimitMark
  }

  /** One step of the reading loop. */
  lemma ReadStep(line: string, rest: seq<string>, status: int, parse: string -> Event)
    ensures var r := ReadStream([line] + rest, status, parse);
      match Interpret(line, status, parse)
      case Ignore => r == ReadStream(rest, status, parse)
      case Done => r == Streamed([], Finished)
      case Raise(e) => r == Streamed([], Failed(e))
      case Emit(f) => r == Streamed([f] + ReadStream(rest, status, parse).fragments, ReadStream(rest, status, parse).end)
  {
    assert ([line] + rest)[0] == line && ([line] + rest)[1..] == rest;
  }

  /** Reading a message line emits its text ahead of the rest. */
  lemma ReadMessage(pad: string, payload: string, rest: seq<string>, status: int, parse: string -> Event, text: string)
    requires forall i :: 0 <= i < |pad| ==> pad[i] == ' '
    requires PlainPayload(payload)
    requires parse(payload).Object? && parse(payload).message == Some(Str(text))
    requires parse(payload).action.None? || (parse(payload).action.value.Str? && parse(payload).action.value.s != "error")
    ensures ReadStream([DataPrefix + pad + payload] + rest, status, parse)
      == Streamed([Some(text)] + ReadStream(rest, status, parse).fragments, ReadStream(rest, status, parse).end)
  {
    MessageLine(pad, payload, status, parse, text);
    ReadStep(DataPrefix + pad + payload, rest, status, parse);
  }

  /** Two message events around a comment line yield the two messages. */
  lemma MessagesExample(parse: string -> Event, status: int, p1: string, p2: string, a: string, b: string, comment: string)
    requires PlainPayload(p1) && PlainPayload(p2) && !StartsWith(comment, DataPrefix)
    requires parse(p1) == Object(None, None, Some(Str(a)))
    requires parse(p2) == Object(Some(Str("append")), None, Some(Str(b)))
    ensures ReadStream([DataPrefix + " " + p1, comment, DataPrefix + p2], status, parse) == Streamed([Some(a), Some(b)], Exhausted)
  {
    var l0, l2 := DataPrefix + " " + p1, DataPrefix + p2;
    ReadMessage("", p2, [], status, parse, b);
    assert DataPrefix + "" + p2 == l2 && [l2] + [] == [l2];
    ReadStep(comment, [l2], status, parse);
    ReadMessage(" ", p1, [comment, l2], status, parse, a);
    assert [comment] + [l2] == [comment, l2];
    assert [l0] + [comment, l2] == [l0, comment, l2];
  }

  /** A reply of two message events, a comment, a "[DONE]" and anything
      after it yields the two messages and nothing else. */
  lemma StreamExample(parse: string -> Event, status: int, p1: string, p2: string, a: string, b: string,
                      comment: string, after: seq<string>)
    requires PlainPayload(p1) && PlainPayload(p2) && !StartsWith(comment, DataPrefix)
    requires parse(p1) == Object(None, None, Some(Str(a)))
    requires parse(p2) == Object(Some(Str("append")), None, Some(Str(b)))
    ensures var r := ReadStream([DataPrefix + " " + p1, comment, DataPrefix + p2] + [DataPrefix + " " + DoneMark] + after, status, parse);
      r.end == Finished && Joined(r.fragments) == a + b
  {
    MessagesExample(parse, status, p1, p2, a, b, comment);
    DataLine(" ", DoneMark);
    DoneEndsReading([DataPrefix + " " + p1, comment, DataPrefix + p2], DataPrefix + " " + DoneMark, after, status, parse);
    JoinedTwo(a, b);
  }

  lemma JoinedTwo(a: string, b: string)
    ensures Joined([Some(a), Some(b)]) == a + b
  {
    JoinedAppend([Some(a)], [Some(b)]);
    assert [Some(a)] + [Some(b)] == [Some(a), Some(b)];
    assert Joined([Some(a)]) == a + Joined([]);
    assert Joined([Some(b)]) == b + Joined([]);
  }

  // ---------------------------------------------------------------------
  // Headers

  /** The first value of header `name`, or `prev` when the reply does not
      carry it: what `GetValues(name).FirstOrDefault() ?? old` is meant to do. */
  function HeaderOr(headers: map<string, seq<string>>, name: string, prev: string): (r: string)
    ensures name in headers && headers[name] != [] ==> r == headers[name][0]
    ensures !(name in headers && headers[name] != []) ==> r == prev
  {
    if name in headers && headers[name] != [] then headers[name][0] else prev
  }

  /** The header lookup as written: `GetValues` throws when the reply does
      not carry the header at all, so the fallback is reached only for a
      header present with no value. */
  function HeaderAsWritten(headers: map<string, seq<string>>, name: string, prev: string): (r: Result<string>)
    ensures r.Fail? <==> name !in headers
    ensures r.Fail? ==> r.error == RuntimeError(HeaderNotFound)
    ensures r.Ok? ==> r.value == HeaderOr(headers, name, prev)
  {
    if name !in headers then Fail(RuntimeError(HeaderNotFound))
    else Ok(if headers[name] != [] then headers[name][0] else prev)
  }

  /** A reply without the token header: the lookup as written throws where
      the evident intent keeps the previous token. */
  lemma MissingHeaderThrows(prev: string)
    ensures HeaderAsWritten(map[], VqdHeader, prev) == Fail(RuntimeError(HeaderNotFound))
    ensures HeaderOr(map[], VqdHeader, prev) == prev
  {
  }

  const VqdHeader: string := "x-vqd-4"
  const HashHeader: string := "x-vqd-hash-1"

  /** The header lookup of a reading: `GetValues` as written, which throws
      for an absent header, or the fallback it evidently intends. */
  function Header(reading: Reading, headers: map<string, seq<string>>, name: string, prev: string): (r: Result<string>)
    ensures r.Ok? ==> r.value == HeaderOr(headers, name, prev)
    ensures r.Fail? <==> reading.AsWritten? && name !in headers
    ensures r.Fail? ==> r.error == RuntimeError(HeaderNotFound)
  {
    if reading.AsWritten? then HeaderAsWritten(headers, name, prev) else Ok(HeaderOr(headers, name, prev))
  }

  /** The chat reply's headers let the token rotate: the reading falls back
      on absent headers, or the reply carries the token header and, when a
      hash is sent, the hash header. */
  predicate TokensFound(reading: Reading, sendHash: bool, headers: map<string, seq<string>>) {
    reading.Intended? || (VqdHeader in headers && (sendHash ==> HashHeader in headers))
  }

  // ---------------------------------------------------------------------
  // The conversation

  /** A message of the history, with its role's wire name. */
  datatype Message = Message(role: string, content: string)

  /** The conversation as a client holds it. */
  datatype ChatState = ChatState(history: seq<Message>, tokens: int, vqd: string, vqdHash: string)

  const Fresh: ChatState := ChatState([], 0, "", "")

  /** The chat request: the model identifier, the whole history so far, and
      the token headers (no hash for the synchronous client). */
  datatype ChatRequest = ChatRequest(model: string, messages: seq<Message>, vqd: string, vqdHash: Option<string>)

  /** A turn: the state after it, the request sent (none when the token
      request failed first), the fragments yielded and the answer. */
  datatype Turn = Turn(state: ChatState, request: Option<ChatRequest>, fragments: seq<Option<string>>, outcome: Result<string>)

  /** The tokens a prompt is counted for: a quarter of its length, at least one. */
  function PromptTokens(keywords: string): (n: int)
    ensures n >= 1
    ensures |keywords| >= 4 ==> 4 * n <= |keywords| < 4 * n + 4
    ensures |keywords| < 8 ==> n == 1
  {
    Max(|keywords| / 4, 1)
  }

  /** The token count a history accounts for: each user message by
      `PromptTokens`, each assistant message by its length. */
  function TokenCount(history: seq<Message>): int
  {
    if history == [] then 0
    else TokenCount(history[..|history| - 1]) + MessageTokens(history[|history| - 1])
  }

  function MessageTokens(m: Message): int {
    if m.role == "user" then PromptTokens(m.content) else |m.content|
  }

  lemma TokenCountAppend(history: seq<Message>, m: Message)
    ensures TokenCount(history + [m]) == TokenCount(history) + MessageTokens(m)
  {
    assert (history + [m])[..|history|] == history;
  }

  /** `GetChatVqdAsync`: a new token pair is asked for when either half is
      missing or `force` is set; the reply's headers replace the halves they
      carry.  The first component says whether a token was asked for.  The
      request carries the client's timeout, which as written fails once the
      client has `started`; as written, an absent header throws. */
  function GetChatVqd<B>(st: ChatState, force: bool, started: bool, status: Reply<B>, reading: Reading): (r: (bool, Result<(string, string)>))
    ensures r.0 <==> st.vqd == [] || force || st.vqdHash == []
    ensures !r.0 ==> r.1 == Ok((st.vqd, st.vqdHash))
    ensures r.0 && reading.AsWritten? && started ==> r.1 == Fail(RuntimeError(InvalidOperation))
    ensures r.0 && !(reading.AsWritten? && started) && GetUrl(status).Fail? ==> r.1 == Fail(GetUrl(status).error)
    ensures r.0 && !(reading.AsWritten? && started) && GetUrl(status).Ok? ==>
      (r.1.Fail? <==> reading.AsWritten? && (VqdHeader !in status.resp.headers || HashHeader !in status.resp.headers))
    ensures r.0 && !(reading.AsWritten? && started) && GetUrl(status).Ok? && r.1.Fail? ==>
      r.1.error == RuntimeError(HeaderNotFound)
    ensures r.0 && !(reading.AsWritten? && started) && GetUrl(status).Ok? && r.1.Ok? ==>
      r.1.value == (HeaderOr(status.resp.headers, VqdHeader, st.vqd), HeaderOr(status.resp.headers, HashHeader, st.vqdHash))
  {
    if st.vqd == [] || force || st.vqdHash == [] then
      var reply := if reading.AsWritten? then GetUrlWithTimeout(started, status) else GetUrl(status);
      match reply
      case Fail(e) => (true, Fail(e))
      case Ok(resp) =>
        match Header(reading, resp.headers, VqdHeader, st.vqd)
        case Fail(e) => (true, Fail(e))
        case Ok(vqd) =>
          match Header(reading, resp.headers, HashHeader, st.vqdHash)
          case Fail(e) => (true, Fail(e))
          case Ok(hash) => (true, Ok((vqd, hash)))
    else (false, Ok((st.vqd, st.vqdHash)))
  }

  /** The exchange once the token is known: the prompt joins the history and
      the count, the request goes out, the reply's headers rotate the token
      (as written, an absent one throws, after the token header has already
      rotated when only the hash header is absent), and a reply read to its
      end adds the answer. */
  function Exchange(st: ChatState, keywords: string, model: string, sendHash: bool,
                    chat: Reply<seq<string>>, parse: string -> Event, reading: Reading): (t: Turn)
    ensures t.request.Some?
    ensures t.request.value.messages == st.history + [Message("user", keywords)]
    ensures t.request.value.model == model && t.request.value.vqd == st.vqd
    ensures t.request.value.vqdHash == (if sendHash then Some(st.vqdHash) else None)
    ensures t.outcome.Ok? ==> t.state.history == st.history + [Message("user", keywords), Message("assistant", t.outcome.value)]
    ensures t.outcome.Ok? ==> t.state.tokens == st.tokens + PromptTokens(keywords) + |t.outcome.value|
    ensures t.outcome.Ok? ==> t.outcome.value == Joined(t.fragments)
    ensures t.outcome.Fail? ==> t.state.history == st.history + [Message("user", keywords)]
    ensures t.outcome.Fail? ==> t.state.tokens == st.tokens + PromptTokens(keywords)
    ensures chat.Refused? ==> t.outcome == Fail(RuntimeError(TransportFault)) && t.state.vqd == st.vqd
                              && t.state.vqdHash == st.vqdHash
    ensures chat.Answered? && TokensFound(reading, sendHash, chat.resp.headers) ==>
              && t.state.vqd == HeaderOr(chat.resp.headers, VqdHeader, st.vqd)
              && t.state.vqdHash == (if sendHash then HeaderOr(chat.resp.headers, HashHeader, st.vqdHash) else st.vqdHash)
              && t.fragments == ReadStream(chat.resp.body, chat.resp.status, parse).fragments
              && (t.outcome.Ok? <==> !ReadStream(chat.resp.body, chat.resp.status, parse).end.Failed?)
    ensures chat.Answered? && TokensFound(reading, sendHash, chat.resp.headers)
            && ReadStream(chat.resp.body, chat.resp.status, parse).end.Failed? ==>
              t.outcome == Fail(ReadStream(chat.resp.body, chat.resp.status, parse).end.error)
    ensures chat.Answered? && !TokensFound(reading, sendHash, chat.resp.headers) ==>
              && t.outcome == Fail(RuntimeError(HeaderNotFound)) && t.fragments == []
              && t.state.vqd == (if VqdHeader in chat.resp.headers then HeaderOr(chat.resp.headers, VqdHeader, st.vqd) else st.vqd)
              && t.state.vqdHash == st.vqdHash
    ensures !sendHash ==> t.state.vqdHash == st.vqdHash
  {
    var history := st.history + [Message("user", keywords)];
    var tokens := st.tokens + PromptTokens(keywords);
    var req := ChatRequest(model, history, st.vqd, if sendHash then Some(st.vqdHash) else None);
    match chat
    case Refused(_) => Turn(ChatState(history, tokens, st.vqd, st.vqdHash), Some(req), [], Fail(RuntimeError(TransportFault)))
    case Answered(resp) =>
      match Header(reading, resp.headers, VqdHeader, st.vqd)
      case Fail(e) => Turn(ChatState(history, tokens, st.vqd, st.vqdHash), Some(req), [], Fail(e))
      case Ok(vqd) =>
        match (if sendHash then Header(reading, resp.headers, HashHeader, st.vqdHash) else Ok(st.vqdHash))
        case Fail(e) => Turn(ChatState(history, tokens, vqd, st.vqdHash), Some(req), [], Fail(e))
        case Ok(hash) =>
          var s := ReadStream(resp.body, resp.status, parse);
          if s.end.Failed? then Turn(ChatState(history, tokens, vqd, hash), Some(req), s.fragments, Fail(s.end.error))
          else
            var answer := Joined(s.fragments);
            Turn(ChatState(history + [Message("assistant", answer)], tokens + |answer|, vqd, hash), Some(req), s.fragments, Ok(answer))
  }

  /** `ChatTokensAysnc`, read to the end: the token pair, then the exchange
      under the model's identifier.  A failed token request leaves the
      conversation as it was. */
  function AsyncTurn<B>(st: ChatState, keywords: string, model: Model, started: bool, status: Reply<B>,
                        chat: Reply<seq<string>>, parse: string -> Event, reading: Reading): (t: Turn)
    ensures t.request.None? <==> GetChatVqd(st, false, started, status, reading).1.Fail?
    ensures t.request.None? ==> t.state == st && t.fragments == []
                                && t.outcome == Fail(GetChatVqd(st, false, started, status, reading).1.error)
    ensures t.request.Some? ==> t.request.value.model == GetModel(model)
    ensures t.request.Some? ==> t.request.value.messages == st.history + [Message("user", keywords)]
    ensures t.request.Some? ==> t.request.value.vqd == GetChatVqd(st, false, started, status, reading).1.value.0
    ensures t.request.Some? ==> t.request.value.vqdHash == Some(GetChatVqd(st, false, started, status, reading).1.value.1)
    ensures t.request.Some? && chat.Answered? && TokensFound(reading, true, chat.resp.headers) ==>
              && t.state.vqd == HeaderOr(chat.resp.headers, VqdHeader, t.request.value.vqd)
              && t.state.vqdHash == HeaderOr(chat.resp.headers, HashHeader, t.request.value.vqdHash.value)
    ensures t.request.Some? && chat.Answered? && !TokensFound(reading, true, chat.resp.headers) ==>
              t.outcome == Fail(RuntimeError(HeaderNotFound)) && t.state.history == st.history + [Message("user", keywords)]
  {
    match GetChatVqd(st, false, started, status, reading).1
    case Fail(e) => Turn(st, None, [], Fail(e))
    case Ok((vqd, hash)) => Exchange(st.(vqd := vqd, vqdHash := hash), keywords, GetModel(model), true, chat, parse, reading)
  }

  /** `ChatYield`, read to the end: the token is asked for, through the
      pacer, only when none is held, and an unknown model name falls back to
      "gpt-4o-mini".  Returns the pacer, the delay and the turn. */
  function SyncTurn<B>(st: ChatState, pacer: Pacer, now: int, keywords: string, model: string,
                       status: Reply<B>, chat: Reply<seq<string>>, parse: string -> Event, reading: Reading): (r: (Pacer, nat, Turn))
    ensures st.vqd != [] ==> r.0 == pacer && r.1 == 0
    ensures st.vqd == [] ==> (r.0, r.1) == Sleep(pacer, now)
    ensures r.2.request.None? <==>
              st.vqd == [] && (GetUrl(status).Fail? || (reading.AsWritten? && VqdHeader !in status.resp.headers))
    ensures r.2.request.None? ==> r.2.state == st && r.2.fragments == []
    ensures st.vqd == [] && GetUrl(status).Fail? ==> r.2.outcome == Fail(GetUrl(status).error)
    ensures st.vqd == [] && GetUrl(status).Ok? && reading.AsWritten? && VqdHeader !in status.resp.headers ==>
              r.2.outcome == Fail(RuntimeError(HeaderNotFound))
    ensures r.2.request.Some? ==> r.2.request.value.model in ChatModels.Values
    ensures r.2.request.Some? ==> r.2.request.value.model == ResolveModel(model)
    ensures r.2.request.Some? ==> r.2.request.value.messages == st.history + [Message("user", keywords)]
    ensures r.2.request.Some? && st.vqd != [] ==> r.2.request.value.vqd == st.vqd
    ensures r.2.request.Some? && st.vqd == [] ==> r.2.request.value.vqd == HeaderOr(status.resp.headers, VqdHeader, "")
    ensures r.2.request.Some? ==> r.2.request.value.vqdHash.None?
    ensures r.2.request.Some? && chat.Answered? && TokensFound(reading, false, chat.resp.headers) ==>
              r.2.state.vqd == HeaderOr(chat.resp.headers, VqdHeader, r.2.request.value.vqd)
    ensures r.2.request.Some? && chat.Answered? && !TokensFound(reading, false, chat.resp.headers) ==>
              r.2.outcome == Fail(RuntimeError(HeaderNotFound)) && r.2.state.vqd == r.2.request.value.vqd
  {
    if st.vqd == [] then
      var (p, delay, reply) := SyncGetUrl(pacer, now, status);
      match reply
      case Fail(e) => (p, delay, Turn(st, None, [], Fail(e)))
      case Ok(resp) =>
        match Header(reading, resp.headers, VqdHeader, "")
        case Fail(e) => (p, delay, Turn(st, None, [], Fail(e)))
        case Ok(vqd) => (p, delay, Exchange(st.(vqd := vqd), keywords, ResolveModel(model), false, chat, parse, reading))
    else (pacer, 0, Exchange(st, keywords, ResolveModel(model), false, chat, parse, reading))
  }

  /** An exchange keeps the count equal to what the history accounts for. */
  lemma {:induction false} ExchangeKeepsCount(st: ChatState, keywords: string, model: string, sendHash: bool,
                                              chat: Reply<seq<string>>, parse: string -> Event, reading: Reading)
    requires st.tokens == TokenCount(st.history)
    ensures var t := Exchange(st, keywords, model, sendHash, chat, parse, reading);
      t.state.tokens == TokenCount(t.state.history)
  {
    var t := Exchange(st, keywords, model, sendHash, chat, parse, reading);
    var user := Message("user", keywords);
    TokenCountAppend(st.history, user);
    if t.outcome.Ok? {
      var answer := Message("assistant", t.outcome.value);
      TokenCountAppend(st.history + [user], answer);
      assert st.history + [user, answer] == st.history + [user] + [answer];
    }
  }

  /** Every turn of either client, in either reading, keeps the count equal
      to what the history accounts for, so a conversation started fresh
      always has. */
  lemma TurnsKeepCount<B>(st: ChatState, keywords: string, model: Model, shortName: string,
                          started: bool, pacer: Pacer, now: int, status: Reply<B>,
                          chat: Reply<seq<string>>, parse: string -> Event, reading: Reading)
    requires st.tokens == TokenCount(st.history)
    ensures var t := AsyncTurn(st, keywords, model, started, status, chat, parse, reading);
      t.state.tokens == TokenCount(t.state.history)
    ensures var t := SyncTurn(st, pacer, now, keywords, shortName, status, chat, parse, reading).2;
      t.state.tokens == TokenCount(t.state.history)
  {
    AsyncKeepsCount(st, keywords, model, started, status, chat, parse, reading);
    SyncKeepsCount(st, pacer, now, keywords, shortName, status, chat, parse, reading);
  }

  lemma {:induction false} AsyncKeepsCount<B>(st: ChatState, keywords: string, model: Model, started: bool, status: Reply<B>,
                                             chat: Reply<seq<string>>, parse: string -> Event, reading: Reading)
    requires st.tokens == TokenCount(st.history)
    ensures var t := AsyncTurn(st, keywords, model, started, status, chat, parse, reading);
      t.state.tokens == TokenCount(t.state.history)
  {
    match GetChatVqd(st, false, started, status, reading).1
    case Fail(_) =>
    case Ok((vqd, hash)) => ExchangeKeepsCount(st.(vqd := vqd, vqdHash := hash), keywords, GetModel(model), true, chat, parse, reading);
  }

  lemma {:induction false} SyncKeepsCount<B>(st: ChatState, pacer: Pacer, now: int, keywords: string, shortName: string,
                                            status: Reply<B>, chat: Reply<seq<string>>, parse: string -> Event, reading: Reading)
    requires st.tokens == TokenCount(st.history)
    ensures var t := SyncTurn(st, pacer, now, keywords, shortName, status, chat, parse, reading).2;
      t.state.tokens == TokenCount(t.state.history)
  {
    if st.vqd == [] {
      match GetUrl(status)
      case Fail(_) =>
      case Ok(resp) =>
        match Header(reading, resp.headers, VqdHeader, "")
        case Fail(_) =>
        case Ok(vqd) => ExchangeKeepsCount(st.(vqd := vqd), keywords, ResolveModel(shortName), false, chat, parse, reading);
    } else {
      ExchangeKeepsCount(st, keywords, ResolveModel(shortName), false, chat, parse, reading);
    }
  }

  /** The history only grows: each turn keeps every earlier message. */
  lemma TurnKeepsHistory<B>(st: ChatState, keywords: string, model: Model, started: bool, status: Reply<B>,
                            chat: Reply<seq<string>>, parse: string -> Event, reading: Reading)
    ensures st.history <= AsyncTurn(st, keywords, model, started, status, chat, parse, reading).state.history
  {
  }

  /** The token pair is asked for again only when a half is missing: a
      conversation that holds both sends no token request, so even on a
      client that has already sent requests its chat request carries the
      held pair. */
  lemma CachedTokenReused<B>(st: ChatState, keywords: string, model: Model, started: bool, status: Reply<B>,
                             chat: Reply<seq<string>>, parse: string -> Event, reading: Reading)
    requires st.vqd != [] && st.vqdHash != []
    ensures var t := AsyncTurn(st, keywords, model, started, status, chat, parse, reading);
      t.request.Some? && t.request.value.vqd == st.vqd && t.request.value.vqdHash == Some(st.vqdHash)
  {
  }

  /** A token reply without the x-vqd-4 header, on a fresh conversation: as
      written the turn throws before sending anything; the intended fallback
      sends the chat request with the empty token it held. */
  lemma MissingTokenHeaderTurn<B>(keywords: string, model: Model, headers: map<string, seq<string>>, body: B,
                                  chat: Reply<seq<string>>, parse: string -> Event)
    requires VqdHeader !in headers
    ensures var status := Answered(Response(OK, headers, body));
      && AsyncTurn(Fresh, keywords, model, false, status, chat, parse, AsWritten) == Turn(Fresh, None, [], Fail(RuntimeError(HeaderNotFound)))
      && AsyncTurn(Fresh, keywords, model, false, status, chat, parse, Intended).request.Some?
      && AsyncTurn(Fresh, keywords, model, false, status, chat, parse, Intended).request.value.vqd == []
  {
  }

  /** A chat reply carrying the token but not the hash header: as written the
      prompt is already in the history and the token has rotated when the
      turn throws, and nothing is read; the intended fallback reads the reply. */
  lemma MissingHashHeaderExchange(st: ChatState, keywords: string, model: string, tok: string,
                                  body: seq<string>, parse: string -> Event)
    ensures var chat := Answered(Response(OK, map[VqdHeader := [tok]], body));
      var t := Exchange(st, keywords, model, true, chat, parse, AsWritten);
      && t.outcome == Fail(RuntimeError(HeaderNotFound))
      && t.state == ChatState(st.history + [Message("user", keywords)], st.tokens + PromptTokens(keywords), tok, st.vqdHash)
      && Exchange(st, keywords, model, true, chat, parse, Intended).fragments == ReadStream(body, OK, parse).fragments
  {
  }

  /** A token request on a client that has already sent a request: as
      written setting the timeout throws, whatever the server would answer,
      and nothing is sent; the intended request goes out and succeeds on a
      200 reply carrying both headers. */
  lemma TokenAfterStartThrows<B>(st: ChatState, keywords: string, model: Model, status: Reply<B>,
                                 chat: Reply<seq<string>>, parse: string -> Event)
    requires st.vqd == [] || st.vqdHash == []
    ensures AsyncTurn(st, keywords, model, true, status, chat, parse, AsWritten) == Turn(st, None, [], Fail(RuntimeError(InvalidOperation)))
    ensures AsyncTurn(st, keywords, model, true, status, chat, parse, Intended).request.Some? <==> GetUrl(status).Ok?
  {
  }
}
