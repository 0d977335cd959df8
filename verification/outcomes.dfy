/** Failure-compatible wrappers and the exception taxonomy of the search client.

    Every exception the client can raise becomes a value of `Error`; an operation
    that can throw returns a `Result`.
 */
module Outcomes {

  /** A value that may be absent; stands for a C# reference that may be null. */
  datatype Option<+T> = None | Some(value: T) {

    function GetOr(default: T): T {
      match this
      case Some(v) => v
      case None => default
    }
  }

  /** The outcome of an operation that either returns a value or throws. */
  datatype Result<+T> = Ok(value: T) | Fail(error: Error) {

    predicate IsFailure() {
      Fail?
    }

    function PropagateFailure<U>(): Result<U>
      requires Fail?
    {
      Fail(error)
    }

    function Extract(): T
      requires Ok?
    {
      value
    }
  }

  /** Why a request was refused as throttling. */
  datatype RatelimitReason =
    | ThrottleStatus(code: int)            // a blocking HTTP status on a search request
    | ThrottleEvent(errType: Option<string>) // an `error` event of a chat stream under status 429

  /** What a DuckDuckGoSearchException was raised for. */
  datatype Cause =
    | UnexpectedStatus(code: int)          // a status that is neither success nor throttling
    | TransportFailure                     // a transport failure whose message does not mention a timeout
    | NoVqd                                // none of the vqd marker pairs occurs in the page
    | MalformedEvent                       // a chat `data:` payload that is not JSON
    | ChatErrorEvent(errType: Option<string>) // an `error` event under a status other than 429
    | Wrapped(inner: Error)                // the last text backend failed with `inner`

  /** Exceptions that the client does not raise itself but lets escape. */
  datatype RuntimeKind =
    | IndexOutOfRange                      // splitting a `next` string that holds no "s="
    | HeaderNotFound                       // reading a response header that is absent
    | NotAString                           // reading a JSON value that is neither a string nor null as a string
    | NotImplemented                       // a chat role outside the declared ones
    | KeyNotFound                          // an unknown safesearch level
    | DuplicateKey                         // two hidden form inputs with one name
    | MalformedNumber                      // a lite-table `data-row` attribute that is not a 32-bit integer
    | TransportFault                       // an unwrapped transport failure of the chat request
    | InvalidOperation                     // setting the client's timeout after its first request
    | NullReference                        // calling a method on a JSON null

  /** The exceptions of the client, one constructor per exception class. */
  datatype Error =
    | Ratelimit(reason: RatelimitReason)   // RatelimitException
    | ConversationLimit(errType: string)   // ConversationLimitException
    | Timeout                              // TimeoutException
    | SearchError(cause: Cause)            // DuckDuckGoSearchException
    | ArgumentError(argument: string)      // ArgumentException, naming the offending argument
    | RuntimeError(kind: RuntimeKind)

  /** Which of two readings of the code a member follows where they part:
      the code as written, or what it evidently intends (the README's
      findings list each place). */
  datatype Reading = AsWritten | Intended

  function Max(a: int, b: int): int {
    if a < b then b else a
  }
}
