/** Result normalisation: how a received response becomes a success
    record, and how each kind of exception becomes a failure message. */
module Failures {
  import opened Values

  /** An exception that escaped the request: which `requests` exception
      classes it is an instance of, and its `str` text.  `ConnectTimeout`
      is both a timeout and a connection error; every timeout and
      connection error is also a `RequestException`. */
  datatype Raised = Raised(isTimeout: bool, isConnectionError: bool, isRequestException: bool, detail: string)

  /** The four failure kinds, one per `except` clause. */
  datatype ErrorKind =
    | TimedOut
    | Unreachable
    | RequestError(detail: string)
    | Unexpected(detail: string)

  /** The `except` clauses in order: the first that matches wins. */
  function Classify(e: Raised): (k: ErrorKind)
    ensures e.isTimeout ==> k == TimedOut
    ensures !e.isTimeout && e.isConnectionError ==> k == Unreachable
    ensures !e.isTimeout && !e.isConnectionError && e.isRequestException ==> k == RequestError(e.detail)
    ensures !e.isTimeout && !e.isConnectionError && !e.isRequestException ==> k == Unexpected(e.detail)
  {
    if e.isTimeout then TimedOut
    else if e.isConnectionError then Unreachable
    else if e.isRequestException then RequestError(e.detail)
    else Unexpected(e.detail)
  }

  const TimeoutMessage := "Request timeout"
  // One message, written as two literals: the verifier reads the leading
  // characters of a short literal but not of one this long.
  const ConnectionMessage := "Connection error" + " - Unable to reach the server"
  const RequestPrefix := "Request error: "
  const UnexpectedPrefix := "Unexpected error: "

  /** The fixed message of each failure kind. */
  function Message(k: ErrorKind): string
  {
    match k
    case TimedOut => TimeoutMessage
    case Unreachable => ConnectionMessage
    case RequestError(d) => RequestPrefix + d
    case Unexpected(d) => UnexpectedPrefix + d
  }

  /** Reads a failure message back into its kind: the inverse of `Message`. */
  function KindOfMessage(m: string): (r: Option<ErrorKind>)
    ensures r.Some? ==> Message(r.value) == m
  {
    if m == TimeoutMessage then Some(TimedOut)
    else if m == ConnectionMessage then Some(Unreachable)
    else if RequestPrefix <= m then Some(RequestError(m[|RequestPrefix|..]))
    else if UnexpectedPrefix <= m then Some(Unexpected(m[|UnexpectedPrefix|..]))
    else None
  }

  /** Every failure message names its kind unambiguously, detail included:
      decoding a message gives back the kind it was made from. */
  lemma MessageRoundTrip(k: ErrorKind)
    ensures KindOfMessage(Message(k)) == Some(k)
  {
    match k
    case TimedOut =>
    case Unreachable =>
    case RequestError(d) =>
      var m := Message(k);
      assert m[|RequestPrefix|..] == d;
      assert m != TimeoutMessage by { assert m[8] != TimeoutMessage[8]; }
      assert m != ConnectionMessage by { assert m[0] == 'R' && ConnectionMessage[0] == 'C'; }
    case Unexpected(d) =>
      var m := Message(k);
      assert m[|UnexpectedPrefix|..] == d;
      assert m != TimeoutMessage by { assert m[0] != TimeoutMessage[0]; }
      assert m != ConnectionMessage by { assert m[0] == 'U' && ConnectionMessage[0] == 'C'; }
      assert !(RequestPrefix <= m) by { assert m[0] != RequestPrefix[0]; }
  }

  /** Different failures never share a message. */
  lemma MessageInjective(a: ErrorKind, b: ErrorKind)
    requires Message(a) == Message(b)
    ensures a == b
  {
    MessageRoundTrip(a);
    MessageRoundTrip(b);
  }

  /** What the transport hands back: `status_code`, `reason`, the headers,
      the raw `content` bytes, `text`, the outcome of `response.json()`
      and the value of the (case-insensitive) `Content-Type` header. */
  datatype Response = Response(
    statusCode: int,
    reason: string,
    headers: map<string, string>,
    content: seq<bv8>,
    text: string,
    json: Option<Json>,
    contentType: Option<string>)

  datatype ResponseBody = JsonBody(value: Json) | TextBody(text: string)

  /** The request actually sent, as reported back for the history. */
  datatype SentRequest = SentRequest(verb: string, url: string, headers: map<string, Field>, body: Option<string>)

  /** The uniform result record; the elapsed time is not modelled. */
  datatype Execution =
    | Success(statusCode: int, statusText: string, headers: map<string, string>, body: ResponseBody,
              contentType: string, size: nat, request: SentRequest)
    | Failure(error: string)

  /** A received response, whatever its status, becomes a success record:
      a parsed JSON body forces `application/json`; otherwise the text is
      kept with the response's own content type, `text/plain` by default.
      The size is that of the raw bytes. */
  function Normalize(resp: Response, sent: SentRequest): (r: Execution)
    ensures r.Success? && r.statusCode == resp.statusCode && r.statusText == resp.reason
    ensures r.headers == resp.headers && r.size == |resp.content| && r.request == sent
    ensures resp.json.Some? ==> r.body == JsonBody(resp.json.value) && r.contentType == "application/json"
    ensures resp.json.None? ==> r.body == TextBody(resp.text)
    ensures resp.json.None? && resp.contentType.Some? ==> r.contentType == resp.contentType.value
    ensures resp.json.None? && resp.contentType.None? ==> r.contentType == "text/plain"
  {
    var (body, contentType) :=
      match resp.json
      case Some(v) => (JsonBody(v), "application/json")
      case None => (TextBody(resp.text), match resp.contentType case Some(t) => t case None => "text/plain");
    Success(resp.statusCode, resp.reason, resp.headers, body, contentType, |resp.content|, sent)
  }

  /** An exception becomes a failure record carrying its kind's message. */
  function Fail(e: Raised): (r: Execution)
    ensures r.Failure? && KindOfMessage(r.error) == Some(Classify(e))
  {
    MessageRoundTrip(Classify(e));
    Failure(Message(Classify(e)))
  }
}
