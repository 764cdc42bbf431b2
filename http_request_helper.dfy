/**
  `HttpRequestHelper.SendHttpRequestAsync`: one request, one reply, and the
  rule that turns the reply into a `Result<T>`.

  The network is the caller's `transport`, a function from the request to
  what the client then observes. How a success body is read, as a stream
  or as JSON, is the call's `Reading`.
 */
module HttpRequestHelper {
  import opened Wrappers
  import opened Strings
  import opened Errors
  import opened Results
  import opened Json

  datatype HttpMethod = Get | Post
  {
    /** `HttpMethod.ToString()`. */
    function Name(): string
    {
      match this
      case Get => "GET"
      case Post => "POST"
    }
  }

  /** The request content: none, a JSON document, or one multipart form part of raw bytes. */
  datatype Body = NoContent | JsonContent(json: Json) | Multipart(name: string, bytes: seq<Byte>)

  /** A request as it leaves the client: method, full URI, Authorization header value, content. */
  datatype ApiRequest = ApiRequest(httpMethod: HttpMethod, uri: string, authorization: string, body: Body)

  /**
    How a call reads the body of a success response, as its type argument
    decides: a call asking for `Stream` gets the raw body (`open` turns the
    body into the value handed back), any other call gets the JSON reader's
    result. The call chooses, never the reply.
   */
  datatype Reading<T> = AsStream(open: string -> T) | AsJson

  /** The body of a `Stream` call, read to its end as the callers do. */
  function BodyText(body: string): string
  {
    body
  }

  /** The reading of every `SendHttpRequestAsync<Stream>` call. */
  const ReadBody: Reading<string> := AsStream(BodyText)

  /**
    What the client observes: an exception (thrown while sending, reading
    the body or decoding it, cancellation included), or a status code with
    the Content-Length, the body, and what the JSON reader returns for the
    body (None for a JSON `null`).
   */
  datatype Reply<T> =
    | Threw
    | Answered(statusCode: int, contentLength: Option<int>, content: string, json: Option<T>)

  /** A value delivered to the caller, or the state of the error the caller receives. */
  datatype Verdict<T> = Delivered(value: T) | Rejected(error: ErrorState)

  const CouldNotParseMessage := "Could not parse response"
  const ServiceRequestFailedMessage := "Service request failed"

  /** `HttpResponseMessage.IsSuccessStatusCode`. */
  predicate IsSuccessStatusCode(statusCode: int)
  {
    200 <= statusCode <= 299
  }

  /** The body kept in an `HttpRequestError`: read only when the Content-Length is positive. */
  function ErrorContent(contentLength: Option<int>, content: string): Option<string>
  {
    if contentLength.GetOr(0) > 0 then Some(content) else None
  }

  /** What `SendHttpRequestAsync` returns for a reply to a call reading its body as `read` says. */
  function Classify<T>(reply: Reply<T>, read: Reading<T>): Verdict<T>
  {
    match reply
    case Threw => Rejected(PlainState(ServiceRequestFailedMessage))
    case Answered(statusCode, contentLength, content, json) =>
      if !IsSuccessStatusCode(statusCode) then
        if statusCode == 404 then Rejected(NotFoundState())
        else Rejected(HttpRequestState(statusCode, ErrorContent(contentLength, content)))
      else
        match read
        case AsStream(open) => Delivered(open(content))
        case AsJson =>
          match json
          case None => Rejected(PlainState(CouldNotParseMessage))
          case Some(v) => Delivered(v)
  }

  /**
    The classification, case by case: only a success status delivers a
    value, and then a `Stream` call always does; 404 is the one status with
    its own error; 401 and 403 are plain `HttpRequestError`s; a JSON `null`
    and an exception are generic errors.
   */
  lemma ClassifyRules<T>(reply: Reply<T>, read: Reading<T>)
    ensures Classify(reply, read).Delivered? <==>
      reply.Answered? && IsSuccessStatusCode(reply.statusCode) && (read.AsStream? || reply.json.Some?)
    ensures reply.Threw? ==> Classify(reply, read) == Rejected(ErrorState(Plain, "Service request failed", Default, None))
    ensures reply.Answered? && reply.statusCode == 404 ==> Classify(reply, read) == Rejected(NotFoundState())
    ensures reply.Answered? && !IsSuccessStatusCode(reply.statusCode) && reply.statusCode != 404 ==>
      Classify(reply, read).error.kind == HttpRequest(reply.statusCode, ErrorContent(reply.contentLength, reply.content))
    ensures reply.Answered? && !IsSuccessStatusCode(reply.statusCode) ==>
      (Classify(reply, read).error.kind.HttpRequest? && Classify(reply, read).error.kind.errorContent.Some?
       <==> reply.statusCode != 404 && reply.contentLength.Some? && reply.contentLength.value > 0)
    ensures reply.Answered? && IsSuccessStatusCode(reply.statusCode) && read.AsJson? && reply.json.None? ==>
      Classify(reply, read) == Rejected(ErrorState(Plain, "Could not parse response", Default, None))
    ensures reply.Answered? && IsSuccessStatusCode(reply.statusCode) && read.AsStream? ==>
      Classify(reply, read) == Delivered(read.open(reply.content))
    ensures Classify(reply, read).Rejected? ==> Classify(reply, read).error.clientMessage.None?
  {
  }

  /**
    A `Stream` call never fails to parse: on a success status it hands back
    the whole body, and it fails only on an exception or a failure status.
   */
  lemma StreamCallsDeliverBody(reply: Reply<string>)
    ensures Classify(reply, ReadBody).Delivered? <==> reply.Answered? && IsSuccessStatusCode(reply.statusCode)
    ensures Classify(reply, ReadBody).Delivered? ==> Classify(reply, ReadBody).value == reply.content
    ensures Classify(reply, ReadBody) != Rejected(PlainState(CouldNotParseMessage))
  {
    if reply.Answered? && IsSuccessStatusCode(reply.statusCode) {
      assert ReadBody.open(reply.content) == BodyText(reply.content);
    }
  }

  /**
    The errors a reply can give, against the whole taxonomy: only a plain
    `Error`, a `NotFoundError` or an `HttpRequestError`, always at the
    default level. A `NotFoundError` comes exactly from a 404; an
    `HttpRequestError` only from some other failure status, which it
    carries; a plain error only from an exception or a JSON `null`.
   */
  lemma ClassifyErrorKinds<T>(reply: Reply<T>, read: Reading<T>)
    requires Classify(reply, read).Rejected?
    ensures var e := Classify(reply, read).error;
      (e.kind.Plain? || e.kind.NotFound? || e.kind.HttpRequest?) && e.logLevel == Default
    ensures Classify(reply, read).error.kind.NotFound? <==> reply.Answered? && reply.statusCode == 404
    ensures var e := Classify(reply, read).error;
      e.kind.HttpRequest? ==>
        reply.Answered? && e.kind.statusCode == reply.statusCode && !IsSuccessStatusCode(reply.statusCode)
    ensures var e := Classify(reply, read).error;
      e.kind.Plain? ==>
        reply.Threw? || (read.AsJson? && reply.json.None? && e.message == CouldNotParseMessage)
  {
  }

  /** An unauthorized or forbidden status is not turned into `UnauthorizedError` or `ForbiddenError`. */
  lemma AuthStatusesAreHttpRequestErrors<T>(contentLength: Option<int>, content: string, json: Option<T>, read: Reading<T>)
    ensures Classify(Answered(401, contentLength, content, json), read).error.kind.HttpRequest?
    ensures Classify(Answered(403, contentLength, content, json), read).error.kind.HttpRequest?
    ensures Classify(Answered(403, contentLength, content, json), read).error.message
            == "Response status code does not indicate success: 403"
  {
    assert IntToString(403) == "403" by {
      assert NatToString(403) == NatToString(40) + [DigitChar(3)];
      assert NatToString(40) == NatToString(4) + [DigitChar(0)];
    }
  }

  /**
    `SendHttpRequestAsync`: sends the request once and turns the reply into
    a result; a failure carries a new error object in the state Classify
    gives. Nothing escapes as an exception.
   */
  method Send<T>(transport: ApiRequest -> Reply<T>, request: ApiRequest, read: Reading<T>) returns (r: Result<T>)
    ensures r.Success? <==> Classify(transport(request), read).Delivered?
    ensures r.Success? ==> r.value == Some(Classify(transport(request), read).value)
    ensures r.Fail? ==> fresh(r.error) && r.error.State() == Classify(transport(request), read).error
  {
    var reply := transport(request);
    if reply.Threw? {
      var e := new Error(ServiceRequestFailedMessage);
      return Fail(e);
    }
    if !IsSuccessStatusCode(reply.statusCode) {
      var errorContent: Option<string> := None;
      if reply.contentLength.GetOr(0) > 0 {
        errorContent := Some(reply.content);
      }
      if reply.statusCode == 404 {
        var e := new Error.NotFound();
        return Fail(e);
      }
      var e := new Error.HttpRequest(reply.statusCode, errorContent);
      return Fail(e);
    }
    match read
    case AsStream(open) =>
      r := Success(Some(open(reply.content)));
    case AsJson =>
      var response := reply.json;
      if response.None? {
        var e := new Error(CouldNotParseMessage);
        return Fail(e);
      }
      r := Success(response);
  }
}
