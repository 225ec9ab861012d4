/** The command protocol of a Yeonjang node: requests, responses, and the checks made before a command runs. */
module Protocol {
  import opened Wrappers
  import opened Text

  /** JSON text, never inspected here. */
  type Json = string

  datatype ErrorBody = ErrorBody(code: string, message: string)

  datatype Response = Response(id: Option<string>, ok: bool, result: Option<Json>, error: Option<ErrorBody>)

  datatype Metadata = Metadata(targetSessionId: Option<string>, idempotencyKey: Option<string>, expiresAt: Option<int>)

  datatype Request = Request(id: Option<string>, method_: string, params: Json, metadata: Metadata)

  function ErrorResponse(id: Option<string>, code: string, message: string): Response {
    Response(id, false, None, Some(ErrorBody(code, message)))
  }

  /** The same outcome, addressed to another request. */
  function CloneWithId(response: Response, id: Option<string>): Response {
    Response(id, response.ok, response.result, response.error)
  }

  predicate SameOutcome(a: Response, b: Response) {
    a.ok == b.ok && a.result == b.result && a.error == b.error
  }

  /** The cache key of a request: its idempotency key without surrounding whitespace, if anything is left. */
  function IdempotencyKey(request: Request): Option<string> {
    match request.metadata.idempotencyKey
    case None => None
    case Some(text) => if Trim(text) == [] then None else Some(Trim(text))
  }

  function ValidateCommandMetadata(request: Request, sessionId: string, now: int): Option<Response> {
    var target := request.metadata.targetSessionId;
    if target.Some? && !IsBlank(target.value) && target.value != sessionId then
      Some(ErrorResponse(request.id, "session_replaced",
                         "target session " + target.value + " is no longer active; current session is " + sessionId))
    else if request.metadata.expiresAt.Some? && request.metadata.expiresAt.value <= now then
      Some(ErrorResponse(request.id, "expired_command", "expired command rejected before execution"))
    else
      None
  }

  /**
   * The key is what stands between the white space at the two ends of the key text, so texts that differ in it have
   * different keys; a text of white space alone is no key.
   */
  lemma KeyIsTheInnerText(request: Request, front: string, body: string, back: string)
    requires request.metadata.idempotencyKey == Some(front + body + back)
    requires All(front, IsWhitespace) && All(back, IsWhitespace)
    requires body != [] ==> !IsWhitespace(body[0]) && !IsWhitespace(body[|body| - 1])
    ensures IdempotencyKey(request) == if body == [] then None else Some(body)
  {
    if body == [] {
      TrimByEmpty(front + body + back, IsWhitespace);
    } else {
      TrimByUnique(front, body, back, IsWhitespace);
    }
  }
}
