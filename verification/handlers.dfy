/** `SimpleAuthenticationSuccessHandler` and `SimpleAuthenticationFailureHandler`:
    the maps from the outcome of an attempt to what is written on the servlet
    response. */
module Handlers {
  import opened Base
  import opened Security

  const SC_OK: int := 200
  const SC_CREATED: int := 201
  const SC_UNAUTHORIZED: int := 401

  /** `MediaType.TEXT_PLAIN_VALUE`. */
  const TEXT_PLAIN: string := "text/plain"

  /** What a handler writes on a fresh servlet response: a status, a content
      type if one is set, and the text printed to the body. */
  datatype Response = Response(status: int, contentType: Option<string>, body: string)

  /** A success handler answers every success with the status code it was
      constructed with. */
  datatype SuccessHandler = SuccessHandler(statusCode: int)

  /** A failure handler answers every failure with its configured status. */
  datatype FailureHandler = FailureHandler(status: int)

  /** The pair of handlers a filter installs in its constructor. */
  datatype HandlerPair = HandlerPair(success: SuccessHandler, failure: FailureHandler)

  /** `SimpleAuthenticationFailureHandler.DEFAULT_STATUS_CODE`. */
  const DEFAULT_STATUS_CODE: int := SC_UNAUTHORIZED

  /** `new SimpleAuthenticationFailureHandler()`. */
  function NewFailureHandler(): (h: FailureHandler)
    ensures h.status == 401
  {
    FailureHandler(DEFAULT_STATUS_CODE)
  }

  /** `setStatus`: the status used for every later failure. */
  function SetStatus(h: FailureHandler, status: int): (r: FailureHandler)
    ensures r.status == status
  {
    h.(status := status)
  }

  /** `onAuthenticationFailure`: the configured status, a plain-text content
      type, and the exception's message as the body. */
  function OnFailure(h: FailureHandler, e: AuthException): (r: Response)
    ensures r.status == h.status
    ensures r.contentType == Some(TEXT_PLAIN)
    ensures r.body == e.message
  {
    Response(h.status, Some(TEXT_PLAIN), e.message)
  }

  /** `onAuthenticationSuccess`: only the status is set; no content type and
      no body are written. */
  function OnSuccess(h: SuccessHandler, auth: Authentication): (r: Response)
    ensures r.status == h.statusCode
    ensures r.contentType == None && r.body == ""
  {
    Response(h.statusCode, None, "")
  }

  /** The framework's dispatch at the end of an attempt: a returned token goes
      to the success handler, a thrown authentication exception to the
      failure handler. */
  function Respond(hs: HandlerPair, outcome: Outcome): (r: Response)
    ensures r.status == if outcome.Ok? then hs.success.statusCode else hs.failure.status
    ensures r.contentType.Some? <==> outcome.Err?
    ensures outcome.Err? ==> r.contentType == Some(TEXT_PLAIN) && r.body == outcome.error.message
    ensures outcome.Ok? ==> r.body == ""
  {
    match outcome
    case Ok(auth) => OnSuccess(hs.success, auth)
    case Err(e) => OnFailure(hs.failure, e)
  }

  /** The failure status does not depend on which exception was thrown. */
  lemma FailureStatusIgnoresKind(h: FailureHandler, e1: AuthException, e2: AuthException)
    ensures OnFailure(h, e1).status == OnFailure(h, e2).status
  {
  }

  /** With no override a failure is answered with 401; after `setStatus(s)`
      it is answered with `s`. */
  lemma FailureStatusConfigured(e: AuthException, s: int)
    ensures OnFailure(NewFailureHandler(), e).status == SC_UNAUTHORIZED
    ensures OnFailure(SetStatus(NewFailureHandler(), s), e).status == s
  {
  }

  /** The success response does not depend on the authentication it reports. */
  lemma SuccessIgnoresAuthentication(h: SuccessHandler, a1: Authentication, a2: Authentication)
    ensures OnSuccess(h, a1) == OnSuccess(h, a2)
  {
  }

  /** When the two handlers use different statuses, the status alone tells a
      success from a failure, and a failure's body is its message. */
  lemma ResponseRevealsOutcome(hs: HandlerPair, outcome: Outcome)
    requires hs.success.statusCode != hs.failure.status
    ensures Respond(hs, outcome).status == hs.success.statusCode <==> outcome.Ok?
    ensures outcome.Err? ==> Respond(hs, outcome).body == outcome.error.message
  {
  }
}
