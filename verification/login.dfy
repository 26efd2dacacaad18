/** `RequestBodyLoginFilter`: decode a username and password from the request
    body, check them, and hand them to the authentication manager, answering
    200 on success.  The authentication manager is a function held by the
    filter; the filter has no access to the user store of its own. */
module Login {
  import opened Base
  import opened Security
  import opened Converters
  import opened Handlers

  /** `RequestBodyLoginFilter.DEFAULT_PROCESSES_URL`. */
  const DEFAULT_PROCESSES_URL: string := "/login"

  const INVALID_BODY: string := "Request body was invalid"

  /** The state of a login filter: where it listens, how it decodes bodies,
      the authentication manager it delegates to, and its handlers. */
  datatype LoginFilter<!C, !B> = LoginFilter(
    path: string,
    converters: HttpMessageConverters<C, B, Credentials>,
    authenticate: Authentication -> Outcome,
    handlers: HandlerPair)

  /** One login attempt: its outcome and the collaborator calls it made. */
  datatype Step = Step(outcome: Outcome, calls: seq<Call>)

  /** A whole request: the response written and the collaborator calls made. */
  datatype Exchange = Exchange(response: Response, calls: seq<Call>)

  /** The constructor taking a path: 200 on success, the default failure
      handler. */
  function New<C, B>(path: string, authenticate: Authentication -> Outcome,
                     converters: HttpMessageConverters<C, B, Credentials>): (f: LoginFilter<C, B>)
    ensures f.path == path
    ensures f.converters == converters && f.authenticate == authenticate
    ensures f.handlers.success.statusCode == 200 && f.handlers.failure.status == 401
  {
    LoginFilter(path, converters, authenticate, HandlerPair(SuccessHandler(SC_OK), NewFailureHandler()))
  }

  /** The constructor without a path, which listens at `/login`. */
  function NewDefault<C, B>(authenticate: Authentication -> Outcome,
                            converters: HttpMessageConverters<C, B, Credentials>): (f: LoginFilter<C, B>)
    ensures f.path == "/login"
    ensures f.converters == converters && f.authenticate == authenticate
    ensures f.handlers.success.statusCode == 200 && f.handlers.failure.status == 401
  {
    New(DEFAULT_PROCESSES_URL, authenticate, converters)
  }

  /** The unauthenticated token handed to the authentication manager. */
  function LoginToken(v: ValidCredentials): (t: Authentication)
    ensures t.principal == v.username && t.credentials == Some(v.password)
    ensures !t.authenticated && t.authorities == {}
  {
    Token(v.username, Some(v.password), {}, false)
  }

  /** `attemptAuthentication` of the login filter, given the decoded body.
      The authentication manager is the only collaborator, it is called at
      most once, and its answer is the outcome. */
  function Attempt<C, B>(f: LoginFilter<C, B>, decoded: Option<Credentials>): (r: Step)
    ensures |r.calls| <= 1 && forall call :: call in r.calls ==> call.Authenticate?
    ensures r.calls != [] <==> decoded.Some? && CheckCredentials(decoded.value).Ok?
    ensures r.calls != [] ==> r.outcome == f.authenticate(r.calls[0].token)
  {
    match decoded
    case None => Step(Err(BadCredentials(INVALID_BODY)), [])
    case Some(body) =>
      match CheckCredentials(body)
      case Err(e) => Step(Err(e), [])
      case Ok(v) =>
        var token := LoginToken(v);
        Step(f.authenticate(token), [Authenticate(token)])
  }

  /** The whole request: decode the body with the filter's converters,
      attempt the login, and answer through the filter's handlers. */
  function Handle<C, B>(f: LoginFilter<C, B>, req: Request<B>): (x: Exchange)
    ensures x.response.status == f.handlers.success.statusCode || x.response.status == f.handlers.failure.status
    ensures forall call :: call in x.calls ==> call.Authenticate?
    ensures var a := Attempt(f, ParseBody(f.converters, req));
      && x.calls == a.calls
      && (a.outcome.Ok? ==> x.response == Response(f.handlers.success.statusCode, None, ""))
      && (a.outcome.Err? ==> x.response == Response(f.handlers.failure.status, Some(TEXT_PLAIN), a.outcome.error.message))
  {
    var step := Attempt(f, ParseBody(f.converters, req));
    Exchange(Respond(f.handlers, step.outcome), step.calls)
  }

  // ----- Properties of one attempt -----

  /** A body no converter could decode fails with "Request body was invalid"
      and the authentication manager is not called. */
  lemma InvalidBodyFailsFirst<C, B>(f: LoginFilter<C, B>)
    ensures Attempt(f, None) == Step(Err(BadCredentials(INVALID_BODY)), [])
  {
  }

  /** The username is checked before the password. */
  lemma UsernameCheckedFirst<C, B>(f: LoginFilter<C, B>, body: Credentials)
    requires !HasLength(body.username)
    ensures Attempt(f, Some(body)) == Step(Err(BadCredentials(MISSING_USERNAME)), [])
  {
  }

  /** A null or empty password next to a non-empty username fails with
      "Missing password" and the authentication manager is not called. */
  lemma PasswordCheckedSecond<C, B>(f: LoginFilter<C, B>, body: Credentials)
    requires HasLength(body.username) && !HasLength(body.password)
    ensures Attempt(f, Some(body)) == Step(Err(BadCredentials(MISSING_PASSWORD)), [])
  {
  }

  /** With both fields present the authentication manager is called once,
      with the username and password as given, and its token or its
      exception is the outcome unchanged. */
  lemma DelegatesOnce<C, B>(f: LoginFilter<C, B>, body: Credentials)
    requires CheckCredentials(body).Ok?
    ensures var token := Token(body.username.value, body.password, {}, false);
      Attempt(f, Some(body)) == Step(f.authenticate(token), [Authenticate(token)])
  {
  }

  /** The login filter never calls the user store or the password encoder. */
  lemma NeverTouchesStore<C, B>(f: LoginFilter<C, B>, req: Request<B>)
    ensures forall call :: call in Handle(f, req).calls ==>
      !call.UserExists? && !call.CreateUser? && !call.Encode?
  {
  }

  // ----- Properties of whole requests -----

  /** A request whose media type no converter can read is answered with the
      failure status and "Request body was invalid" as plain text. */
  lemma UnreadableRequestRejected<C, B>(f: LoginFilter<C, B>, req: Request<B>)
    requires NoneReadable(f.converters.converters, f.converters.canRead, req.contentType)
    ensures Handle(f, req) == Exchange(Response(f.handlers.failure.status, Some(TEXT_PLAIN), INVALID_BODY), [])
  {
  }

  /** With the constructor's handlers, credentials the authentication manager
      accepts are answered 200 with an empty body, and credentials it rejects
      are answered 401 with the rejection's message. */
  lemma NewFilterStatuses<C, B>(path: string, authenticate: Authentication -> Outcome,
                                hc: HttpMessageConverters<C, B, Credentials>, req: Request<B>)
    requires ParseBody(hc, req).Some? && CheckCredentials(ParseBody(hc, req).value).Ok?
    ensures var body := ParseBody(hc, req).value;
      var outcome := authenticate(Token(body.username.value, body.password, {}, false));
      var x := Handle(New(path, authenticate, hc), req);
      && (outcome.Ok? ==> x.response == Response(200, None, ""))
      && (outcome.Err? ==> x.response == Response(401, Some(TEXT_PLAIN), outcome.error.message))
  {
  }
}
