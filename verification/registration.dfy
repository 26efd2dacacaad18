/** `RegistrationFilter`: decode a username and password from the request
    body, check them, and add a new user to the user store, answering 201 on
    success.  The store's contents are a map; the exceptions its two calls
    may throw are an input (`StoreFaults`); the password encoder is a
    function held by the filter. */
module Registration {
  import opened Base
  import opened Security
  import opened Converters
  import opened Handlers

  /** `RegistrationFilter.STATUS_CODE`. */
  const STATUS_CODE: int := SC_CREATED

  /** The path the constructor without a path listens at. */
  const DEFAULT_PATH: string := "/register"

  /** The initial role set of every registration filter. */
  const DEFAULT_ROLES: seq<string> := ["USER"]

  /** The prefix the user builder puts in front of each role to make it an
      authority. */
  const ROLE_PREFIX: string := "ROLE_"

  const INVALID_CONTENT: string := "Invalid request content"
  const USERNAME_IN_USE: string := "Username is already in use"
  const UNEXPECTED_FAILURE: string := "Unexpected failure"

  /** The state of a registration filter: where it listens, how it decodes
      bodies, how it encodes passwords, the roles it grants, and the handlers
      its constructor installed. */
  datatype RegistrationFilter<!C, !B> = RegistrationFilter(
    path: string,
    converters: HttpMessageConverters<C, B, Credentials>,
    encode: string -> string,
    initialRoles: seq<string>,
    handlers: HandlerPair)

  /** What each of the two store calls throws in this request, if anything. */
  datatype StoreFaults = StoreFaults(onUserExists: Option<Throwable>, onCreateUser: Option<Throwable>)

  /** A store whose calls do not throw. */
  const NO_FAULTS: StoreFaults := StoreFaults(None, None)

  /** One registration attempt: its outcome, the store afterwards, and the
      collaborator calls it made. */
  datatype Step = Step(outcome: Outcome, store: Store, calls: seq<Call>)

  /** A whole request: the response written, the store afterwards, and the
      collaborator calls made. */
  datatype Exchange = Exchange(response: Response, store: Store, calls: seq<Call>)

  /** The constructor taking a path: 201 on success, the default failure
      handler, and the role `USER`. */
  function New<C, B>(path: string, converters: HttpMessageConverters<C, B, Credentials>, encode: string -> string): (f: RegistrationFilter<C, B>)
    ensures f.path == path && f.initialRoles == ["USER"]
    ensures f.converters == converters && f.encode == encode
    ensures f.handlers.success.statusCode == 201 && f.handlers.failure.status == 401
  {
    RegistrationFilter(path, converters, encode, DEFAULT_ROLES, HandlerPair(SuccessHandler(STATUS_CODE), NewFailureHandler()))
  }

  /** The constructor without a path, which listens at `/register`. */
  function NewDefault<C, B>(converters: HttpMessageConverters<C, B, Credentials>, encode: string -> string): (f: RegistrationFilter<C, B>)
    ensures f.path == "/register"
    ensures f.initialRoles == ["USER"]
    ensures f.converters == converters && f.encode == encode
    ensures f.handlers.success.statusCode == 201 && f.handlers.failure.status == 401
  {
    New(DEFAULT_PATH, converters, encode)
  }

  /** `setInitialRoles`: replaces the roles later registrations grant and
      leaves every other part of the filter as it was. */
  function SetInitialRoles<C, B>(f: RegistrationFilter<C, B>, roles: seq<string>): (r: RegistrationFilter<C, B>)
    ensures r.initialRoles == roles
    ensures r.(initialRoles := f.initialRoles) == f
  {
    f.(initialRoles := roles)
  }

  /** The authorities the user builder grants for `roles`. */
  function Authorities(roles: seq<string>): (a: set<string>)
    ensures forall role :: role in roles ==> ROLE_PREFIX + role in a
    ensures forall x :: x in a ==>
      && |ROLE_PREFIX| <= |x|
      && x[..|ROLE_PREFIX|] == ROLE_PREFIX
      && x[|ROLE_PREFIX|..] in roles
  {
    set role | role in roles :: ROLE_PREFIX + role
  }

  /** A role is granted exactly when it is one of the configured roles:
      prefixing roles loses nothing and adds nothing. */
  lemma AuthoritiesExact(roles: seq<string>, role: string)
    ensures ROLE_PREFIX + role in Authorities(roles) <==> role in roles
  {
  }

  /** The catch block around the store calls: a `RegistrationFailedException`
      is rethrown as it is, any other exception becomes "Unexpected failure"
      with the original as its cause. */
  function Caught(t: Throwable): (e: AuthException)
    ensures e.RegistrationFailed?
    ensures t.ThrownRegistrationFailed? ==> e.message == t.message && e.cause == t.cause
    ensures t.OtherException? ==> e.message == UNEXPECTED_FAILURE && e.cause == Some(t.description)
  {
    match t
    case ThrownRegistrationFailed(message, cause) => RegistrationFailed(message, cause)
    case OtherException(description) => RegistrationFailed(UNEXPECTED_FAILURE, Some(description))
  }

  /** The record the user builder makes for valid credentials. */
  function NewUser<C, B>(f: RegistrationFilter<C, B>, v: ValidCredentials): (u: UserDetails)
    ensures u.username == v.username
    ensures u.password == f.encode(v.password)
    ensures forall role :: role in f.initialRoles ==> ROLE_PREFIX + role in u.authorities
    ensures forall x :: x in u.authorities ==> |ROLE_PREFIX| <= |x| && x[..|ROLE_PREFIX|] == ROLE_PREFIX && x[|ROLE_PREFIX|..] in f.initialRoles
  {
    UserDetails(v.username, f.encode(v.password), Authorities(f.initialRoles))
  }

  /** The store calls made once the credentials are valid: check for the
      username, then (if it is free) create the user. */
  function StoreCalls<C, B>(f: RegistrationFilter<C, B>, v: ValidCredentials, store: Store, faults: StoreFaults): (r: Step)
    ensures r.outcome.Err? ==> r.store == store
    ensures r.outcome.Ok? <==> faults == NO_FAULTS && v.username !in store
  {
    var user := NewUser(f, v);
    var checked := [Encode(v.password), UserExists(v.username)];
    if faults.onUserExists.Some? then
      Step(Err(Caught(faults.onUserExists.value)), store, checked)
    else if v.username in store then
      Step(Err(Caught(ThrownRegistrationFailed(USERNAME_IN_USE, None))), store, checked)
    else if faults.onCreateUser.Some? then
      Step(Err(Caught(faults.onCreateUser.value)), store, checked + [CreateUser(user)])
    else
      Step(Ok(Token(v.username, None, user.authorities, true)), store[v.username := user], checked + [CreateUser(user)])
  }

  /** `attemptAuthentication` of the registration filter, given the decoded
      body.  Only a success changes the store, and only by adding the new
      user under a username that was free. */
  function Attempt<C, B>(f: RegistrationFilter<C, B>, decoded: Option<Credentials>, store: Store, faults: StoreFaults): (r: Step)
    ensures r.outcome.Err? ==> r.store == store
    ensures r.outcome.Ok? <==>
      && decoded.Some?
      && CheckCredentials(decoded.value).Ok?
      && faults == NO_FAULTS
      && decoded.value.username.value !in store
    ensures r.outcome.Ok? ==>
      var name := decoded.value.username.value;
      && r.store.Keys == store.Keys + {name}
      && (forall other :: other in store ==> r.store[other] == store[other])
  {
    match decoded
    case None => Step(Err(RegistrationFailed(INVALID_CONTENT, None)), store, [])
    case Some(body) =>
      match CheckCredentials(body)
      case Err(e) => Step(Err(e), store, [])
      case Ok(v) => StoreCalls(f, v, store, faults)
  }

  /** The whole request: decode the body with the filter's converters,
      attempt the registration, and answer through the filter's handlers. */
  function Handle<C, B>(f: RegistrationFilter<C, B>, req: Request<B>, store: Store, faults: StoreFaults): (x: Exchange)
    ensures var a := Attempt(f, ParseBody(f.converters, req), store, faults);
      && x.store == a.store && x.calls == a.calls
      && (a.outcome.Ok? ==> x.response == Response(f.handlers.success.statusCode, None, ""))
      && (a.outcome.Err? ==> x.response == Response(f.handlers.failure.status, Some(TEXT_PLAIN), a.outcome.error.message))
  {
    var step := Attempt(f, ParseBody(f.converters, req), store, faults);
    Exchange(Respond(f.handlers, step.outcome), step.store, step.calls)
  }

  // ----- Properties of one attempt -----

  /** A body no converter could decode fails with "Invalid request content"
      before any collaborator is called. */
  lemma InvalidBodyFailsFirst<C, B>(f: RegistrationFilter<C, B>, store: Store, faults: StoreFaults)
    ensures Attempt(f, None, store, faults) == Step(Err(RegistrationFailed(INVALID_CONTENT, None)), store, [])
  {
  }

  /** The username is checked before the password: a body lacking both
      fails with "Missing username", and nothing is called. */
  lemma UsernameCheckedFirst<C, B>(f: RegistrationFilter<C, B>, body: Credentials, store: Store, faults: StoreFaults)
    requires !HasLength(body.username)
    ensures Attempt(f, Some(body), store, faults) == Step(Err(BadCredentials(MISSING_USERNAME)), store, [])
  {
  }

  /** A null or empty password next to a non-empty username fails with
      "Missing password", and nothing is called. */
  lemma PasswordCheckedSecond<C, B>(f: RegistrationFilter<C, B>, body: Credentials, store: Store, faults: StoreFaults)
    requires HasLength(body.username) && !HasLength(body.password)
    ensures Attempt(f, Some(body), store, faults) == Step(Err(BadCredentials(MISSING_PASSWORD)), store, [])
  {
  }

  /** A username already in the store fails with "Username is already in
      use"; `createUser` is never called and the store is unchanged. */
  lemma UsernameInUseRejected<C, B>(f: RegistrationFilter<C, B>, body: Credentials, store: Store, faults: StoreFaults)
    requires CheckCredentials(body).Ok?
    requires faults.onUserExists.None? && body.username.value in store
    ensures var r := Attempt(f, Some(body), store, faults);
      && r.outcome == Err(RegistrationFailed(USERNAME_IN_USE, None))
      && r.store == store
      && forall call :: call in r.calls ==> !call.CreateUser?
  {
  }

  /** A successful registration stores the user under its name, with the
      encoded password and the authorities of the current initial roles, and
      returns a token for that user that carries no password. */
  lemma SuccessStoresUser<C, B>(f: RegistrationFilter<C, B>, body: Credentials, store: Store, faults: StoreFaults)
    requires Attempt(f, Some(body), store, faults).outcome.Ok?
    ensures var r := Attempt(f, Some(body), store, faults);
      var name := body.username.value;
      var user := UserDetails(name, f.encode(body.password.value), Authorities(f.initialRoles));
      && name in r.store && r.store[name] == user
      && r.outcome.value == Token(name, None, user.authorities, true)
      && r.calls == [Encode(body.password.value), UserExists(name), CreateUser(user)]
  {
  }

  /** An exception from `userExists` ends the attempt before `createUser`:
      a registration failure passes through with its message, anything else
      becomes "Unexpected failure". */
  lemma UserExistsFaultCaught<C, B>(f: RegistrationFilter<C, B>, body: Credentials, store: Store, faults: StoreFaults)
    requires CheckCredentials(body).Ok? && faults.onUserExists.Some?
    ensures var r := Attempt(f, Some(body), store, faults);
      && r.outcome == Err(Caught(faults.onUserExists.value))
      && r.store == store
      && forall call :: call in r.calls ==> !call.CreateUser?
  {
  }

  /** An exception from `createUser` for a free username is caught the same
      way, and the store is left as it was. */
  lemma CreateUserFaultCaught<C, B>(f: RegistrationFilter<C, B>, body: Credentials, store: Store, faults: StoreFaults)
    requires CheckCredentials(body).Ok? && faults.onUserExists.None? && body.username.value !in store
    requires faults.onCreateUser.Some?
    ensures var r := Attempt(f, Some(body), store, faults);
      r.outcome == Err(Caught(faults.onCreateUser.value)) && r.store == store
  {
  }

  /** A filter fresh from its constructor grants exactly `ROLE_USER`. */
  lemma DefaultRoleIsUser<C, B>(path: string, hc: HttpMessageConverters<C, B, Credentials>, encode: string -> string)
    ensures Authorities(New(path, hc, encode).initialRoles) == {"ROLE_USER"}
  {
    assert ROLE_PREFIX + "USER" == "ROLE_USER";
    assert "USER" in DEFAULT_ROLES;
    assert forall a :: a in Authorities(DEFAULT_ROLES) ==> a == "ROLE_USER";
  }

  /** After `setInitialRoles(roles)` a new user holds the authority for a
      role exactly when the role is one of `roles`. */
  lemma SetInitialRolesGoverns<C, B>(f: RegistrationFilter<C, B>, roles: seq<string>, body: Credentials, store: Store, role: string)
    requires Attempt(SetInitialRoles(f, roles), Some(body), store, NO_FAULTS).outcome.Ok?
    ensures var r := Attempt(SetInitialRoles(f, roles), Some(body), store, NO_FAULTS);
      ROLE_PREFIX + role in r.store[body.username.value].authorities <==> role in roles
  {
  }

  // ----- Properties of successive attempts -----

  /** Once a username is registered, registering it again (with any
      password) fails with "Username is already in use". */
  lemma RegisterTwiceRejected<C, B>(f: RegistrationFilter<C, B>, first: Credentials, second: Credentials, store: Store)
    requires Attempt(f, Some(first), store, NO_FAULTS).outcome.Ok?
    requires CheckCredentials(second).Ok? && second.username == first.username
    ensures var after := Attempt(f, Some(first), store, NO_FAULTS).store;
      Attempt(f, Some(second), after, NO_FAULTS).outcome == Err(RegistrationFailed(USERNAME_IN_USE, None))
  {
  }

  /** A failed registration repeated with the same input fails the same way:
      it left the store as it found it. */
  lemma FailureRepeats<C, B>(f: RegistrationFilter<C, B>, decoded: Option<Credentials>, store: Store, faults: StoreFaults)
    requires Attempt(f, decoded, store, faults).outcome.Err?
    ensures var r := Attempt(f, decoded, store, faults);
      Attempt(f, decoded, r.store, faults) == r
  {
  }

  // ----- Properties of whole requests -----

  /** A request whose media type no converter can read is answered with the
      failure status and "Invalid request content" as plain text; nothing
      is called and the store is unchanged. */
  lemma UnreadableRequestRejected<C, B>(f: RegistrationFilter<C, B>, req: Request<B>, store: Store, faults: StoreFaults)
    requires NoneReadable(f.converters.converters, f.converters.canRead, req.contentType)
    ensures Handle(f, req, store, faults)
         == Exchange(Response(f.handlers.failure.status, Some(TEXT_PLAIN), INVALID_CONTENT), store, [])
  {
  }

  /** With the constructor's handlers, a registration that decodes to valid
      credentials for a free username is answered 201 with an empty body,
      and the store then holds the user; a taken username is answered 401
      with "Username is already in use". */
  lemma NewFilterStatuses<C, B>(path: string, hc: HttpMessageConverters<C, B, Credentials>, encode: string -> string,
                                req: Request<B>, store: Store)
    requires ParseBody(hc, req).Some? && CheckCredentials(ParseBody(hc, req).value).Ok?
    ensures var name := ParseBody(hc, req).value.username.value;
      var x := Handle(New(path, hc, encode), req, store, NO_FAULTS);
      && (name !in store ==> x.response == Response(201, None, "") && name in x.store)
      && (name in store ==> x.response == Response(401, Some(TEXT_PLAIN), USERNAME_IN_USE) && x.store == store)
  {
  }
}
