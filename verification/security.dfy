/** The values that flow through both request filters: the decoded request
    body, the authentication exceptions a filter can throw, the authentication
    token it returns, the user records of the user store, and the calls a
    filter makes on its collaborators. */
module Security {
  import opened Base

  /** The request body both filters decode (`Credentials.class`): each field
      may be missing from the body, which leaves it null. */
  datatype Credentials = Credentials(username: Option<string>, password: Option<string>)

  /** An exception thrown by a collaborator of the filters (here: the user
      store).  `ThrownRegistrationFailed` is a `RegistrationFailedException`
      while it is in flight, the same Java class as `AuthException`'s
      `RegistrationFailed`; it is told apart from every other exception
      because the registration filter lets it through unchanged.
      `OtherException` is any other `java.lang.Exception`: the filter catches
      only `Exception`, and an `Error` thrown by the store, which would escape
      the filter, is not modelled. */
  datatype Throwable =
    | ThrownRegistrationFailed(message: string, cause: Option<string>)
    | OtherException(description: string)

  /** The `AuthenticationException`s that end an attempt and reach the failure
      handler.  `RegistrationFailed` is `RegistrationFailedException`, whose
      cause is kept as the description of the wrapped exception;
      `OtherAuthentication` is any other subclass an authenticator may throw. */
  datatype AuthException =
    | BadCredentials(message: string)
    | RegistrationFailed(message: string, cause: Option<string>)
    | OtherAuthentication(name: string, message: string)

  /** `UsernamePasswordAuthenticationToken`: the principal is the username,
      `credentials` is the password (null once authenticated by registration). */
  datatype Authentication =
    Token(principal: string, credentials: Option<string>, authorities: set<string>, authenticated: bool)

  /** What `attemptAuthentication` ends with: a token, or a thrown exception. */
  type Outcome = Result<Authentication, AuthException>

  /** A user record as the `UserDetailsManager` stores it. */
  datatype UserDetails = UserDetails(username: string, password: string, authorities: set<string>)

  /** The contents of the user store, keyed by username. */
  type Store = map<string, UserDetails>

  /** One call a filter makes on a collaborator, in the order it makes them. */
  datatype Call =
    | Encode(rawPassword: string)
    | UserExists(username: string)
    | CreateUser(user: UserDetails)
    | Authenticate(token: Authentication)

  /** Credentials that passed the presence checks. */
  datatype ValidCredentials = ValidCredentials(username: string, password: string)

  const MISSING_USERNAME: string := "Missing username"
  const MISSING_PASSWORD: string := "Missing password"

  /** The presence checks both filters run on a decoded body, username first. */
  function CheckCredentials(c: Credentials): (r: Result<ValidCredentials, AuthException>)
    ensures r.Ok? <==> HasLength(c.username) && HasLength(c.password)
    ensures r.Ok? ==> c.username == Some(r.value.username) && c.password == Some(r.value.password)
    ensures !HasLength(c.username) ==> r == Err(BadCredentials(MISSING_USERNAME))
    ensures HasLength(c.username) && !HasLength(c.password) ==> r == Err(BadCredentials(MISSING_PASSWORD))
  {
    if !HasLength(c.username) then
      Err(BadCredentials(MISSING_USERNAME))
    else if !HasLength(c.password) then
      Err(BadCredentials(MISSING_PASSWORD))
    else
      Ok(ValidCredentials(c.username.value, c.password.value))
  }
}
