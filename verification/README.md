# spring-security-spa: request-body login and registration, modelled in Dafny

The library adds two request filters to Spring Security for single-page
applications. The **login filter** (`RequestBodyLoginFilter`) and the
**registration filter** (`RegistrationFilter`) read a `username` and a
`password` from a request body decoded by the application's message
converters, instead of from form fields. Two small handlers turn the
outcome into an HTTP status: `SimpleAuthenticationSuccessHandler` and
`SimpleAuthenticationFailureHandler`.

The model is functional. Each filter's `attemptAuthentication` is a pure
function from the decoded body (and, for registration, the user store) to an
outcome. The outcome is either a token or an `AuthException`, which stands for
Java's thrown exception. The function also returns the store afterwards and
the list of calls it made on its collaborators. That list is how "the store is
not consulted" and "the authenticator is called exactly once" are stated.

| file | module | models |
|---|---|---|
| `base.dfy` | `Base` | `Option` (Java null), `Result` (thrown exception), `StringUtils.hasLength` |
| `security.dfy` | `Security` | credentials, exceptions, tokens, user records, the store, collaborator calls, the shared presence checks |
| `converters.dfy` | `Converters` | `ConverterHelper.findConverter` and `parseBody` |
| `handlers.dfy` | `Handlers` | the success and failure handlers, and how an outcome is sent to one of them |
| `registration.dfy` | `Registration` | `RegistrationFilter` |
| `login.dfy` | `Login` | `RequestBodyLoginFilter` |

Collaborators become parameters:
- the message converters: an ordered list plus `canRead` and `read` functions;
- the password encoder: a deterministic `string -> string` function held by the registration filter;
- the authentication manager: a function from token to outcome, held by the login filter;
- the `UserDetailsManager`: its contents are a `map` from username to user record;
- exceptions thrown by the store's two calls: a `StoreFaults` input to each attempt.

Points where the code behaves differently from what one might expect, all followed as written:
- Registration does not call an authenticator. It returns an authenticated
  token built from the new user record, with no password.
- The "Username is already in use" exception is thrown inside the `try`. The
  `catch` block then rethrows it unchanged (`Registration.Caught`).
- The password is encoded while the user record is built, before
  `userExists`. So it is encoded even when the username turns out to be taken.
- `RegistrationFailedException.java` declares only a `(message, cause)`
  constructor, but the filter throws it with a message alone. Those two files
  come from different versions. The model gives such an exception an absent
  cause.

## Model

| member | source | states |
|---|---|---|
| `Security.CheckCredentials` | src/main/java/me/itzg/spring/security/spa/RegistrationFilter.java:110-115 | valid exactly when both fields are non-null and non-empty; a missing username gives "Missing username" whatever the password; a missing password with a username gives "Missing password"; valid credentials are the body's own fields |
| `Converters.FindConverter` | src/main/java/me/itzg/spring/security/spa/ConverterHelper.java:49-57 | empty exactly when no converter can read the media type; a converter returned can read it and sits at the first readable position of the list |
| `Converters.FindConverterIsFirst` | src/main/java/me/itzg/spring/security/spa/ConverterHelper.java:50-54 | if position i is the first readable one, the result is the converter at i (the independent first-match definition implies the search result) |
| `Converters.FindConverterAppend` | src/main/java/me/itzg/spring/security/spa/ConverterHelper.java:50-56 | earlier converters take precedence: searching `front + back` gives the match in `front` if there is one, else the match in `back` |
| `Converters.ParseBody` | src/main/java/me/itzg/spring/security/spa/ConverterHelper.java:68-77 | absent (null, not an error) when no converter can read the request's media type; otherwise exactly what the first readable converter's `read` returns for the whole request |
| `Handlers.NewFailureHandler` | src/main/java/me/itzg/spring/security/spa/SimpleAuthenticationFailureHandler.java:38-39 | a new failure handler uses status 401 |
| `Handlers.SetStatus` | src/main/java/me/itzg/spring/security/spa/SimpleAuthenticationFailureHandler.java:49-52 | after `setStatus(s)` the handler's status is `s` |
| `Handlers.OnFailure` | src/main/java/me/itzg/spring/security/spa/SimpleAuthenticationFailureHandler.java:56-61 | the response has the configured status, content type text/plain, and the exception's message as body |
| `Handlers.OnSuccess` | src/main/java/me/itzg/spring/security/spa/SimpleAuthenticationSuccessHandler.java:43-46 | the response has the constructor's status code, no content type and an empty body |
| `Handlers.Respond` | src/main/java/me/itzg/spring/security/spa/RequestBodyLoginFilter.java:72-73 | a token gets the success status with no content type and an empty body; an exception gets the failure status, text/plain and its message |
| `Handlers.FailureStatusIgnoresKind` | src/main/java/me/itzg/spring/security/spa/SimpleAuthenticationFailureHandler.java:56-58 | two different exceptions get the same status |
| `Handlers.FailureStatusConfigured` | src/main/java/me/itzg/spring/security/spa/SimpleAuthenticationFailureHandler.java:38-52 | with no override any failure is answered 401; after `setStatus(s)` it is answered `s` |
| `Handlers.SuccessIgnoresAuthentication` | src/main/java/me/itzg/spring/security/spa/SimpleAuthenticationSuccessHandler.java:43-46 | the success response is the same whatever authentication it reports |
| `Handlers.ResponseRevealsOutcome` | src/main/java/me/itzg/spring/security/spa/SimpleAuthenticationFailureHandler.java:56-61 | when the two statuses differ, the status is the success status exactly when the outcome is a success, and a failure's body is its message |
| `Registration.New` | src/main/java/me/itzg/spring/security/spa/RegistrationFilter.java:77-87 | the filter listens at the given path, keeps the given converters and password encoder, grants the role USER, answers success with 201 and failure with 401 |
| `Registration.NewDefault` | src/main/java/me/itzg/spring/security/spa/RegistrationFilter.java:63-66 | the constructor without a path listens at /register, keeps the given converters and password encoder, grants the role USER, answers 201 and 401 |
| `Registration.SetInitialRoles` | src/main/java/me/itzg/spring/security/spa/RegistrationFilter.java:97-100 | the role list becomes the given one and every other part of the filter is unchanged |
| `Registration.AuthoritiesExact` | src/main/java/me/itzg/spring/security/spa/RegistrationFilter.java:117-122 | a new user holds the authority ROLE_r exactly when r is one of the configured roles |
| `Registration.Authorities` | src/main/java/me/itzg/spring/security/spa/RegistrationFilter.java:121 | every configured role r yields the authority ROLE_r, and every authority is ROLE_ followed by a configured role |
| `Registration.NewUser` | src/main/java/me/itzg/spring/security/spa/RegistrationFilter.java:117-122 | the new record has the given username, the encoder's output for the raw password, and an authority ROLE_r for exactly the configured roles r |
| `Registration.Caught` | src/main/java/me/itzg/spring/security/spa/RegistrationFilter.java:129-134 | a registration failure passes through with its message and cause; any other exception becomes "Unexpected failure" with the original as cause |
| `Registration.StoreCalls` | src/main/java/me/itzg/spring/security/spa/RegistrationFilter.java:117-136 | succeeds exactly when neither store call throws and the username is free; every failure leaves the store unchanged |
| `Registration.Attempt` | src/main/java/me/itzg/spring/security/spa/RegistrationFilter.java:104-141 | succeeds exactly when a body was decoded, both fields are present, the store does not throw and the username is free; a failure leaves the store unchanged; a success adds only the new username and keeps every existing record |
| `Registration.Handle` | src/main/java/me/itzg/spring/security/spa/RegistrationFilter.java:84-86 | the store and calls are the attempt's; a successful attempt is answered with the success status and an empty body, a failed one with the failure status, text/plain and the exception's message |
| `Registration.InvalidBodyFailsFirst` | src/main/java/me/itzg/spring/security/spa/RegistrationFilter.java:138-140 | no decoded body fails with "Invalid request content", calls nothing, and leaves the store unchanged |
| `Registration.UsernameCheckedFirst` | src/main/java/me/itzg/spring/security/spa/RegistrationFilter.java:109-112 | a body without a username fails with "Missing username" whatever its password, and calls nothing |
| `Registration.PasswordCheckedSecond` | src/main/java/me/itzg/spring/security/spa/RegistrationFilter.java:113-115 | a username with a null or empty password fails with "Missing password" and calls nothing |
| `Registration.UsernameInUseRejected` | src/main/java/me/itzg/spring/security/spa/RegistrationFilter.java:124-128 | a username already stored fails with "Username is already in use"; `createUser` is never called and the store is unchanged |
| `Registration.SuccessStoresUser` | src/main/java/me/itzg/spring/security/spa/RegistrationFilter.java:117-136 | on success the store maps the username to the encoded password and the roles' authorities; the token names the user, carries those authorities and no password; the calls are encode, userExists, createUser in that order |
| `Registration.UserExistsFaultCaught` | src/main/java/me/itzg/spring/security/spa/RegistrationFilter.java:124-134 | an exception from `userExists` is caught as `Caught` describes; `createUser` is not called and the store is unchanged |
| `Registration.CreateUserFaultCaught` | src/main/java/me/itzg/spring/security/spa/RegistrationFilter.java:128-134 | an exception from `createUser` is caught as `Caught` describes and the store is unchanged |
| `Registration.DefaultRoleIsUser` | src/main/java/me/itzg/spring/security/spa/RegistrationFilter.java:54 | a filter fresh from its constructor grants exactly the authority ROLE_USER |
| `Registration.SetInitialRolesGoverns` | src/main/java/me/itzg/spring/security/spa/RegistrationFilter.java:97-99 | after `setInitialRoles(roles)`, a newly registered user holds ROLE_r exactly when r is in `roles` |
| `Registration.RegisterTwiceRejected` | src/main/java/me/itzg/spring/security/spa/RegistrationFilter.java:125-127 | once a username is registered, registering it again with any password fails with "Username is already in use" |
| `Registration.FailureRepeats` | src/main/java/me/itzg/spring/security/spa/RegistrationFilter.java:124-134 | repeating a failed registration on the store it left gives the same failure, store and calls |
| `Registration.UnreadableRequestRejected` | src/main/java/me/itzg/spring/security/spa/RegistrationFilter.java:107 | a media type no converter can read is answered with the failure status, text/plain and "Invalid request content"; nothing is called and the store is unchanged |
| `Registration.NewFilterStatuses` | src/main/java/me/itzg/spring/security/spa/RegistrationFilter.java:49 | with the constructor's handlers, valid credentials for a free username get 201 with an empty body and the user is stored; a taken username gets 401 with "Username is already in use" and an unchanged store |
| `Login.New` | src/main/java/me/itzg/spring/security/spa/RequestBodyLoginFilter.java:67-74 | the filter listens at the given path, keeps the given converters and authentication manager, answers success with 200 and failure with 401 |
| `Login.NewDefault` | src/main/java/me/itzg/spring/security/spa/RequestBodyLoginFilter.java:57-59 | the constructor without a path listens at /login, keeps the given converters and authentication manager, answers 200 and 401 |
| `Login.LoginToken` | src/main/java/me/itzg/spring/security/spa/RequestBodyLoginFilter.java:102 | the token handed to the manager carries the username and password as given, no authorities, and is not authenticated |
| `Login.Attempt` | src/main/java/me/itzg/spring/security/spa/RequestBodyLoginFilter.java:89-108 | the authentication manager is the only collaborator called, at most once; it is called exactly when a body was decoded with both fields present; its answer is the outcome |
| `Login.Handle` | src/main/java/me/itzg/spring/security/spa/RequestBodyLoginFilter.java:92-107 | the calls are the attempt's, all to the authentication manager; a successful attempt is answered with the success status and an empty body, a failed one with the failure status, text/plain and the exception's message |
| `Login.InvalidBodyFailsFirst` | src/main/java/me/itzg/spring/security/spa/RequestBodyLoginFilter.java:105-107 | no decoded body fails with "Request body was invalid" and calls nothing |
| `Login.UsernameCheckedFirst` | src/main/java/me/itzg/spring/security/spa/RequestBodyLoginFilter.java:95-97 | a body without a username fails with "Missing username" whatever its password, and calls nothing |
| `Login.PasswordCheckedSecond` | src/main/java/me/itzg/spring/security/spa/RequestBodyLoginFilter.java:98-100 | a username with a null or empty password fails with "Missing password" and calls nothing |
| `Login.DelegatesOnce` | src/main/java/me/itzg/spring/security/spa/RequestBodyLoginFilter.java:102-104 | with both fields present, the manager is called once with an unauthenticated token of exactly that username and password, and its token or exception is the outcome unchanged |
| `Login.NeverTouchesStore` | src/main/java/me/itzg/spring/security/spa/RequestBodyLoginFilter.java:89-108 | a login request never calls `userExists`, `createUser` or the password encoder |
| `Login.UnreadableRequestRejected` | src/main/java/me/itzg/spring/security/spa/RequestBodyLoginFilter.java:92-107 | a media type no converter can read is answered with the failure status, text/plain and "Request body was invalid", and nothing is called |
| `Login.NewFilterStatuses` | src/main/java/me/itzg/spring/security/spa/RequestBodyLoginFilter.java:72-73 | with the constructor's handlers, credentials the manager accepts get 200 with an empty body, and credentials it rejects get 401 with the rejection's message |

## Left out

- Media type parsing: `MediaType.parseMediaType` is framework code. The request carries its media type already parsed. A missing or malformed Content-Type header makes it throw, and that path is not modelled.
- Handlers.OnFailure: an exception's message is always a string here. A Java exception from the authentication manager may have a null message, which the failure handler prints as "null"; that case is not modelled.
- Converter `read` failures: malformed JSON and I/O errors throw exceptions that are not authentication exceptions. They escape the filter and are not modelled. `read` returning null is modelled.
- Role validation in Spring's user builder: it throws for a role that already starts with `ROLE_`, and that exception escapes the filter. It is not modelled; `Registration.Authorities` prefixes every role the same way.
- Password encoder and authentication manager exceptions other than authentication exceptions are not modelled. An authentication manager returning null, which makes the framework write nothing, is not modelled either.
- Store exceptions are modelled one per call, and a throwing `createUser` is taken to store nothing. The store's own consistency rules are not modelled. For example, an in-memory store also rejects a duplicate at creation.
- Registration.FailureRepeats: the password encoder is modelled as a deterministic function. A salting encoder such as BCrypt returns a different hash on every call, so in the source a repeated attempt that fails in `createUser` passes a different hash to it. Equal `calls` hold only for a deterministic encoder. The outcome and the store are the same whatever the encoder returns.
- Registration.Caught: an `Error` (not an `Exception`) thrown by the store escapes the filter's `catch (Exception e)`, and that path is not modelled.
- Registration.SetInitialRoles: the Java setter keeps the caller's array itself, not a copy, so a later write to that array changes the roles of later registrations. The model stores an immutable sequence, so that aliasing is not modelled.
- Registration.StoreCalls: the store is decided by exact username keys. A store that normalises usernames is not modelled; Spring's in-memory store lower-cases them, so there "User" is taken once "user" is registered, while here it is free.
- Concurrency: the race between `userExists` and `createUser` under concurrent registrations is the store's concern.
- Request matching: the path is recorded in each filter but is not matched against requests, and the POST-only restriction is not modelled.
- Framework dispatch is modelled only as `Handlers.Respond`. Security-context and session updates are not modelled, and neither is the framework's `setAuthenticationFailureHandler` beyond the filter's `handlers` field.
- The one-argument `RequestBodyLoginFilter` constructor, `setHttpMessageConverters` and `afterPropertiesSet` are not modelled. They leave the converters unset until a setter runs, and that is framework configuration.
- `SinglePageAppConfigurer` is framework wiring. It uses constructors and setters of a different version of `RegistrationFilter`, so it is not part of this model.
- `RegistrationFailedException` is not modelled as a class. It becomes the `RegistrationFailed` case of `Security.AuthException`, carrying a message and an optional cause.
