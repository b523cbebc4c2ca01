/** The login use case: validate the payload, check the credentials, mint an
    access and a refresh token from the user's identity and register the
    refresh token. */
module LoginUserUseCase {
  import opened Results
  import opened JsValues
  import opened JwtTokenManager
  import opened AuthenticationRepository
  import opened UserRepository
  import opened PasswordHash
  import UserLogin

  /** The authentication returned to the caller. */
  datatype NewAuth = NewAuth(accessToken: JsString, refreshToken: JsString)

  /** Everything execute does before it touches the token store. */
  function IssueTokens(keys: Keys, users: Users, matches: (JsString, JsString) -> bool, now: int, payload: Payload)
    : Result<NewAuth>
  {
    var login :- UserLogin.New(payload);
    var hashedPassword :- GetPasswordByUsername(users, login.username);
    var _ :- ComparePassword(matches, login.password, hashedPassword);
    var id :- GetIdByUsername(users, login.username);
    var identity := Identity(login.username, id);
    Ok(NewAuth(CreateAccessToken(keys, identity, now), CreateRefreshToken(keys, identity, now)))
  }

  /** execute. addToken is not awaited, so a storage failure never reaches
      the caller: the insert is unconditional once the tokens exist. */
  function Execute(keys: Keys, users: Users, matches: (JsString, JsString) -> bool, now: int,
                   store: Store, payload: Payload): (r: Reply<NewAuth, Store>)
    // fail-fast: a failed login mints nothing and leaves the store alone
    ensures r.result.Err? ==> r.store == store
    // exactly the credentials that pass every check succeed
    ensures r.result.Ok? <==>
      && UserLogin.New(payload).Ok?
      && UserLogin.New(payload).value.username in users
      && matches(UserLogin.New(payload).value.password,
                 users[UserLogin.New(payload).value.username].passwordHash)
    // the payload is validated before any repository is consulted
    ensures UserLogin.New(payload).Err? ==> r.result == Err(UserLogin.New(payload).error)
    ensures UserLogin.New(payload).Ok? && UserLogin.New(payload).value.username !in users ==>
      r.result == Err(InvariantError(UsernameNotFound))
    ensures (UserLogin.New(payload).Ok? && UserLogin.New(payload).value.username in users
             && !matches(UserLogin.New(payload).value.password,
                         users[UserLogin.New(payload).value.username].passwordHash)) ==>
      r.result == Err(AuthenticationError(WrongCredentials))
    // both tokens carry the identity {username, stored id}; only the refresh token is registered
    ensures r.result.Ok? ==>
      var username := UserLogin.New(payload).value.username;
      var identity := Identity(username, users[username].id);
      && Decode(r.result.value.accessToken) == Ok(Artifacts(Claims(identity, now), keys.access))
      && Decode(r.result.value.refreshToken) == Ok(Artifacts(Claims(identity, now), keys.refresh))
      && r.store == store + {r.result.value.refreshToken}
  {
    match IssueTokens(keys, users, matches, now, payload)
    case Err(e) => Reply(Err(e), store)
    case Ok(auth) => Reply(Ok(auth), AddToken(store, auth.refreshToken))
  }

  /** The access token of a login is never registered by it. */
  lemma AccessTokenNotStored(keys: Keys, users: Users, matches: (JsString, JsString) -> bool, now: int,
                             store: Store, payload: Payload)
    requires Separated(keys)
    requires Execute(keys, users, matches, now, store, payload).result.Ok?
    ensures
      var r := Execute(keys, users, matches, now, store, payload);
      r.result.value.accessToken in r.store <==> r.result.value.accessToken in store
  {
  }
}
