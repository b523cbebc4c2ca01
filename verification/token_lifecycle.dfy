/** The refresh-token lifecycle across the three use cases: a token is
    registered only by a successful login, stays usable through any number
    of refreshes, and is gone after one logout. */
module TokenLifecycle {
  import opened Results
  import opened JsValues
  import opened JwtTokenManager
  import opened AuthenticationRepository
  import opened UserRepository
  import LoginUserUseCase
  import RefreshAuthenticationUseCase
  import LogoutUserUseCase

  /** The fixed collaborators: secrets, the users table and bcrypt. */
  datatype Env = Env(keys: Keys, users: Users, matches: (JsString, JsString) -> bool)

  /** One call of a use case, with the clock reading it sees. */
  datatype Request =
    | LoginRequest(payload: Payload, now: int)
    | RefreshRequest(payload: Payload, now: int)
    | LogoutRequest(payload: Payload)

  /** The payload `{ refreshToken }`. */
  function TokenPayload(token: JsString): Payload {
    map["refreshToken" := Str(token)]
  }

  /** The store after one request; refresh only reads it. */
  function Step(env: Env, store: Store, request: Request): Store {
    match request
    case LoginRequest(payload, now) =>
      LoginUserUseCase.Execute(env.keys, env.users, env.matches, now, store, payload).store
    case RefreshRequest(_, _) => store
    case LogoutRequest(payload) => LogoutUserUseCase.Execute(store, payload).store
  }

  /** The refresh token a request hands out: only a successful login does. */
  function Issued(env: Env, store: Store, request: Request): set<JsString> {
    match request
    case LoginRequest(payload, now) =>
      var r := LoginUserUseCase.Execute(env.keys, env.users, env.matches, now, store, payload);
      if r.result.Ok? then {r.result.value.refreshToken} else {}
    case _ => {}
  }

  /** The store after a sequence of requests, served one after another. */
  function Run(env: Env, store: Store, requests: seq<Request>): Store
    decreases |requests|
  {
    if requests == [] then store
    else Run(env, Step(env, store, requests[0]), requests[1..])
  }

  /** Every refresh token handed out along a run. */
  function Minted(env: Env, store: Store, requests: seq<Request>): set<JsString>
    decreases |requests|
  {
    if requests == [] then {}
    else Issued(env, store, requests[0]) + Minted(env, Step(env, store, requests[0]), requests[1..])
  }

  /** Every registered token is signed with the refresh key. */
  predicate RefreshSigned(keys: Keys, store: Store) {
    forall t :: t in store ==> t.Signed? && t.key == keys.refresh
  }

  /** One request adds to the store at most the token it hands out. */
  lemma StepKeepsOnlyIssuedTokens(env: Env, store: Store, request: Request)
    ensures Step(env, store, request) <= store + Issued(env, store, request)
  {
  }

  /** After any run, the store holds only tokens it held at the start or
      that a login of the run handed out. */
  lemma {:induction false} RunKeepsOnlyIssuedTokens(env: Env, store: Store, requests: seq<Request>)
    ensures Run(env, store, requests) <= store + Minted(env, store, requests)
    decreases |requests|
  {
    if requests != [] {
      var next := Step(env, store, requests[0]);
      StepKeepsOnlyIssuedTokens(env, store, requests[0]);
      RunKeepsOnlyIssuedTokens(env, next, requests[1..]);
    }
  }

  /** A run registers only refresh-key tokens, so with distinct secrets an
      access token never enters the store. */
  lemma {:induction false} RunPreservesRefreshSigned(env: Env, store: Store, requests: seq<Request>)
    requires RefreshSigned(env.keys, store)
    ensures RefreshSigned(env.keys, Run(env, store, requests))
    ensures Separated(env.keys) ==> forall t :: t in Run(env, store, requests) ==> t.key != env.keys.access
    decreases |requests|
  {
    if requests != [] {
      var next := Step(env, store, requests[0]);
      assert RefreshSigned(env.keys, next);
      RunPreservesRefreshSigned(env, next, requests[1..]);
    }
  }

  /** Refreshes never change the store. */
  lemma RefreshesLeaveStoreUnchanged(env: Env, store: Store, requests: seq<Request>)
    requires forall i :: 0 <= i < |requests| ==> requests[i].RefreshRequest?
    ensures Run(env, store, requests) == store
  {
  }

  /** A logout naming some other token, a login or a refresh leaves a
      registered token registered. */
  lemma StepKeepsToken(env: Env, store: Store, request: Request, token: JsString)
    requires token in store
    requires !(request.LogoutRequest? && Prop(request.payload, "refreshToken") == Str(token))
    ensures token in Step(env, store, request)
  {
  }

  /** Only a logout naming a registered token removes it: a run without
      such a logout keeps it registered. */
  lemma {:induction false} OnlyLogoutRemoves(env: Env, store: Store, requests: seq<Request>, token: JsString)
    requires token in store
    requires forall i :: 0 <= i < |requests| ==>
      !(requests[i].LogoutRequest? && Prop(requests[i].payload, "refreshToken") == Str(token))
    ensures token in Run(env, store, requests)
    decreases |requests|
  {
    if requests != [] {
      StepKeepsToken(env, store, requests[0], token);
      OnlyLogoutRemoves(env, Step(env, store, requests[0]), requests[1..], token);
    }
  }

  /** A refresh token stays usable after any number of refreshes. */
  lemma RefreshTokenStaysUsable(env: Env, store: Store, requests: seq<Request>, token: JsString, now: int)
    requires forall i :: 0 <= i < |requests| ==> requests[i].RefreshRequest?
    requires RefreshAuthenticationUseCase.Execute(env.keys, store, now, TokenPayload(token)).Ok?
    ensures RefreshAuthenticationUseCase.Execute(env.keys, Run(env, store, requests), now, TokenPayload(token)).Ok?
  {
    RefreshesLeaveStoreUnchanged(env, store, requests);
  }

  /** A refresh token stays usable until a logout names it: any run without
      such a logout leaves it refreshable. */
  lemma UsableUntilLogout(env: Env, store: Store, requests: seq<Request>, token: JsString, now: int)
    requires forall i :: 0 <= i < |requests| ==>
      !(requests[i].LogoutRequest? && Prop(requests[i].payload, "refreshToken") == Str(token))
    requires RefreshAuthenticationUseCase.Execute(env.keys, store, now, TokenPayload(token)).Ok?
    ensures RefreshAuthenticationUseCase.Execute(env.keys, Run(env, store, requests), now, TokenPayload(token)).Ok?
  {
    OnlyLogoutRemoves(env, store, requests, token);
  }

  /** A token that was not registered at the start and that no login of the
      run handed out is refused by both refresh and logout. */
  lemma NeverIssuedTokenRefused(env: Env, store: Store, requests: seq<Request>, token: JsString, now: int)
    requires token !in store && token !in Minted(env, store, requests)
    ensures RefreshAuthenticationUseCase.Execute(env.keys, Run(env, store, requests), now, TokenPayload(token)).Err?
    ensures token.Signed? && token.key == env.keys.refresh ==>
      RefreshAuthenticationUseCase.Execute(env.keys, Run(env, store, requests), now, TokenPayload(token))
        == Err(InvariantError(RefreshTokenNotFound))
    ensures !IsEmpty(token) ==>
      LogoutUserUseCase.Execute(Run(env, store, requests), TokenPayload(token)).result
        == Err(InvariantError(RefreshTokenNotFound))
  {
    RunKeepsOnlyIssuedTokens(env, store, requests);
  }

  /** Logging out twice: the second call finds nothing to revoke. */
  lemma LogoutTwice(store: Store, payload: Payload)
    requires LogoutUserUseCase.Execute(store, payload).result.Ok?
    ensures
      var after := LogoutUserUseCase.Execute(store, payload).store;
      LogoutUserUseCase.Execute(after, payload).result == Err(InvariantError(RefreshTokenNotFound))
  {
  }

  /** After a logout the same token no longer refreshes; a correctly signed
      one fails with not-found. */
  lemma RefreshAfterLogout(keys: Keys, store: Store, payload: Payload, now: int)
    requires LogoutUserUseCase.Execute(store, payload).result.Ok?
    ensures
      var after := LogoutUserUseCase.Execute(store, payload).store;
      && RefreshAuthenticationUseCase.Execute(keys, after, now, payload).Err?
      && (Prop(payload, "refreshToken").s.Signed? && Prop(payload, "refreshToken").s.key == keys.refresh ==>
            RefreshAuthenticationUseCase.Execute(keys, after, now, payload)
              == Err(InvariantError(RefreshTokenNotFound)))
  {
  }

  /** Logout checks no signature: any registered non-empty string, JWT or
      not, is revoked. */
  lemma LogoutIgnoresSignature(store: Store, token: JsString)
    requires !IsEmpty(token) && token in store
    ensures LogoutUserUseCase.Execute(store, TokenPayload(token)).result.Ok?
    ensures LogoutUserUseCase.Execute(store, TokenPayload(token)).store == store - {token}
  {
  }

  /** Presenting an access token to refresh fails with the invalid-token
      error, whether or not that string happens to be registered. */
  lemma AccessTokenCannotRefresh(keys: Keys, store: Store, identity: Identity, issued: int, now: int)
    requires Separated(keys)
    ensures RefreshAuthenticationUseCase.Execute(keys, store, now, TokenPayload(CreateAccessToken(keys, identity, issued)))
      == Err(InvariantError(InvalidRefreshToken))
  {
  }

  /** The whole life of one refresh token: registered by login, usable by
      refresh, revoked by logout, refused afterwards by both. */
  lemma Lifecycle(env: Env, store: Store, payload: Payload, loginTime: int, refreshTime: int)
    requires LoginUserUseCase.Execute(env.keys, env.users, env.matches, loginTime, store, payload).result.Ok?
    ensures
      var login := LoginUserUseCase.Execute(env.keys, env.users, env.matches, loginTime, store, payload);
      var token := login.result.value.refreshToken;
      var refreshed := RefreshAuthenticationUseCase.Execute(env.keys, login.store, refreshTime, TokenPayload(token));
      var logout := LogoutUserUseCase.Execute(login.store, TokenPayload(token));
      && refreshed.Ok?
      && DecodePayload(refreshed.value) == Ok(Claims(token.payload, refreshTime))
      && logout.result.Ok?
      && logout.store == login.store - {token}
      && RefreshAuthenticationUseCase.Execute(env.keys, logout.store, refreshTime, TokenPayload(token))
           == Err(InvariantError(RefreshTokenNotFound))
      && LogoutUserUseCase.Execute(logout.store, TokenPayload(token)).result
           == Err(InvariantError(RefreshTokenNotFound))
  {
  }

  /** Two logins at different seconds, or of different users, open two
      sessions: revoking one leaves the other usable. */
  lemma IndependentSessions(env: Env, store: Store, payload1: Payload, payload2: Payload, now1: int, now2: int,
                            refreshTime: int)
    requires now1 != now2 || Prop(payload1, "username") != Prop(payload2, "username")
    requires LoginUserUseCase.Execute(env.keys, env.users, env.matches, now1, store, payload1).result.Ok?
    requires
      var s1 := LoginUserUseCase.Execute(env.keys, env.users, env.matches, now1, store, payload1).store;
      LoginUserUseCase.Execute(env.keys, env.users, env.matches, now2, s1, payload2).result.Ok?
    ensures
      var login1 := LoginUserUseCase.Execute(env.keys, env.users, env.matches, now1, store, payload1);
      var login2 := LoginUserUseCase.Execute(env.keys, env.users, env.matches, now2, login1.store, payload2);
      var token1 := login1.result.value.refreshToken;
      var token2 := login2.result.value.refreshToken;
      var logout := LogoutUserUseCase.Execute(login2.store, TokenPayload(token1));
      && token1 != token2
      && logout.result.Ok?
      && RefreshAuthenticationUseCase.Execute(env.keys, logout.store, refreshTime, TokenPayload(token2)).Ok?
  {
  }

  /** Two logins with the same payload in the same second mint the same
      refresh token, because a token is determined by its identity and its
      `iat` in seconds. The two sessions are then one store entry: logging
      out of one revokes the other. */
  lemma SameSecondLoginsShareToken(env: Env, store: Store, payload: Payload, now: int, refreshTime: int)
    requires LoginUserUseCase.Execute(env.keys, env.users, env.matches, now, store, payload).result.Ok?
    ensures
      var login1 := LoginUserUseCase.Execute(env.keys, env.users, env.matches, now, store, payload);
      var login2 := LoginUserUseCase.Execute(env.keys, env.users, env.matches, now, login1.store, payload);
      var token1 := login1.result.value.refreshToken;
      var logout := LogoutUserUseCase.Execute(login2.store, TokenPayload(token1));
      && login2.result.Ok?
      && login2.result.value.refreshToken == token1
      && login2.store == login1.store
      && logout.result.Ok?
      && RefreshAuthenticationUseCase.Execute(env.keys, logout.store, refreshTime,
                                              TokenPayload(login2.result.value.refreshToken))
           == Err(InvariantError(RefreshTokenNotFound))
  {
  }
}
