# Authentication token lifecycle, in Dafny

This project models the token lifecycle of an authentication service:

- **Login** checks a username and password. It then mints an access token and a refresh token from the user's identity `{username, id}` and registers the refresh token.
- **Refresh** exchanges a registered refresh token for a new access token.
- **Logout** revokes a registered refresh token.

The state is the set of registered refresh tokens. Each flow is a pure function.

- Login and Logout return `Reply(result, store)`: the result or error kind, plus the store afterwards.
- Refresh only reads the store, so its type returns no store at all.

Modules, following the source files:

| module | models |
|---|---|
| `Results` | the error kinds the code throws, with their exact codes and messages, and a `Result` type |
| `JsValues` | JavaScript payload values with `!v` (truthiness) and `typeof v` |
| `JwtTokenManager` | minting, verifying and decoding tokens over an abstract JWT library |
| `AuthenticationRepository` | the refresh-token store |
| `UserRepository` | the two user lookups |
| `PasswordHash` | password comparison |
| `UserLogin` | the login-payload entity |
| `LoginUserUseCase`, `RefreshAuthenticationUseCase`, `LogoutUserUseCase` | the three use cases |
| `TokenLifecycle` | properties across flows and over arbitrary request sequences |

How the parts of the system are represented:

- **Strings and JWTs.** A JavaScript string is a `JsString`. A compact JWT is kept in decoded form: `Signed(payload, key, issuedAt)`. Any other string is `Plain(text)`. The JWT library's encoding is treated as a bijection, so two tokens are the same string exactly when their structures are equal.
- **Caveat on `Plain`.** Nothing in the types stops `Plain(t)` from holding the text of a real JWT. Such a value is a second representation of a token string, and the model treats it as a non-JWT string: it fails decoding, and the lemmas about non-issued tokens cover it. Read `Plain` as "a string that is not a well-formed JWT".
- **Issued-at time.** The library stamps each token with its `iat` claim. So minting takes the clock reading `now` as a parameter.
- **Keys.** The secrets come from `ACCESS_TOKEN_KEY` and `REFRESH_TOKEN_KEY` and form the record `Keys(access, refresh)`. Properties that rely on separating the two key domains require `Separated(keys)`, that is, distinct secrets.
- **Password check.** bcrypt's comparison is the parameter `matches(plain, hash)`, so the order of its arguments is part of the contracts.
- **Store.** The refresh-token store is a `set<JsString>`. The user table is a `map` from username to `UserRecord(passwordHash, id)`. Both repositories are modelled from their tests: their implementations are not part of this model.

In three places the code behaves differently from what its design suggests. The model follows the code:

- **Login and storage failures.** One would expect a login to fail when the refresh token cannot be stored. But `LoginUserUseCase.js` line 42 calls `addToken` without `await`, so no storage error can reach the caller. The model's insert is unconditional.
- **Refresh check order.** One might expect "not found" as the refresh failure for any unregistered token. The code verifies the signature first. So an unregistered token that is also badly signed fails with the invalid-token error, and the model does the same.
- **Logins in the same second.** Sessions are meant to be independent, but a token is determined by `{username, id}` and its `iat` in whole seconds (`LoginUserUseCase.js` lines 28-35, `JwtTokenManager.js` lines 11 and 15). So two logins of one user in the same second get the same refresh token. They share one store entry, and logging out of one revokes the other (`TokenLifecycle.SameSecondLoginsShareToken`). If the token column is the table's primary key, the second insert at line 42 would also fail, unawaited. That part depends on a schema that is not part of this model. Neither consequence was executed.

## Model

| member | source | states |
|---|---|---|
| JsValues.FalsyValues | src/Domains/users/entities/UserLogin.js:10 | `!v` holds for exactly undefined, null, false, 0 and the empty string |
| JsValues.TruthyStringIsNonEmptyString | src/Applications/use_case/RefreshAuthenticationUseCase.js:28-34 | a field passes both the truthiness test and the `typeof` test exactly when it is a non-empty string |
| JwtTokenManager.Decode | src/Infrastructures/security/JwtTokenManager.js:29 | decoding succeeds exactly on JWT strings; any other string throws |
| JwtTokenManager.Verify | src/Infrastructures/security/JwtTokenManager.js:22 | signature verification succeeds exactly when the token was signed with the given key |
| JwtTokenManager.CreateAccessToken | src/Infrastructures/security/JwtTokenManager.js:10-12 | the token decodes to the given identity and the clock reading, signed with the access key, and is non-empty |
| JwtTokenManager.CreateRefreshToken | src/Infrastructures/security/JwtTokenManager.js:14-16 | the token decodes to the given identity and the clock reading, signed with the refresh key, and is non-empty |
| JwtTokenManager.VerifyRefreshToken | src/Infrastructures/security/JwtTokenManager.js:18-26 | accepts exactly the JWTs signed with the refresh key; every decode or verify failure becomes one InvariantError "refresh token tidak valid" |
| JwtTokenManager.DecodePayload | src/Infrastructures/security/JwtTokenManager.js:28-32 | returns the claims of any well-formed token without checking its signature; a non-JWT string throws the decode error |
| JwtTokenManager.RefreshTokensVerify | src/Infrastructures/security/_test/JwtTokenManager.test.js:62-72 | every token createRefreshToken mints passes verifyRefreshToken |
| JwtTokenManager.AccessTokensRejected | src/Infrastructures/security/_test/JwtTokenManager.test.js:51-60 | an access token fails verifyRefreshToken if and only if the two secrets differ, and the failure is the invalid-token InvariantError |
| JwtTokenManager.DecodePayloadRoundTrip | src/Infrastructures/security/_test/JwtTokenManager.test.js:75-87 | decodePayload inverts both createAccessToken and createRefreshToken |
| JwtTokenManager.DecodePayloadIgnoresKey | src/Infrastructures/security/JwtTokenManager.js:28-32 | decodePayload gives the same claims whichever key signed the token |
| JwtTokenManager.AccessAndRefreshTokensDiffer | src/Infrastructures/security/JwtTokenManager.js:10-16 | with distinct secrets, the access and refresh tokens minted from one identity at one time differ |
| AuthenticationRepository.AddToken | src/Infrastructures/repository/_test/AuthenticationRepositoryPostgres.test.js:15-28 | afterwards the token is registered and no other entry has changed |
| AuthenticationRepository.ValidateToken | src/Infrastructures/repository/_test/AuthenticationRepositoryPostgres.test.js:31-55 | fails with the not-found InvariantError exactly when the token is not registered |
| AuthenticationRepository.DeleteToken | src/Infrastructures/repository/_test/AuthenticationRepositoryPostgres.test.js:58-72 | afterwards the token is not registered and no other entry has changed |
| AuthenticationRepository.AddValidateDelete | src/Infrastructures/repository/_test/AuthenticationRepositoryPostgres.test.js:42-72 | an added token validates, and after deleting it validation fails again |
| AuthenticationRepository.DeleteUndoesAdd | src/Infrastructures/repository/_test/AuthenticationRepositoryPostgres.test.js:58-72 | deleting a freshly added token restores the original store |
| UserRepository.GetPasswordByUsername | src/Infrastructures/repository/_test/UserRepositoryPostgres.test.js:80-106 | returns the stored hash for a known username; an unknown one fails with InvariantError "username tidak ditemukan" |
| UserRepository.GetIdByUsername | src/Infrastructures/repository/_test/UserRepositoryPostgres.test.js:108-134 | returns the stored id for a known username; an unknown one fails with the same InvariantError |
| PasswordHash.ComparePassword | src/Infrastructures/security/_test/BcryptPasswordHash.test.js:22-45 | succeeds exactly when the password matches the hash; a mismatch is an AuthenticationError, which differs from the not-found error |
| UserLogin.VerifyPayload | src/Domains/users/entities/UserLogin.js:9-17 | passes exactly when both fields are non-empty strings; gives the missing-property error exactly when either field is falsy; fails only with one of the two payload errors |
| UserLogin.New | src/Domains/users/entities/UserLogin.js:2-7 | fails with the error of the payload check; on success it copies both fields unchanged, and both are non-empty |
| UserLogin.WrongTypeAfterPresence | src/Domains/users/entities/UserLogin.js:14-16 | two truthy fields, one of which is not a string, give the type error |
| UserLogin.MissingBeforeWrongType | src/Domains/users/entities/UserLogin.js:10-16 | a falsy field gives the missing-property error even when the other field has the wrong type |
| UserLogin.EmptyStringIsMissing | src/Domains/users/entities/UserLogin.js:10-12 | an empty-string username or password counts as missing, not as a type error |
| LoginUserUseCase.Execute | src/Applications/use_case/LoginUserUseCase.js:19-45 | the payload is checked before any lookup. An unknown user fails with not-found and a wrong password with the authentication error. Success happens exactly when the credentials pass: both tokens then carry `{username, stored id}` under their own keys, and the store gains exactly the refresh token. Any failure leaves the store unchanged |
| LoginUserUseCase.AccessTokenNotStored | src/Applications/use_case/LoginUserUseCase.js:42 | with distinct secrets, a login never registers its access token |
| RefreshAuthenticationUseCase.VerifyPayload | src/Applications/use_case/RefreshAuthenticationUseCase.js:25-35 | passes exactly on a non-empty string and returns it; a falsy value gives NOT_CONTAINS_REFRESH_TOKEN; any other value gives the type error |
| RefreshAuthenticationUseCase.Execute | src/Applications/use_case/RefreshAuthenticationUseCase.js:10-23 | succeeds exactly on a registered, non-empty token signed with the refresh key. Shape errors come first, then invalid-token (even for a registered token), then not-found. The new access token carries the refresh token's identity and the current time |
| LogoutUserUseCase.VerifyPayload | src/Applications/use_case/LogoutUserUseCase.js:18-28 | passes exactly on a non-empty string and returns it; a falsy value gives NOT_CONTAIN_REFRESH_TOKEN; any other value gives the type error |
| LogoutUserUseCase.Execute | src/Applications/use_case/LogoutUserUseCase.js:9-16 | succeeds exactly on a registered non-empty string, and then removes just that entry. Shape errors come first, then not-found; a failure leaves the store unchanged |
| TokenLifecycle.StepKeepsOnlyIssuedTokens | src/Applications/use_case/LoginUserUseCase.js:42 | one request adds to the store at most the refresh token it hands out |
| TokenLifecycle.RunKeepsOnlyIssuedTokens | src/Applications/use_case/LoginUserUseCase.js:42 | after any sequence of requests, every registered token was registered at the start or was handed out by a login in the sequence |
| TokenLifecycle.RunPreservesRefreshSigned | src/Applications/use_case/LoginUserUseCase.js:32-42 | if every registered token is signed with the refresh key, that stays true after any run; with distinct secrets, no access token is ever registered |
| TokenLifecycle.StepKeepsToken | src/Applications/use_case/LogoutUserUseCase.js:14-15 | a registered token survives any request other than a logout naming it |
| TokenLifecycle.OnlyLogoutRemoves | src/Applications/use_case/LogoutUserUseCase.js:14-15 | a registered token stays registered through any run that contains no logout naming it |
| TokenLifecycle.RefreshesLeaveStoreUnchanged | src/Applications/use_case/RefreshAuthenticationUseCase.js:10-23 | any number of refreshes leaves the store as it was |
| TokenLifecycle.RefreshTokenStaysUsable | src/Applications/use_case/RefreshAuthenticationUseCase.js:10-23 | a token that refreshes once still refreshes after any number of refreshes |
| TokenLifecycle.UsableUntilLogout | src/Applications/use_case/LogoutUserUseCase.js:14-15 | a token that refreshes once still refreshes after any run that contains no logout naming it |
| TokenLifecycle.NeverIssuedTokenRefused | src/Applications/use_case/RefreshAuthenticationUseCase.js:13-14 | a token neither registered at the start nor handed out during a run is refused by refresh, with not-found when it is signed with the refresh key. A non-empty such token is refused by logout with not-found |
| TokenLifecycle.LogoutTwice | src/Applications/use_case/LogoutUserUseCase.js:14-15 | after a successful logout, the same logout fails with not-found |
| TokenLifecycle.RefreshAfterLogout | src/Applications/use_case/RefreshAuthenticationUseCase.js:13-14 | after a logout, refreshing with that token fails; for a correctly signed token the error is not-found |
| TokenLifecycle.LogoutIgnoresSignature | src/Applications/use_case/LogoutUserUseCase.js:14-15 | logout revokes any registered non-empty string, JWT or not, whatever key signed it, removing exactly that entry |
| TokenLifecycle.AccessTokenCannotRefresh | src/Applications/use_case/RefreshAuthenticationUseCase.js:13 | with distinct secrets, presenting an access token to refresh fails with invalid-token, even if that string is registered |
| TokenLifecycle.Lifecycle | src/Applications/use_case/LogoutUserUseCase.js:9-16 | a login's refresh token refreshes to an access token with the same identity, is revoked by logout, and is then refused by refresh and by logout with not-found |
| TokenLifecycle.IndependentSessions | src/Applications/use_case/LoginUserUseCase.js:32-42 | two logins at different seconds, or with different usernames, give different refresh tokens, and logging out one leaves the other usable |
| TokenLifecycle.SameSecondLoginsShareToken | src/Applications/use_case/LoginUserUseCase.js:28-42 | two logins with the same payload in the same second return the same refresh token and one store entry; logging out of one makes refresh with the other fail with not-found |

## Left out

- The HTTP handlers and server. They are transport wrappers, and the error-to-status mapping they rely on is not part of this model.
- Postgres, bcrypt and the JWT library are represented abstractly: a set, a map, a comparison parameter, and `Signed` tokens. Storage failures are not modelled.
- Reading the secrets from the environment. They are a `Keys` parameter.
- async/await. Each flow is one sequential step.
- Because `addToken` is not awaited, a rejection of it is not propagated to Login's caller. It surfaces as an unhandled rejection instead, which the model does not cover.
- A payload that is not an object. Destructuring `undefined` throws a TypeError; every modelled payload is an object.
- Numbers other than integers (fractions, NaN, -0). They would only change which numbers count as falsy.
- `NewAuth` validation. Both tokens passed to it are always non-empty strings, so it always succeeds.
- User registration and hashing.
- JwtTokenManager.CreateAccessToken: the payload is always an identity `{username, id}`. Tokens minted with other payload shapes, as some library-level tests do, are not modelled.
- LoginUserUseCase.Execute: one clock reading stamps both tokens. The source mints them in two awaited calls, so their `iat` values could fall in different seconds.
- UserRepository.GetIdByUsername: the message of its not-found error is assumed to be the same as `getPasswordByUsername`'s. Its test checks only the InvariantError class. In a login this error cannot occur, because the password lookup for the same username has already succeeded.
- JWT expiry. The library's verify checks signatures and no `exp` claim is set, so expiry never applies.
