/** The refresh use case: exchange a registered refresh token for a new
    access token. It only reads the store, so it returns no new store. */
module RefreshAuthenticationUseCase {
  import opened Results
  import opened JsValues
  import opened JwtTokenManager
  import opened AuthenticationRepository

  /** _verifyPayload: the refresh token must be truthy, then a string. */
  function VerifyPayload(payload: Payload): (r: Result<JsString>)
    ensures r.Ok? <==> IsNonEmptyString(Prop(payload, "refreshToken"))
    ensures r.Ok? ==> Str(r.value) == Prop(payload, "refreshToken")
    ensures r == Err(PayloadError(RefreshMissingToken)) <==> Prop(payload, "refreshToken") in Falsy
    ensures r.Err? ==> r.error in {PayloadError(RefreshMissingToken), PayloadError(RefreshWrongType)}
  {
    var refreshToken := Prop(payload, "refreshToken");
    if !Truthy(refreshToken) then
      Err(PayloadError(RefreshMissingToken))
    else if TypeOf(refreshToken) != "string" then
      Err(PayloadError(RefreshWrongType))
    else
      Ok(refreshToken.s)
  }

  /** execute: shape, then signature, then store membership, then a new
      access token for the identity the refresh token carries. */
  function Execute(keys: Keys, store: Store, now: int, payload: Payload): (r: Result<JsString>)
    ensures r.Ok? <==>
      && IsNonEmptyString(Prop(payload, "refreshToken"))
      && Prop(payload, "refreshToken").s.Signed?
      && Prop(payload, "refreshToken").s.key == keys.refresh
      && Prop(payload, "refreshToken").s in store
    // shape errors come before any collaborator is consulted
    ensures VerifyPayload(payload).Err? ==> r == Err(VerifyPayload(payload).error)
    // a badly signed token is rejected even when it is registered
    ensures VerifyPayload(payload).Ok? && VerifyRefreshToken(keys, VerifyPayload(payload).value).Err? ==>
      r == Err(InvariantError(InvalidRefreshToken))
    ensures (VerifyPayload(payload).Ok? && VerifyRefreshToken(keys, VerifyPayload(payload).value).Ok?
             && VerifyPayload(payload).value !in store) ==>
      r == Err(InvariantError(RefreshTokenNotFound))
    // the new access token carries the identity decoded from the refresh token
    ensures r.Ok? ==>
      Decode(r.value) == Ok(Artifacts(Claims(Prop(payload, "refreshToken").s.payload, now), keys.access))
  {
    var refreshToken :- VerifyPayload(payload);
    var _ :- VerifyRefreshToken(keys, refreshToken);
    var _ :- ValidateToken(store, refreshToken);
    match DecodePayload(refreshToken)
    case Err(e) => Err(e)
    case Ok(claims) =>
      // `const { username, id } = ...` keeps the identity and drops the old iat
      Ok(CreateAccessToken(keys, Identity(claims.identity.username, claims.identity.id), now))
  }
}
