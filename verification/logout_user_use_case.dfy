/** The logout use case: revoke a registered refresh token. It checks only
    the store, never the signature. */
module LogoutUserUseCase {
  import opened Results
  import opened JsValues
  import opened AuthenticationRepository

  /** _verifyPayload: the refresh token must be truthy, then a string. */
  function VerifyPayload(payload: Payload): (r: Result<JsString>)
    ensures r.Ok? <==> IsNonEmptyString(Prop(payload, "refreshToken"))
    ensures r.Ok? ==> Str(r.value) == Prop(payload, "refreshToken")
    ensures r == Err(PayloadError(LogoutMissingToken)) <==> Prop(payload, "refreshToken") in Falsy
    ensures r.Err? ==> r.error in {PayloadError(LogoutMissingToken), PayloadError(LogoutWrongType)}
  {
    var refreshToken := Prop(payload, "refreshToken");
    if !Truthy(refreshToken) then
      Err(PayloadError(LogoutMissingToken))
    else if TypeOf(refreshToken) != "string" then
      Err(PayloadError(LogoutWrongType))
    else
      Ok(refreshToken.s)
  }

  /** execute: validate the token against the store, then delete it. */
  function Execute(store: Store, payload: Payload): (r: Reply<(), Store>)
    ensures r.result.Ok? <==>
      IsNonEmptyString(Prop(payload, "refreshToken")) && Prop(payload, "refreshToken").s in store
    ensures r.result.Err? ==> r.store == store
    // on success exactly that one entry is removed
    ensures r.result.Ok? ==>
      && Prop(payload, "refreshToken").s !in r.store
      && r.store + {Prop(payload, "refreshToken").s} == store
    ensures VerifyPayload(payload).Err? ==> r.result == Err(VerifyPayload(payload).error)
    ensures VerifyPayload(payload).Ok? && VerifyPayload(payload).value !in store ==>
      r.result == Err(InvariantError(RefreshTokenNotFound))
  {
    match VerifyPayload(payload)
    case Err(e) => Reply(Err(e), store)
    case Ok(refreshToken) =>
      match ValidateToken(store, refreshToken)
      case Err(e) => Reply(Err(e), store)
      case Ok(_) => Reply(Ok(()), DeleteToken(store, refreshToken))
  }
}
