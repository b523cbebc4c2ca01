/** The UserLogin entity: the validated username and password of a login
    payload. */
module UserLogin {
  import opened Results
  import opened JsValues

  datatype UserLogin = UserLogin(username: JsString, password: JsString)

  /** Every constructed UserLogin holds two non-empty strings. */
  predicate Valid(login: UserLogin) {
    !IsEmpty(login.username) && !IsEmpty(login.password)
  }

  /** _verifyPayload: the missing-property check (`!username || !password`)
      comes first, the type check second. */
  function VerifyPayload(payload: Payload): (r: Result<()>)
    ensures r.Ok? <==> IsNonEmptyString(Prop(payload, "username")) && IsNonEmptyString(Prop(payload, "password"))
    ensures r == Err(PayloadError(UserLoginMissingProperty)) <==>
      (Prop(payload, "username") in Falsy || Prop(payload, "password") in Falsy)
    ensures r.Err? ==> r.error in {PayloadError(UserLoginMissingProperty), PayloadError(UserLoginWrongType)}
  {
    var username := Prop(payload, "username");
    var password := Prop(payload, "password");
    if !Truthy(username) || !Truthy(password) then
      Err(PayloadError(UserLoginMissingProperty))
    else if TypeOf(username) != "string" || TypeOf(password) != "string" then
      Err(PayloadError(UserLoginWrongType))
    else
      Ok(())
  }

  /** The constructor: validate, then copy both fields unchanged. */
  function New(payload: Payload): (r: Result<UserLogin>)
    ensures r.Ok? <==> VerifyPayload(payload).Ok?
    ensures r.Err? ==> r.error == VerifyPayload(payload).error
    ensures r.Ok? ==> Str(r.value.username) == Prop(payload, "username")
    ensures r.Ok? ==> Str(r.value.password) == Prop(payload, "password")
    ensures r.Ok? ==> Valid(r.value)
  {
    var _ :- VerifyPayload(payload);
    Ok(UserLogin(Prop(payload, "username").s, Prop(payload, "password").s))
  }

  /** Two truthy fields of which one is not a string give the type error. */
  lemma WrongTypeAfterPresence(payload: Payload)
    requires Truthy(Prop(payload, "username")) && Truthy(Prop(payload, "password"))
    requires !Prop(payload, "username").Str? || !Prop(payload, "password").Str?
    ensures New(payload) == Err(PayloadError(UserLoginWrongType))
  {
  }

  /** A missing field wins over a wrongly typed one. */
  lemma MissingBeforeWrongType(payload: Payload)
    requires !Truthy(Prop(payload, "username")) || !Truthy(Prop(payload, "password"))
    ensures New(payload) == Err(PayloadError(UserLoginMissingProperty))
  {
  }

  /** An empty string counts as missing, not as a wrong type. */
  lemma EmptyStringIsMissing(payload: Payload)
    requires Prop(payload, "username") == Str(Plain("")) || Prop(payload, "password") == Str(Plain(""))
    ensures New(payload) == Err(PayloadError(UserLoginMissingProperty))
  {
  }
}
