/** The password hasher, reduced to comparison. bcrypt is abstract: the
    caller supplies `matches(plain, hash)`. */
module PasswordHash {
  import opened Results
  import opened JsValues

  /** comparePassword(plain, hash): AuthenticationError when they do not
      match, which is a different kind from the lookup failures. */
  function ComparePassword(matches: (JsString, JsString) -> bool, plain: JsString, hash: JsString): (r: Result<()>)
    ensures r.Ok? <==> matches(plain, hash)
    ensures r.Err? ==> r.error == AuthenticationError(WrongCredentials)
    ensures r.Err? ==> r.error != InvariantError(UsernameNotFound)
  {
    if matches(plain, hash) then Ok(()) else Err(AuthenticationError(WrongCredentials))
  }
}
