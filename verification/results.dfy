/** The failures the authentication core raises, and the result type every
    operation returns instead of throwing. */
module Results {

  /** The kinds of error a use case can end with. */
  datatype Error =
    | PayloadError(code: string)            // `new Error(CODE)` from a payload check
    | InvariantError(message: string)       // a 400-class domain error
    | AuthenticationError(message: string)  // a 401-class domain error
    | MalformedToken                        // jwt.decode on a string that is not a JWT
    | SignatureMismatch                     // jwt.verify with a key that did not sign the token

  const UserLoginMissingProperty := "USER_LOGIN.NOT_CONTAINS_NEEDED_PROPERTY"
  const UserLoginWrongType := "USER_LOGIN.NOT_MEET_DATA_TYPE_SPECIFICATION"
  const RefreshMissingToken := "REFRESH_AUTHENTICATION_USE_CASE.NOT_CONTAINS_REFRESH_TOKEN"
  const RefreshWrongType := "REFRESH_AUTHENTICATION_USE_CASE.NOT_MEET_DATA_TYPE_SPECIFICATION"
  const LogoutMissingToken := "LOGOUT_USER_USE_CASE.NOT_CONTAIN_REFRESH_TOKEN"
  const LogoutWrongType := "LOGOUT_USER_USE_CASE.NOT_MEET_DATA_TYPE_SPECIFICATION"

  const UsernameNotFound := "username tidak ditemukan"
  const WrongCredentials := "kredensial yang anda masukkan salah"
  const InvalidRefreshToken := "refresh token tidak valid"
  const RefreshTokenNotFound := "refresh token tidak ditemukan di database"

  /** Either the value an operation returns or the error it throws. */
  datatype Result<+T> = Ok(value: T) | Err(error: Error) {

    predicate IsFailure() {
      Err?
    }

    function PropagateFailure<U>(): Result<U>
      requires Err?
    {
      Err(error)
    }

    function Extract(): T
      requires Ok?
    {
      value
    }
  }

  /** What a use case that may write to a store returns: its result and
      the store afterwards. */
  datatype Reply<+T, +S> = Reply(result: Result<T>, store: S)
}
