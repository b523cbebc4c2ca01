/** The authentication repository: the table of refresh tokens that are
    currently registered. A token string is both key and value. */
module AuthenticationRepository {
  import opened Results
  import opened JsValues

  type Store = set<JsString>

  /** addToken: afterwards the token is registered; no other entry changes. */
  function AddToken(store: Store, token: JsString): (after: Store)
    ensures token in after
    ensures after - {token} == store - {token}
    ensures store <= after
  {
    store + {token}
  }

  /** validateToken: fails with InvariantError exactly when the token is not
      registered. */
  function ValidateToken(store: Store, token: JsString): (r: Result<()>)
    ensures r.Ok? <==> token in store
    ensures r.Err? ==> r.error == InvariantError(RefreshTokenNotFound)
  {
    if token in store then Ok(()) else Err(InvariantError(RefreshTokenNotFound))
  }

  /** deleteToken: afterwards the token is gone; no other entry changes. */
  function DeleteToken(store: Store, token: JsString): (after: Store)
    ensures token !in after
    ensures after + {token} == store + {token}
    ensures after <= store
  {
    store - {token}
  }

  /** A token just added validates, and deleting it then makes validation
      fail again. */
  lemma AddValidateDelete(store: Store, token: JsString)
    ensures ValidateToken(AddToken(store, token), token).Ok?
    ensures ValidateToken(DeleteToken(AddToken(store, token), token), token).Err?
  {
  }

  /** Deleting a token that was not registered before it was added gives
      back the original store. */
  lemma DeleteUndoesAdd(store: Store, token: JsString)
    requires token !in store
    ensures DeleteToken(AddToken(store, token), token) == store
  {
  }
}
