/** The user repository, reduced to the two lookups login uses. */
module UserRepository {
  import opened Results
  import opened JsValues

  /** What the users table holds for one username. */
  datatype UserRecord = UserRecord(passwordHash: JsString, id: JsString)

  type Users = map<JsString, UserRecord>

  /** getPasswordByUsername: the stored hash, or InvariantError for an
      unknown username. */
  function GetPasswordByUsername(users: Users, username: JsString): (r: Result<JsString>)
    ensures r.Ok? <==> username in users
    ensures r.Ok? ==> r.value == users[username].passwordHash
    ensures r.Err? ==> r.error == InvariantError(UsernameNotFound)
  {
    if username in users then Ok(users[username].passwordHash)
    else Err(InvariantError(UsernameNotFound))
  }

  /** getIdByUsername: the stored id, or InvariantError for an unknown
      username. */
  function GetIdByUsername(users: Users, username: JsString): (r: Result<JsString>)
    ensures r.Ok? <==> username in users
    ensures r.Ok? ==> r.value == users[username].id
    ensures r.Err? ==> r.error == InvariantError(UsernameNotFound)
  {
    if username in users then Ok(users[username].id)
    else Err(InvariantError(UsernameNotFound))
  }
}
