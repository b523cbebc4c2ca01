/** The token manager: mints access and refresh tokens from an identity,
    verifies a refresh token and reads the payload of any token. The JWT
    library itself is abstract: a token is `Signed(payload, key, iat)`. */
module JwtTokenManager {
  import opened Results
  import opened JsValues

  /** The two secrets read from ACCESS_TOKEN_KEY and REFRESH_TOKEN_KEY. */
  datatype Keys = Keys(access: string, refresh: string)

  /** The two trust domains are distinct only if the two secrets are. */
  predicate Separated(keys: Keys) {
    keys.access != keys.refresh
  }

  /** The payload jwt.decode exposes: the identity plus the `iat` claim. */
  datatype Claims = Claims(identity: Identity, issuedAt: int)

  /** What jwt.decode returns: the decoded payload and the signing key the
      signature can be checked against. */
  datatype Artifacts = Artifacts(claims: Claims, signedWith: string)

  /** jwt.decode: parses the token structure, throwing on a non-JWT string. */
  function Decode(token: JsString): (r: Result<Artifacts>)
    ensures r.Ok? <==> token.Signed?
    ensures r.Err? ==> r.error == MalformedToken
  {
    match token
    case Plain(_) => Err(MalformedToken)
    case Signed(payload, key, iat) => Ok(Artifacts(Claims(payload, iat), key))
  }

  /** jwt.verify: the signature checks out against `key` alone. */
  function Verify(artifacts: Artifacts, key: string): (r: Result<()>)
    ensures r.Ok? <==> artifacts.signedWith == key
    ensures r.Err? ==> r.error == SignatureMismatch
  {
    if artifacts.signedWith == key then Ok(()) else Err(SignatureMismatch)
  }

  /** jwt.generate(payload, key) at time `now` (in seconds). */
  function Generate(payload: Identity, key: string, now: int): JsString {
    Signed(payload, key, now)
  }

  /** createAccessToken: signs the identity with the access key. */
  function CreateAccessToken(keys: Keys, payload: Identity, now: int): (token: JsString)
    ensures Decode(token) == Ok(Artifacts(Claims(payload, now), keys.access))
    ensures !IsEmpty(token)
  {
    Generate(payload, keys.access, now)
  }

  /** createRefreshToken: signs the identity with the refresh key. */
  function CreateRefreshToken(keys: Keys, payload: Identity, now: int): (token: JsString)
    ensures Decode(token) == Ok(Artifacts(Claims(payload, now), keys.refresh))
    ensures !IsEmpty(token)
  {
    Generate(payload, keys.refresh, now)
  }

  /** verifyRefreshToken: decode then verify against the refresh key; every
      failure of either step is rethrown as one InvariantError. */
  function VerifyRefreshToken(keys: Keys, token: JsString): (r: Result<()>)
    ensures r.Ok? <==> token.Signed? && token.key == keys.refresh
    ensures r.Err? ==> r.error == InvariantError(InvalidRefreshToken)
  {
    var verified :=
      match Decode(token)
      case Err(e) => Err(e)
      case Ok(artifacts) => Verify(artifacts, keys.refresh);
    if verified.Err? then Err(InvariantError(InvalidRefreshToken)) else Ok(())
  }

  /** decodePayload: the claims of any well-formed token, whatever key
      signed it; the signature is not checked. */
  function DecodePayload(token: JsString): (r: Result<Claims>)
    ensures r.Ok? <==> Decode(token).Ok?
    ensures r.Ok? ==> r.value == Decode(token).value.claims
    ensures r.Err? ==> r.error == MalformedToken
  {
    var artifacts :- Decode(token);
    Ok(artifacts.claims)
  }

  /** Every token createRefreshToken mints passes verifyRefreshToken. */
  lemma RefreshTokensVerify(keys: Keys, payload: Identity, now: int)
    ensures VerifyRefreshToken(keys, CreateRefreshToken(keys, payload, now)).Ok?
  {
  }

  /** An access token passes verifyRefreshToken exactly when the two
      secrets coincide: with distinct secrets key confusion is impossible. */
  lemma AccessTokensRejected(keys: Keys, payload: Identity, now: int)
    ensures VerifyRefreshToken(keys, CreateAccessToken(keys, payload, now)).Err? <==> Separated(keys)
    ensures Separated(keys) ==>
      VerifyRefreshToken(keys, CreateAccessToken(keys, payload, now)) == Err(InvariantError(InvalidRefreshToken))
  {
  }

  /** decodePayload inverts both token constructors. */
  lemma DecodePayloadRoundTrip(keys: Keys, payload: Identity, now: int)
    ensures DecodePayload(CreateAccessToken(keys, payload, now)) == Ok(Claims(payload, now))
    ensures DecodePayload(CreateRefreshToken(keys, payload, now)) == Ok(Claims(payload, now))
  {
  }

  /** decodePayload does not look at the key: a token signed with any key,
      known or not, yields the same claims. */
  lemma DecodePayloadIgnoresKey(payload: Identity, key1: string, key2: string, iat: int)
    ensures DecodePayload(Signed(payload, key1, iat)) == DecodePayload(Signed(payload, key2, iat))
    ensures DecodePayload(Signed(payload, key1, iat)).Ok?
  {
  }

  /** Access and refresh tokens minted from the same identity at the same
      time are different strings, provided the secrets are distinct. */
  lemma AccessAndRefreshTokensDiffer(keys: Keys, payload: Identity, now: int)
    requires Separated(keys)
    ensures CreateAccessToken(keys, payload, now) != CreateRefreshToken(keys, payload, now)
  {
  }
}
