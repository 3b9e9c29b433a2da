/** Claim-set construction and token issuance (auth.py). The clock reading
    `now` and the JWT encoder are parameters; time is whole seconds. */
module Tokens {
  import opened Models
  import opened Wrappers

  const Algorithm := "HS256"
  const AccessTokenExpireMinutes := 30
  const RefreshTokenExpireDays := 7

  /** An uninterpreted JWT encoder: claims, secret and algorithm name to a token. */
  type Encoder = (Claims, string, string) -> Token

  /** The expiry instant of an access token. `delta` is the optional
      `expires_delta` in seconds; like a zero `timedelta`, `Some(0)` is falsy. */
  function AccessExpiry(now: int, delta: Option<int>): (exp: int)
    ensures delta.Some? && delta.value != 0 ==> exp == now + delta.value
    ensures delta == None || delta == Some(0) ==> exp == now + 30 * 60
  {
    match delta
    case Some(d) => if d != 0 then now + d else now + AccessTokenExpireMinutes * 60
    case None => now + AccessTokenExpireMinutes * 60
  }

  /** The claims of an access token: the caller's claims with `exp` set. */
  function AccessClaims(data: Claims, now: int, delta: Option<int>): (c: Claims)
    ensures c.Keys == data.Keys + {"exp"}
    ensures forall k :: k in data && k != "exp" ==> c[k] == data[k]
    ensures c["exp"] == Num(AccessExpiry(now, delta))
  {
    data["exp" := Num(AccessExpiry(now, delta))]
  }

  /** The claims of a refresh token: the caller's claims with `exp` seven days
      ahead and `token_type` set to "refresh", both overriding the caller. */
  function RefreshClaims(data: Claims, now: int): (c: Claims)
    ensures c.Keys == data.Keys + {"exp", "token_type"}
    ensures forall k :: k in data && k != "exp" && k != "token_type" ==> c[k] == data[k]
    ensures c["exp"] == Num(now + 7 * 24 * 60 * 60)
    ensures c["token_type"] == Str("refresh")
  {
    data["exp" := Num(now + RefreshTokenExpireDays * 24 * 60 * 60)]["token_type" := Str("refresh")]
  }

  /** `create_access_token`: encodes the access claims with HS256 under `secret`. */
  function CreateAccessToken(encode: Encoder, secret: string, now: int, data: Claims, delta: Option<int>): (t: Token)
    ensures exists c: Claims ::
              && t == encode(c, secret, "HS256")
              && c.Keys == data.Keys + {"exp"}
              && (forall k :: k in data && k != "exp" ==> c[k] == data[k])
              && c["exp"] == Num(AccessExpiry(now, delta))
  {
    encode(AccessClaims(data, now, delta), secret, Algorithm)
  }

  /** `create_refresh_token`: encodes the refresh claims with HS256 under `secret`. */
  function CreateRefreshToken(encode: Encoder, secret: string, now: int, data: Claims): (t: Token)
    ensures exists c: Claims ::
              && t == encode(c, secret, "HS256")
              && c.Keys == data.Keys + {"exp", "token_type"}
              && (forall k :: k in data && k != "exp" && k != "token_type" ==> c[k] == data[k])
              && c["exp"] == Num(now + 604800)
              && c["token_type"] == Str("refresh")
  {
    encode(RefreshClaims(data, now), secret, Algorithm)
  }

  /** Removing `exp` from the access claims gives back exactly the caller's
      claims without `exp`: nothing else is added, dropped or altered. */
  lemma AccessClaimsRestore(data: Claims, now: int, delta: Option<int>)
    ensures AccessClaims(data, now, delta) - {"exp"} == data - {"exp"}
  {
  }

  /** Refresh claims are access claims with a seven-day delta plus the
      `token_type` marker. */
  lemma RefreshIsMarkedLongAccess(data: Claims, now: int)
    ensures RefreshClaims(data, now) == AccessClaims(data, now, Some(7 * 24 * 60 * 60))["token_type" := Str("refresh")]
  {
  }
}
