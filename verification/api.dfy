/** The two request handlers of main.py that involve authentication:
    `POST /token` and `GET /users/me/`. */
module Api {
  import opened Wrappers
  import opened Models
  import opened Tokens
  import opened Session
  import opened Users

  /** The 401 raised for a failed login, whichever check failed. */
  const LoginRejected := HttpError(Unauthorized, Plain("Incorrect username or password"), true)

  /** `login_for_access_token`: authenticate, then issue one bearer access token
      whose subject is the user's name and whose lifetime is the 30-minute default. */
  function LoginForAccessToken(store: Store, verify: Verifier, encode: Encoder, secret: string, now: int,
                               username: string, password: string): (r: Result<TokenResponse, Fault>)
    ensures r.Failure? <==> AuthenticateUser(store, verify, username, password).None?
    ensures r.Failure? ==> r.error == Raised(HttpError(401, Plain("Incorrect username or password"), true))
    ensures r.Success? ==> r.value.tokenType == "bearer"
    ensures r.Success? ==> r.value.accessToken
                             == encode(map["sub" := Str(store[username].username), "exp" := Num(now + 30 * 60)], secret, "HS256")
  {
    match AuthenticateUser(store, verify, username, password)
    case None => Failure(Raised(LoginRejected))
    case Some(user) =>
      var claims := map["sub" := Str(user.username)];
      assert AccessClaims(claims, now, Some(AccessTokenExpireMinutes * 60))
             == map["sub" := Str(user.username), "exp" := Num(now + 30 * 60)];
      var accessToken := CreateAccessToken(encode, secret, now, claims, Some(AccessTokenExpireMinutes * 60));
      Success(TokenResponse(accessToken, "bearer"))
  }

  /** `read_users_me`: the active-user dependency's result, returned as is. */
  function ReadUsersMe(decode: Decoder, store: Store, token: Token): (r: Result<UserRecord, Fault>)
    ensures r.Success? <==> GetCurrentUser(decode, store, token).Success? && !IsDisabled(GetCurrentUser(decode, store, token).value)
    ensures r.Success? ==> r.value == GetCurrentUser(decode, store, token).value
    ensures GetCurrentUser(decode, store, token).Failure? ==> r == GetCurrentUser(decode, store, token)
    ensures GetCurrentUser(decode, store, token).Success? && IsDisabled(GetCurrentUser(decode, store, token).value)
            ==> r == Failure(Raised(HttpError(400, Plain("Inactive user"), false)))
  {
    ResolveActiveUser(decode, store, token)
  }

  /** An unknown user and a known user with a wrong password get the very same answer. */
  lemma LoginEnumerationResistant(store: Store, verify: Verifier, encode: Encoder, secret: string, now: int,
                                  unknown: string, anyPassword: string, known: string, wrong: string)
    requires unknown !in store
    requires known in store && !verify(wrong, store[known].hashedPassword)
    ensures LoginForAccessToken(store, verify, encode, secret, now, unknown, anyPassword)
         == LoginForAccessToken(store, verify, encode, secret, now, known, wrong)
    ensures LoginForAccessToken(store, verify, encode, secret, now, unknown, anyPassword).Failure?
  {
  }

  /** Login issues no refresh token: the claims it signs have no `token_type`
      and expire after 30 minutes, never after the refresh lifetime. */
  lemma LoginIssuesAccessOnly(store: Store, verify: Verifier, encode: Encoder, secret: string, now: int,
                              username: string, password: string)
    requires LoginForAccessToken(store, verify, encode, secret, now, username, password).Success?
    ensures exists c: Claims ::
              && LoginForAccessToken(store, verify, encode, secret, now, username, password).value.accessToken
                 == encode(c, secret, Algorithm)
              && c.Keys == {"sub", "exp"}
              && c["exp"] == Num(now + AccessTokenExpireMinutes * 60)
  {
  }

  /** End to end: with a decoder that inverts the encoder on the issued claims, the
      token from a successful login opens `/users/me/` for that same row, provided
      the account is enabled. */
  lemma LoginThenReadMe(store: Store, verify: Verifier, encode: Encoder, decode: Decoder,
                        secret: string, now: int, username: string, password: string)
    requires WellKeyed(store)
    requires LoginForAccessToken(store, verify, encode, secret, now, username, password).Success?
    requires var c := map["sub" := Str(username), "exp" := Num(now + 30 * 60)];
             decode(encode(c, secret, "HS256")) == Success(c)
    requires !IsDisabled(store[username])
    ensures ReadUsersMe(decode, store, LoginForAccessToken(store, verify, encode, secret, now, username, password).value.accessToken)
         == Success(store[username])
  {
  }

  /** A refresh token is not told apart from an access token: given a decoder that
      inverts the encoder, a refresh token resolves to exactly the user an access
      token for the same caller claims resolves to. */
  lemma RefreshTokenActsAsAccess(encode: Encoder, decode: Decoder, store: Store, secret: string,
                                 now: int, data: Claims, delta: Option<int>)
    requires decode(CreateRefreshToken(encode, secret, now, data)) == Success(RefreshClaims(data, now))
    requires decode(CreateAccessToken(encode, secret, now, data, delta)) == Success(AccessClaims(data, now, delta))
    ensures GetCurrentUser(decode, store, CreateRefreshToken(encode, secret, now, data))
         == GetCurrentUser(decode, store, CreateAccessToken(encode, secret, now, data, delta))
  {
  }
}
