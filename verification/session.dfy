/** Resolving a bearer token to a user (auth.py `get_current_user` and
    `get_current_active_user`). The JWT decoder and the user table are parameters. */
module Session {
  import opened Wrappers
  import opened Models

  /** The PyJWTError family the decoder may raise: expiry, signature and
      format failures all land here. */
  datatype JwtError = ExpiredSignature | InvalidSignature | MalformedToken | InvalidClaim

  /** An uninterpreted decoder that already checks signature and expiry. */
  type Decoder = Token -> Result<Claims, JwtError>

  /** The 401 raised for any decoding failure. */
  const ExpiredTokenError := HttpError(Unauthorized, Coded(ExpiredToken), true)
  /** The 401 raised for a missing subject or an unknown user. */
  const UnknownUserError := HttpError(Unauthorized, Coded(UserDoesNotExist), true)
  /** The 400 raised for a disabled account. */
  const InactiveUserError := HttpError(BadRequest, Plain("Inactive user"), false)

  /** `get_current_user`: decode, read `sub`, look the user up. A `sub` that is
      absent or null raises the unknown-user error, which is not a PyJWTError and so
      is not turned into the expired-token error. A `sub` of another JSON type fails
      validation of `TokenData` and escapes uncaught. */
  function GetCurrentUser(decode: Decoder, store: Store, token: Token): (r: Result<UserRecord, Fault>)
    ensures decode(token).Failure? ==> r == Failure(Raised(ExpiredTokenError))
    ensures decode(token).Success? && ("sub" !in decode(token).value || decode(token).value["sub"] == Null)
            ==> r == Failure(Raised(UnknownUserError))
    ensures decode(token).Success? && "sub" in decode(token).value
            && decode(token).value["sub"] != Null && !decode(token).value["sub"].Str?
            ==> r == Failure(Uncaught(SubjectNotString))
    ensures decode(token).Success? && "sub" in decode(token).value && decode(token).value["sub"].Str?
            && decode(token).value["sub"].text !in store
            ==> r == Failure(Raised(UnknownUserError))
    ensures r.Success? <==>
              && decode(token).Success?
              && "sub" in decode(token).value
              && decode(token).value["sub"].Str?
              && decode(token).value["sub"].text in store
    ensures r.Success? ==> r.value == store[decode(token).value["sub"].text]
    ensures r.Failure? && r.error.Raised? ==> r.error.http.status == 401 && r.error.http.bearerChallenge
  {
    match decode(token)
    case Failure(_) => Failure(Raised(ExpiredTokenError))
    case Success(payload) =>
      if "sub" !in payload || payload["sub"] == Null then Failure(Raised(UnknownUserError))
      else if !payload["sub"].Str? then Failure(Uncaught(SubjectNotString))
      else
        var username := payload["sub"].text;
        if username !in store then Failure(Raised(UnknownUserError))
        else Success(store[username])
  }

  /** `get_current_active_user`: a disabled user is refused with 400, any other
      user passes through untouched. */
  function GetCurrentActiveUser(current: UserRecord): (r: Result<UserRecord, Fault>)
    ensures r.Success? <==> current.disabled != Some(true)
    ensures r.Success? ==> r.value == current
    ensures r.Failure? ==> r.error == Raised(HttpError(400, Plain("Inactive user"), false))
  {
    if IsDisabled(current) then Failure(Raised(InactiveUserError)) else Success(current)
  }

  /** The dependency chain of a protected route: resolve the user, then require
      that the account is active. */
  function ResolveActiveUser(decode: Decoder, store: Store, token: Token): (r: Result<UserRecord, Fault>)
    ensures GetCurrentUser(decode, store, token).Failure? ==> r == GetCurrentUser(decode, store, token)
    ensures r.Success? <==> GetCurrentUser(decode, store, token).Success? && !IsDisabled(GetCurrentUser(decode, store, token).value)
    ensures r.Success? ==> r.value == GetCurrentUser(decode, store, token).value
    ensures GetCurrentUser(decode, store, token).Success? && IsDisabled(GetCurrentUser(decode, store, token).value)
            ==> r == Failure(Raised(HttpError(400, Plain("Inactive user"), false)))
  {
    match GetCurrentUser(decode, store, token)
    case Failure(e) => Failure(e)
    case Success(user) => GetCurrentActiveUser(user)
  }

  /** Resolution depends on the decoded subject alone: two tokens whose payloads
      agree on `sub` resolve identically, whatever else (`token_type`, `exp`, ...)
      the payloads carry. */
  lemma ResolutionDependsOnlyOnSubject(decode: Decoder, store: Store, t1: Token, t2: Token)
    requires decode(t1).Success? && decode(t2).Success?
    requires ("sub" in decode(t1).value) == ("sub" in decode(t2).value)
    requires "sub" in decode(t1).value ==> decode(t1).value["sub"] == decode(t2).value["sub"]
    ensures GetCurrentUser(decode, store, t1) == GetCurrentUser(decode, store, t2)
  {
  }

  /** In particular a `token_type` claim has no influence on resolution. */
  lemma TokenTypeIgnored(decode: Decoder, store: Store, t1: Token, t2: Token, kind: Value)
    requires decode(t1).Success?
    requires decode(t2) == Success(decode(t1).value["token_type" := kind])
    ensures GetCurrentUser(decode, store, t1) == GetCurrentUser(decode, store, t2)
  {
  }

  /** On a well-keyed table, a resolved user is the one the token names. */
  lemma ResolvedUserIsSubject(decode: Decoder, store: Store, token: Token)
    requires WellKeyed(store)
    requires GetCurrentUser(decode, store, token).Success?
    ensures decode(token).Success? && decode(token).value["sub"] == Str(GetCurrentUser(decode, store, token).value.username)
  {
  }
}
