/** The records of models.py and the shapes of the HTTP failures the handlers raise. */
module Models {
  import opened Wrappers

  /** A JSON value as it appears in a token's claim set. Instants (`exp`) are
      whole seconds since the epoch, which is how they travel inside a JWT. */
  datatype Value = Str(text: string) | Num(n: int) | Bool(b: bool) | Null

  /** A claim set: claim name to claim value, as in a Python dict. */
  type Claims = map<string, Value>

  /** An encoded token; its structure is the encoder's business. */
  type Token = string

  /** The service's error taxonomy. Only these two variants are used by the
      modelled code; their numeric codes and messages are left opaque. */
  datatype ErrorType = ExpiredToken | UserDoesNotExist

  /** The `detail` of an HTTPException: a coded error object or plain text. */
  datatype Detail = Coded(kind: ErrorType) | Plain(text: string)

  const Unauthorized := 401
  const BadRequest := 400

  /** A raised HTTPException: status, detail, and whether it carries the
      `WWW-Authenticate: Bearer` header. */
  datatype HttpError = HttpError(status: int, detail: Detail, bearerChallenge: bool)

  /** Exceptions nobody catches; the framework answers them with status 500. */
  datatype Cause = SubjectNotString | UniqueViolation

  /** Every way a handler can end without a value. */
  datatype Fault = Raised(http: HttpError) | Uncaught(cause: Cause)

  /** A row of the `users` table (`DBUser`). `email`, `full_name` and
      `disabled` are nullable columns; `hashed_password` is nullable too, but
      the model only holds rows with a hash (registration always stores one). */
  datatype UserRecord = UserRecord(
    username: string,
    email: Option<string>,
    fullName: Option<string>,
    disabled: Option<bool>,
    hashedPassword: string)

  /** The public `User` model: a row without its password hash. */
  datatype User = User(username: string, email: Option<string>, fullName: Option<string>, disabled: Option<bool>)

  /** The registration payload `UserIn` (its duplicated `password` field is one field). */
  datatype UserIn = UserIn(username: string, email: string, password: string, fullName: string)

  /** The `/token` response model. */
  datatype TokenResponse = TokenResponse(accessToken: Token, tokenType: string)

  /** The user table, looked up by username. */
  type Store = map<string, UserRecord>

  /** Each row is filed under its own username (the column is unique). */
  ghost predicate WellKeyed(store: Store)
  {
    forall u :: u in store ==> store[u].username == u
  }

  /** A disabled account; a null `disabled` column is falsy, so not disabled. */
  predicate IsDisabled(user: UserRecord)
    ensures IsDisabled(user) <==> user.disabled != None && user.disabled != Some(false)
  {
    match user.disabled
    case None => false
    case Some(flag) => flag
  }
}
