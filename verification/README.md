# Authentication core of api-la-control, in Dafny

A model of the authentication path of a small FastAPI service: how the
service builds the claim sets of its access and refresh tokens, how it
resolves a bearer token to a user row, how it checks a username/password
pair and answers a login, how it creates a user row, and how it rewrites
its `DATABASE_URL` setting at start-up.

Everything the service delegates to a library is a parameter of the model:
the JWT encoder (`Tokens.Encoder`) and decoder (`Session.Decoder`), the
password hasher and verifier (`Users.Hasher`, `Users.Verifier`), the clock
reading `now` (whole seconds), the signing secret, and the user table
(`Models.Store`, a map from username to row). With those fixed, every
operation is a pure function. In particular the caller's claim map is an
immutable value, so the source's `data.copy()` guarantee that the caller's
dictionary is left alone holds by construction.

Modules:

- `Wrappers` — `Option` and `Result`.
- `Text` — the Python string operations the URL rewrite uses: `startswith`,
  `in` and `replace(old, new, 1)`, each specified against an occurrence
  predicate. `Find` is the first-occurrence search underlying `in` and
  `replace`; the service never calls `str.find` itself.
- `DatabaseUrl` — the module-level code of `database.py`, lifted into
  `NormalizeDatabaseUrl`.
- `Models` — the records of `models.py`, the claim values, the error
  taxonomy and the shapes of the HTTP errors.
- `Tokens` — `create_access_token` and `create_refresh_token`.
- `Session` — `get_current_user` and `get_current_active_user`.
- `Users` — `authenticate_user` and `create_new_user`.
- `Api` — the `/token` and `/users/me/` handlers.

The error taxonomy `ErrorType` is imported by `auth.py` but its definition
is not part of this model; it is a closed datatype with the two variants the
code uses, `ExpiredToken` and `UserDoesNotExist`, and an error detail carries
the variant itself instead of its (unknown) numeric code and message.

The model follows the code: there is no refresh endpoint, resolution never looks
at `token_type` (a refresh token opens protected routes like an access
token), login returns a plain-text 401 and issues only an access token, and
no "user already exists" answer exists (a duplicate row is an unhandled
database error).

## Model

| member | source | states |
|---|---|---|
| Text.StartsWith | database.py:15 | `startswith` holds exactly when the string is the prefix followed by some remainder |
| Text.FindFrom | database.py:16 | the search returns the first index at which the needle occurs, or reports that it occurs nowhere |
| Text.Find | database.py:16-19 | the first-occurrence search behind `in` and `replace(…, 1)` returns the lowest occurrence index, and returns none exactly when the needle occurs nowhere |
| Text.Contains | database.py:18-19 | Python's `in` on strings holds exactly when some occurrence exists |
| Text.ContainsChar | database.py:19 | for the one-character needle `"?"` the substring test is character membership |
| Text.FindPrefix | database.py:15-16 | when the string starts with the pattern, the first occurrence is at index 0 |
| Text.ReplaceFirst | database.py:16 | `replace(old, new, 1)` on a string starting with `old` swaps exactly that prefix and keeps the remainder; with no occurrence it changes nothing |
| DatabaseUrl.RewriteScheme | database.py:15-16 | a URL starting with `postgresql://` gets exactly that prefix replaced by `postgresql+psycopg://`; any other URL is untouched |
| DatabaseUrl.RequireSsl | database.py:18-20 | if `sslmode` occurs anywhere the URL is unchanged; otherwise `sslmode=require` is appended after `&` when the URL has a `?` and after `?` when not; the result always contains `sslmode` and extends the input |
| DatabaseUrl.AppendedRequirementHasKey | database.py:20 | the appended requirement supplies an occurrence of `sslmode` |
| DatabaseUrl.NormalizeDatabaseUrl | database.py:11-20 | a missing or empty setting is an error and yields no URL; every accepted setting yields a non-empty URL containing `sslmode` |
| DatabaseUrl.NoLegacyByAppending | database.py:19-20 | appending text that starts with `?` or `&` cannot make a URL start with `postgresql://` |
| DatabaseUrl.PsycopgIsNotLegacy | database.py:16 | a URL with the psycopg scheme does not start with `postgresql://` |
| DatabaseUrl.NormalizedNotLegacy | database.py:15-20 | a normalised URL never starts with `postgresql://` |
| DatabaseUrl.NormalizeIdempotent | database.py:15-20 | normalising an already normalised URL returns it unchanged |
| DatabaseUrl.ExplicitSslModeKept | database.py:15-18 | a URL that already mentions `sslmode` and does not use the legacy scheme is accepted verbatim |
| Tokens.AccessExpiry | auth.py:17-27 | a non-zero delta gives `exp = now + delta`; an absent or zero delta gives `exp = now + 30 minutes` |
| Tokens.AccessClaims | auth.py:22-28 | access claims keep every caller key except `exp`, add only `exp`, and set it to the access expiry |
| Tokens.RefreshClaims | auth.py:32-35 | refresh claims keep every other caller key, add only `exp` and `token_type`, and set them to `now + 7 days` and `"refresh"`, overriding the caller |
| Tokens.CreateAccessToken | auth.py:22-30 | the token is the HS256 encoding, under the secret, of a claim set holding the caller's keys plus `exp`, every caller value other than `exp` kept, and `exp` the access expiry |
| Tokens.CreateRefreshToken | auth.py:32-37 | the token is the HS256 encoding, under the secret, of a claim set holding the caller's keys plus `exp` and `token_type`, every other caller value kept, `exp = now + 604800` seconds and `token_type = "refresh"` |
| Tokens.AccessClaimsRestore | auth.py:23-28 | removing `exp` from the access claims gives back the caller's claims without `exp` |
| Tokens.RefreshIsMarkedLongAccess | auth.py:22-35 | refresh claims are the access claims for a 7-day delta plus `token_type = "refresh"` |
| Session.GetCurrentUser | auth.py:39-75 | any decoder failure gives the 401 expired-token error with the Bearer challenge; an absent or null `sub` gives the 401 unknown-user error, not the expired-token one; a string `sub` naming no row gives the 401 unknown-user error; a non-string `sub` escapes uncaught; the result is a user exactly when `sub` is a string naming a row, and then it is that row; every raised error is a 401 with the Bearer challenge |
| Models.IsDisabled | auth.py:78 | an account counts as disabled exactly when its nullable `disabled` column is neither null nor false (Python truthiness) |
| Session.GetCurrentActiveUser | auth.py:77-80 | a disabled user gets 400 "Inactive user" without the challenge; any other user (including a null `disabled`) is returned unchanged |
| Session.ResolveActiveUser | auth.py:77-80 | a resolution failure passes through unchanged; a resolved, disabled user gets 400 "Inactive user" without the Bearer challenge; otherwise the result is the resolved user |
| Session.ResolutionDependsOnlyOnSubject | auth.py:65-75 | two tokens whose payloads agree on `sub` resolve to the same outcome |
| Session.TokenTypeIgnored | auth.py:65-69 | adding or changing `token_type` in a payload does not change resolution |
| Session.ResolvedUserIsSubject | auth.py:66-75 | on a well-keyed table the resolved row's username is the token's `sub` |
| Users.AuthenticateUser | database.py:56-62 | the result is a row exactly when the username exists and the password verifies against its hash, and then it is that row |
| Users.UnknownUserNeedsNoVerifier | database.py:57-59 | for an unknown username the verifier is never consulted: every verifier gives the same failure |
| Users.FailuresIndistinguishable | database.py:58-61 | "no such user" and "wrong password" are the same failure value |
| Users.CreateNewUser | database.py:43-54 | a duplicate username or email is an unhandled database error; otherwise exactly one row is added, every other row is unchanged, the new row is enabled with the hashed password, and the echoed `User` repeats username, email and full name with `disabled = false` |
| Users.CreatePreservesWellKeyed | database.py:43-53 | creating a user keeps every row filed under its own username |
| Users.RegisterThenAuthenticate | database.py:43-62 | when the verifier accepts a password against its own hash, the newly registered credentials authenticate to an enabled row |
| Api.LoginForAccessToken | main.py:14-27 | login fails exactly when authentication fails, and then with 401 "Incorrect username or password" and the Bearer challenge; on success the response has type `bearer` and its access token encodes exactly `{sub: username, exp: now + 30 minutes}` |
| Api.ReadUsersMe | main.py:29-31 | `/users/me/` returns the active-user result unchanged: a resolution failure as is, 400 "Inactive user" for a resolved, disabled user, and otherwise the resolved user |
| Api.LoginEnumerationResistant | main.py:16-22 | an unknown user and a wrong password give identical login responses, both failures |
| Api.LoginIssuesAccessOnly | main.py:23-27 | the login token signs only `sub` and `exp`, with the 30-minute lifetime: no refresh token is issued |
| Api.LoginThenReadMe | main.py:14-31 | with a decoder that inverts the encoder, the token of a successful login opens `/users/me/` for the same, enabled row |
| Api.RefreshTokenActsAsAccess | auth.py:32-75 | with a decoder that inverts the encoder, a refresh token resolves to the same user as an access token for the same caller claims |

## Left out

- JWT encoding and decoding (signature computation, base64url segments, expiry checking inside the decoder): the encoder and decoder are uninterpreted parameters, so signature integrity and expiry enforcement are not modelled.
- Password hashing and verification: uninterpreted parameters; salting, randomness and constant-time comparison are not modelled.
- The SQL layer (`create_engine`, `SessionLocal`, `get_db`, the `get_user` query, `add`/`commit`/`refresh`): the table is a map keyed by username, and a unique-constraint violation is the `Uncaught(UniqueViolation)` outcome.
- Environment loading (`load_dotenv`, `os.getenv`) and the `SECRET_KEY` setting: the URL setting and the secret are parameters.
- FastAPI routing, `Depends`, async execution, the `OAuth2PasswordBearer` header extraction, the `/` liveness route, the `POST /users/` route and the `response_model` field filtering: framework wiring.
- Sub-second precision of `datetime` and `timedelta`: times and deltas are whole seconds.
- Tokens.AccessExpiry: in the source, an expiry instant outside the range of `datetime` (years 1 to 9999) raises `OverflowError`; the model's unbounded integers return `now + delta` instead. The only caller of the access rule passes 30 minutes.
- Tokens.RefreshClaims: likewise, `now + 7 days` beyond the year 9999 raises `OverflowError` in the source and is not modelled as a failure.
- Users.AuthenticateUser: rows whose nullable `hashed_password` column is NULL are not modelled; for such a row the source hands `None` to the password verifier, whose failure would end the login with an unhandled error (500) instead of the 401.
- The numeric codes and messages of `ErrorType`: their definition is not part of this model.
- Session.GetCurrentUser: whether a non-string `sub` is rejected by the decoder (newer JWT libraries do, giving the expired-token error) or by `TokenData` validation (an uncaught error) depends on library versions; the model sends it to the uncaught outcome when the decoder lets it through.
