/** The credential store operations of database.py: `authenticate_user` and
    `create_new_user`. Hashing and verification are uninterpreted parameters. */
module Users {
  import opened Wrappers
  import opened Models

  /** `verify_password(plain, hashed)`. */
  type Verifier = (string, string) -> bool
  /** `get_password_hash(plain)`; its random salt is whatever this function returns. */
  type Hasher = string -> string

  /** `authenticate_user`: the row for `username` when it exists and the password
      verifies against its hash; `None` (Python's `False`) otherwise. */
  function AuthenticateUser(store: Store, verify: Verifier, username: string, password: string): (r: Option<UserRecord>)
    ensures r.Some? <==> username in store && verify(password, store[username].hashedPassword)
    ensures r.Some? ==> r.value == store[username]
  {
    if username !in store then None
    else
      var user := store[username];
      if !verify(password, user.hashedPassword) then None
      else Some(user)
  }

  /** The verifier is consulted only for an existing user: for an unknown
      username every verifier gives the same answer. */
  lemma UnknownUserNeedsNoVerifier(store: Store, v1: Verifier, v2: Verifier, username: string, p1: string, p2: string)
    requires username !in store
    ensures AuthenticateUser(store, v1, username, p1) == AuthenticateUser(store, v2, username, p2) == None
  {
  }

  /** "No such user" and "wrong password" are the same failure value. */
  lemma FailuresIndistinguishable(store: Store, verify: Verifier, unknown: string, anyPassword: string, known: string, wrong: string)
    requires unknown !in store
    requires known in store && !verify(wrong, store[known].hashedPassword)
    ensures AuthenticateUser(store, verify, unknown, anyPassword) == AuthenticateUser(store, verify, known, wrong)
  {
  }

  /** Some row already holds `email`. */
  predicate EmailTaken(store: Store, email: string)
  {
    exists u :: u in store && store[u].email == Some(email)
  }

  /** The public view of a row. */
  function ToUser(rec: UserRecord): User
  {
    User(rec.username, rec.email, rec.fullName, rec.disabled)
  }

  /** `create_new_user`: insert an enabled row with the hashed password and echo
      it back as a `User`. A duplicate username or email violates the table's
      unique constraints; the resulting database error is not handled. */
  function CreateNewUser(store: Store, hash: Hasher, user: UserIn): (r: Result<(Store, User), Fault>)
    ensures r.Failure? <==> user.username in store || EmailTaken(store, user.email)
    ensures r.Failure? ==> r.error == Uncaught(UniqueViolation)
    ensures r.Success? ==> r.value.0.Keys == store.Keys + {user.username}
    ensures r.Success? ==> forall u :: u in store ==> r.value.0[u] == store[u]
    ensures r.Success? ==> r.value.0[user.username]
                             == UserRecord(user.username, Some(user.email), Some(user.fullName), Some(false), hash(user.password))
    ensures r.Success? ==> r.value.1 == User(user.username, Some(user.email), Some(user.fullName), Some(false))
  {
    if user.username in store || EmailTaken(store, user.email) then Failure(Uncaught(UniqueViolation))
    else
      var row := UserRecord(user.username, Some(user.email), Some(user.fullName), Some(false), hash(user.password));
      Success((store[user.username := row], ToUser(row)))
  }

  /** Registration keeps the table well keyed. */
  lemma CreatePreservesWellKeyed(store: Store, hash: Hasher, user: UserIn)
    requires WellKeyed(store)
    requires CreateNewUser(store, hash, user).Success?
    ensures WellKeyed(CreateNewUser(store, hash, user).value.0)
  {
  }

  /** Register then log in: with a verifier that accepts a password against its
      own hash, the new credentials authenticate to the new row, which is enabled. */
  lemma RegisterThenAuthenticate(store: Store, hash: Hasher, verify: Verifier, user: UserIn)
    requires CreateNewUser(store, hash, user).Success?
    requires verify(user.password, hash(user.password))
    ensures var store' := CreateNewUser(store, hash, user).value.0;
            && AuthenticateUser(store', verify, user.username, user.password).Some?
            && !IsDisabled(AuthenticateUser(store', verify, user.username, user.password).value)
  {
  }
}
