// Login, lockout and refresh tokens: backend/services/auth_service.py, the token-revoking calls of
// backend/services/user_service.py, and their repositories. bcrypt's verdict, the e-mail look-up and
// the random tokens are parameters.
module Auth {
  import opened Basics
  import opened HashCodec

  const MAX_FAILED_LOGIN_ATTEMPTS: nat := 5
  const LOCKOUT_SECONDS: real := 600.0

  /** failed_login_attempts is a SMALLINT; PostgreSQL refuses to count past its end. */
  const MAX_SMALLINT: nat := 32767
  type SmallInt = n: nat | n <= MAX_SMALLINT

  datatype User = User(failed: SmallInt, lockedUntil: Option<real>, isActive: bool)

  datatype Token = Token(user: nat, hash: Hash, isRevoked: bool, replacedBy: Option<nat>, expiresAt: real)

  /** Row `i` of a table has id `i`; a deleted token leaves a hole, so ids are never used again. */
  type TokenTable = seq<Option<Token>>

  datatype Store = Store(users: seq<User>, tokens: TokenTable)

  /** What the first login transaction hands to the second: the user as it was read then. */
  datatype Login = Login(user: nat, isActive: bool)

  datatype AuthError =
    | InvalidCredentials | AccountLocked | OwnershipViolation | UserNotFound
    | IntegrityError   // UNIQUE(token_hash) or the foreign key to users
    | DataError        // smallint out of range

  predicate Locked(u: User, now: real) {
    u.lockedUntil.Some? && u.lockedUntil.value > now
  }

  predicate Live(tokens: TokenTable, k: nat) {
    k < |tokens| && tokens[k].Some? && !tokens[k].value.isRevoked
  }

  function FindByHash(tokens: TokenTable, hash: Hash): (r: Option<nat>)
    ensures r.Some? ==> r.value < |tokens| && tokens[r.value].Some? && tokens[r.value].value.hash == hash
    ensures r.None? ==> forall k :: 0 <= k < |tokens| && tokens[k].Some? ==> tokens[k].value.hash != hash
  {
    if tokens == [] then None
    else var last := |tokens| - 1;
         if tokens[last].Some? && tokens[last].value.hash == hash then Some(last) else FindByHash(tokens[..last], hash)
  }

  /** The table after one token is revoked and its link overwritten. */
  function Revoked(tokens: TokenTable, k: nat, replacedBy: Option<nat>): TokenTable
    requires k < |tokens| && tokens[k].Some?
  {
    tokens[k := Some(tokens[k].value.(isRevoked := true, replacedBy := replacedBy))]
  }

  function RevokedAll(tokens: TokenTable, user: nat): TokenTable {
    seq(|tokens|, k requires 0 <= k < |tokens| =>
      if tokens[k].Some? && tokens[k].value.user == user then Some(tokens[k].value.(isRevoked := true)) else tokens[k])
  }

  predicate Spent(token: Option<Token>, now: real) {
    token.Some? && token.value.expiresAt < now && token.value.isRevoked
  }

  /** Spent rows are deleted, and the foreign key clears the links to them. */
  function Purged(tokens: TokenTable, now: real): TokenTable {
    seq(|tokens|, k requires 0 <= k < |tokens| =>
      if tokens[k].None? || Spent(tokens[k], now) then None
      else
        var next := tokens[k].value.replacedBy;
        if next.Some? && next.value < |tokens| && Spent(tokens[next.value], now) then
          Some(tokens[k].value.(replacedBy := None))
        else tokens[k])
  }

  // ----- The service calls -----

  /** Block 1 of authenticate_user; it commits also when the caller will see an error. */
  function Check(s: Store, who: Option<nat>, passwordOk: bool, now: real, end: real): (Store, Result<Login,
                 AuthError>) {
    if who.None? || who.value >= |s.users| then (s, Failure(InvalidCredentials))
    else
      var u := s.users[who.value];
      if Locked(u, now) then (s, Failure(AccountLocked))
      else if passwordOk then (s, Success(Login(who.value, u.isActive)))
      else if u.failed == MAX_SMALLINT then (s, Failure(DataError))
      else
        var lock := if u.failed + 1 >= MAX_FAILED_LOGIN_ATTEMPTS then Some(end + LOCKOUT_SECONDS) else u.lockedUntil;
        (s.(users := s.users[who.value := u.(failed := u.failed + 1, lockedUntil := lock)]),
         Failure(InvalidCredentials))
  }

  /** Block 2 of authenticate_user; Success carries the id of the new refresh token. */
  function Complete(s: Store, login: Login, hash: Hash, expiresAt: real): (Store, Result<nat, AuthError>) {
    if !login.isActive then (s, Failure(InvalidCredentials))
    else if login.user >= |s.users| || FindByHash(s.tokens, hash).Some? then (s, Failure(IntegrityError))
    else
      (Store(s.users[login.user := s.users[login.user].(failed := 0)],
             s.tokens + [Some(Token(login.user, hash, false, None, expiresAt))]),
       Success(|s.tokens|))
  }

  function Refresh(s: Store, hash: Hash, newHash: Hash, now: real, expiresAt: real): (Store, Result<nat, AuthError>) {
    match FindByHash(s.tokens, hash)
    case None => (s, Failure(InvalidCredentials))
    case Some(k) =>
      var stored := s.tokens[k].value;
      if stored.isRevoked || stored.expiresAt < now then (s, Failure(InvalidCredentials))
      else if stored.user >= |s.users| || !s.users[stored.user].isActive then (s, Failure(InvalidCredentials))
      else if FindByHash(s.tokens, newHash).Some? then (s, Failure(IntegrityError))
      else
        var added := s.tokens + [Some(Token(stored.user, newHash, false, None, expiresAt))];
        (s.(tokens := Revoked(added, k, Some(|s.tokens|))), Success(|s.tokens|))
  }

  function Logout(s: Store, hash: Hash): Store {
    match FindByHash(s.tokens, hash)
    case None => s
    case Some(k) => if s.tokens[k].value.isRevoked then s else s.(tokens := Revoked(s.tokens, k, None))
  }

  function ChangePassword(s: Store, actor: nat, user: nat, oldOk: bool): (Store, Result<(), AuthError>) {
    if actor != user then (s, Failure(OwnershipViolation))
    else if user >= |s.users| then (s, Failure(UserNotFound))
    else if !oldOk then (s, Failure(InvalidCredentials))
    else (s.(tokens := RevokedAll(s.tokens, user)), Success(()))
  }

  function Deactivate(s: Store, actor: nat, superAdmin: bool, user: nat): (Store, Result<(), AuthError>) {
    if actor != user && !superAdmin then (s, Failure(OwnershipViolation))
    else if user >= |s.users| then (s, Failure(UserNotFound))
    else
      (Store(s.users[user := s.users[user].(isActive := false)], RevokedAll(s.tokens, user)), Success(()))
  }

  // ----- The same, step by step on the session -----

  class Session {
    var users: seq<User>
    var tokens: TokenTable
    var saved: Store

    constructor ()
      ensures Now() == Store([], [])
    {
      users, tokens, saved := [], [], Store([], []);
    }

    function Now(): Store
      reads this
    {
      Store(users, tokens)
    }

    method Begin()
      modifies this`saved
      ensures saved == Now()
    {
      saved := Now();
    }

    method Rollback()
      modifies this
      ensures Now() == saved == old(saved)
    {
      users, tokens := saved.users, saved.tokens;
    }

    /** The new count, or None when the column overflows. */
    method IncrementFailedAttempts(u: nat) returns (attempts: Option<nat>)
      requires u < |users|
      modifies this`users
      ensures attempts == if old(users)[u].failed == MAX_SMALLINT then None else Some(old(users)[u].failed + 1)
      ensures users == if attempts.None? then old(users)
                       else old(users)[u := old(users)[u].(failed := attempts.value)]
    {
      if users[u].failed == MAX_SMALLINT {
        return None;
      }
      users := users[u := users[u].(failed := users[u].failed + 1)];
      return Some(users[u].failed);
    }

    method ResetFailedAttempts(u: nat)
      requires u < |users|
      modifies this`users
      ensures users == old(users)[u := old(users)[u].(failed := 0)]
    {
      users := users[u := users[u].(failed := 0)];
    }

    method SetAccountLock(u: nat, until: real)
      requires u < |users|
      modifies this`users
      ensures users == old(users)[u := old(users)[u].(lockedUntil := Some(until))]
    {
      users := users[u := users[u].(lockedUntil := Some(until))];
    }

    method CreateToken(user: nat, hash: Hash, expiresAt: real) returns (id: Option<nat>)
      modifies this`tokens
      ensures id == if user < |users| && FindByHash(old(tokens), hash).None? then Some(|old(tokens)|) else None
      ensures tokens == if id.None? then old(tokens) else old(tokens) + [Some(Token(user, hash, false, None,
                                                            expiresAt))]
    {
      if user >= |users| || FindByHash(tokens, hash).Some? {
        return None;
      }
      tokens := tokens + [Some(Token(user, hash, false, None, expiresAt))];
      return Some(|tokens| - 1);
    }

    method Revoke(k: nat, replacedBy: Option<nat>)
      requires k < |tokens| && tokens[k].Some?
      modifies this`tokens
      ensures tokens == Revoked(old(tokens), k, replacedBy)
    {
      tokens := tokens[k := Some(tokens[k].value.(isRevoked := true, replacedBy := replacedBy))];
    }

    /** In one statement, all rows of the user that are not revoked yet. */
    method RevokeAllForUser(user: nat)
      modifies this`tokens
      ensures tokens == RevokedAll(old(tokens), user)
    {
      tokens := RevokedAll(tokens, user);
    }

    method DeleteExpired(now: real)
      modifies this`tokens
      ensures tokens == Purged(old(tokens), now)
    {
      tokens := Purged(tokens, now);
    }
  }

  method CheckCredentials(db: Session, who: Option<nat>, passwordOk: bool, now: real, end: real)
    returns (reply: Result<Login, AuthError>)
    modifies db
    ensures (db.Now(), reply) == Check(old(db.Now()), who, passwordOk, now, end)
  {
    db.Begin();
    if who.None? || who.value >= |db.users| {
      return Failure(InvalidCredentials);
    }
    var u := who.value;
    var user := db.users[u];
    if user.lockedUntil.Some? && user.lockedUntil.value > now {
      return Failure(AccountLocked);
    }
    if !passwordOk {
      var attempts := db.IncrementFailedAttempts(u);
      if attempts.None? {
        db.Rollback();
        return Failure(DataError);
      }
      if attempts.value >= MAX_FAILED_LOGIN_ATTEMPTS {
        db.SetAccountLock(u, end + LOCKOUT_SECONDS);
      }
      assert db.users == old(db.users)[u := db.users[u]];
      return Failure(InvalidCredentials);
    }
    return Success(Login(u, user.isActive));
  }

  method CompleteLogin(db: Session, login: Login, hash: Hash, expiresAt: real) returns (reply: Result<nat, AuthError>)
    modifies db
    ensures (db.Now(), reply) == Complete(old(db.Now()), login, hash, expiresAt)
  {
    db.Begin();
    if !login.isActive {
      return Failure(InvalidCredentials);
    }
    if login.user < |db.users| {
      db.ResetFailedAttempts(login.user);
    }
    var id := db.CreateToken(login.user, hash, expiresAt);
    if id.None? {
      db.Rollback();
      return Failure(IntegrityError);
    }
    return Success(id.value);
  }

  method RefreshAccessToken(db: Session, hash: Hash, newHash: Hash, now: real, expiresAt: real)
    returns (reply: Result<nat, AuthError>)
    modifies db
    ensures (db.Now(), reply) == Refresh(old(db.Now()), hash, newHash, now, expiresAt)
  {
    db.Begin();
    var found := FindByHash(db.tokens, hash);
    if found.None? {
      return Failure(InvalidCredentials);
    }
    var stored := db.tokens[found.value].value;
    if stored.isRevoked {
      return Failure(InvalidCredentials);
    }
    if stored.expiresAt < now {
      return Failure(InvalidCredentials);
    }
    if stored.user >= |db.users| || !db.users[stored.user].isActive {
      return Failure(InvalidCredentials);
    }
    var id := db.CreateToken(stored.user, newHash, expiresAt);
    if id.None? {
      return Failure(IntegrityError);
    }
    db.Revoke(found.value, id);
    return Success(id.value);
  }

  method LogoutToken(db: Session, hash: Hash)
    modifies db
    ensures db.Now() == Logout(old(db.Now()), hash)
  {
    db.Begin();
    var found := FindByHash(db.tokens, hash);
    if found.Some? && !db.tokens[found.value].value.isRevoked {
      db.Revoke(found.value, None);
    }
  }

  method ChangePasswordOf(db: Session, actor: nat, user: nat, oldOk: bool) returns (reply: Result<(), AuthError>)
    modifies db
    ensures (db.Now(), reply) == ChangePassword(old(db.Now()), actor, user, oldOk)
  {
    if actor != user {
      return Failure(OwnershipViolation);
    }
    db.Begin();
    if user >= |db.users| {
      return Failure(UserNotFound);
    }
    if !oldOk {
      return Failure(InvalidCredentials);
    }
    db.RevokeAllForUser(user);
    return Success(());
  }

  method DeactivateAccount(db: Session, actor: nat, superAdmin: bool, user: nat) returns (reply: Result<(), AuthError>)
    modifies db
    ensures (db.Now(), reply) == Deactivate(old(db.Now()), actor, superAdmin, user)
  {
    if actor != user && !superAdmin {
      return Failure(OwnershipViolation);
    }
    db.Begin();
    if user >= |db.users| {
      return Failure(UserNotFound);
    }
    db.users := db.users[user := db.users[user].(isActive := false)];
    db.RevokeAllForUser(user);
    return Success(());
  }
}
