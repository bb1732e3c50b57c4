// What each authentication call answers and writes, told over users and tokens, and where every token
// of a run comes from.
module AuthReplies {
  import opened Basics
  import opened HashCodec
  import opened Pacing
  import opened Auth
  import opened AuthRuns

  // ----- Rows -----

  predicate Holds(tokens: TokenTable, hash: Hash, k: nat) {
    k < |tokens| && tokens[k].Some? && tokens[k].value.hash == hash
  }

  ghost predicate Unused(tokens: TokenTable, hash: Hash) {
    forall k: nat :: !Holds(tokens, hash, k)
  }

  lemma FindsHolder(tokens: TokenTable, hash: Hash, k: nat)
    requires ChainsOk(tokens) && Holds(tokens, hash, k)
    ensures FindByHash(tokens, hash) == Some(k)
  {
  }

  lemma FindsNone(tokens: TokenTable, hash: Hash)
    ensures FindByHash(tokens, hash).None? <==> Unused(tokens, hash)
  {
    var found := FindByHash(tokens, hash);
    assert found.Some? ==> Holds(tokens, hash, found.value);
  }

  /** User `u` becomes `row`; no other user and no token changes. */
  ghost predicate UserBecomes(s: Store, s': Store, u: nat, row: User) {
    && s'.tokens == s.tokens && u < |s.users| == |s'.users| && s'.users[u] == row
    && forall v :: 0 <= v < |s.users| && v != u ==> s'.users[v] == s.users[v]
  }

  // ----- authenticate_user -----

  /**
   * The first login transaction. An unlocked account with the right password goes through unchanged; a
   * wrong one is counted, and the fifth in a row and every later one locks for ten minutes.
   */
  lemma CheckOutcome(s: Store, who: Option<nat>, passwordOk: bool, now: real, end: real)
    ensures
      var call := Check(s, who, passwordOk, now, end);
      if who.None? || who.value >= |s.users| then call == (s, Failure(InvalidCredentials))
      else
        var u := s.users[who.value];
        if u.lockedUntil.Some? && now < u.lockedUntil.value then call == (s, Failure(AccountLocked))
        else if passwordOk then call == (s, Success(Login(who.value, u.isActive)))
        else if u.failed == 32767 then call == (s, Failure(DataError))
        else
          && call.1 == Failure(InvalidCredentials)
          && UserBecomes(s, call.0, who.value,
               User(u.failed + 1, if u.failed < 4 then u.lockedUntil else Some(end + 600.0), u.isActive))
  {
  }

  /** The second login transaction: one new live token, and the counter starts again. */
  lemma CompleteOutcome(s: Store, login: Login, hash: Hash, expiresAt: real)
    ensures
      var call := Complete(s, login, hash, expiresAt);
      if !login.isActive then call == (s, Failure(InvalidCredentials))
      else if login.user >= |s.users| || !Unused(s.tokens, hash) then call == (s, Failure(IntegrityError))
      else
        && call.1 == Success(|s.tokens|)
        && UserBecomes(s, Store(call.0.users, s.tokens), login.user, s.users[login.user].(failed := 0))
        && call.0.tokens == s.tokens + [Some(Token(login.user, hash, false, None, expiresAt))]
  {
    FindsNone(s.tokens, hash);
  }

  /** A right password on an unlocked, active account signs in: the two transactions one after the other. */
  lemma SignInGoesThrough(w: World, check: Event, complete: Event, u: nat, hash: Hash, lifetime: Duration)
    requires u < |w.store.users| && w.store.users[u].isActive && Unused(w.store.tokens, hash)
    requires w.store.users[u].lockedUntil.Some? ==> w.store.users[u].lockedUntil.value <= w.clock + check.wait
    requires check.act == CheckIn(Some(u), true) && complete.act == CompleteIn(|w.pending|, hash, lifetime)
    ensures
      var w' := Step(Step(w, check), complete);
      && w'.pending == w.pending && w'.clock == w.clock + check.wait + check.took + complete.wait + complete.took
      && UserBecomes(w.store, Store(w'.store.users, w.store.tokens), u, w.store.users[u].(failed := 0))
      && w'.store.tokens == w.store.tokens + [Some(Token(u, hash, false, None, w'.clock + lifetime))]
  {
    FindsNone(w.store.tokens, hash);
    var v := Step(w, check);
    assert v.store == w.store && v.pending == w.pending + [Login(u, true)];
    CompleteOutcome(v.store, v.pending[|w.pending|], hash, EndAt(v, complete) + lifetime);
  }

  // ----- refresh_access_token -----

  /** Token `k` can be exchanged: not revoked, not past its expiry, of an active user. */
  predicate Exchangeable(s: Store, k: nat, now: real)
    requires k < |s.tokens| && s.tokens[k].Some?
  {
    var token := s.tokens[k].value;
    !token.isRevoked && now <= token.expiresAt && token.user < |s.users| && s.users[token.user].isActive
  }

  /** Token `k` is revoked and linked to one new live token of the same user; nothing else changes. */
  ghost predicate Rotated(s: Store, s': Store, k: nat, newHash: Hash, expiresAt: real)
    requires k < |s.tokens| && s.tokens[k].Some?
  {
    && s'.users == s.users && |s'.tokens| == |s.tokens| + 1
    && s'.tokens[|s.tokens|] == Some(Token(s.tokens[k].value.user, newHash, false, None, expiresAt))
    && s'.tokens[k] == Some(s.tokens[k].value.(isRevoked := true, replacedBy := Some(|s.tokens|)))
    && forall j :: 0 <= j < |s.tokens| && j != k ==> s'.tokens[j] == s.tokens[j]
  }

  ghost predicate RefreshGoes(s: Store, call: (Store, Result<nat, AuthError>), k: nat, newHash: Hash, now: real,
                              expiresAt: real)
    requires k < |s.tokens| && s.tokens[k].Some?
  {
    if !Exchangeable(s, k, now) then call == (s, Failure(InvalidCredentials))
    else if !Unused(s.tokens, newHash) then call == (s, Failure(IntegrityError))
    else call.1 == Success(|s.tokens|) && Rotated(s, call.0, k, newHash, expiresAt)
  }

  lemma RefreshFrom(s: Store, hash: Hash, newHash: Hash, now: real, expiresAt: real, k: nat)
    requires FindByHash(s.tokens, hash) == Some(k)
    ensures RefreshGoes(s, Refresh(s, hash, newHash, now, expiresAt), k, newHash, now, expiresAt)
  {
    FindsNone(s.tokens, newHash);
  }

  /**
   * In every run: the exchange of token `k` succeeds if and only if it can be exchanged and the new hash
   * is unused; then it is rotated, with the expiry given, and otherwise nothing changes.
   */
  lemma RefreshOutcome(clock: real, es: seq<Event>, hash: Hash, newHash: Hash, now: real, expiresAt: real, k: nat)
    requires Holds(Run(Start(clock), es).store.tokens, hash, k)
    ensures
      var s := Run(Start(clock), es).store;
      RefreshGoes(s, Refresh(s, hash, newHash, now, expiresAt), k, newHash, now, expiresAt)
  {
    RunChains(Start(clock), es);
    FindsHolder(Run(Start(clock), es).store.tokens, hash, k);
    RefreshFrom(Run(Start(clock), es).store, hash, newHash, now, expiresAt, k);
  }

  /** A hash that no token has is refused, and logging out with it does nothing. */
  lemma UnknownToken(s: Store, hash: Hash, newHash: Hash, now: real, expiresAt: real)
    requires Unused(s.tokens, hash)
    ensures Refresh(s, hash, newHash, now, expiresAt) == (s, Failure(InvalidCredentials)) && Logout(s, hash) == s
  {
    FindsNone(s.tokens, hash);
  }

  // ----- logout, change_password, deactivate -----

  /** In every run a logout revokes the token presented, if it is live, and links it to nothing. */
  lemma LogoutOutcome(clock: real, es: seq<Event>, hash: Hash, k: nat)
    requires Holds(Run(Start(clock), es).store.tokens, hash, k)
    ensures
      var s := Run(Start(clock), es).store;
      Logout(s, hash) ==
        if s.tokens[k].value.isRevoked then s
        else s.(tokens := s.tokens[k := Some(s.tokens[k].value.(isRevoked := true, replacedBy := None))])
  {
    RunChains(Start(clock), es);
    FindsHolder(Run(Start(clock), es).store.tokens, hash, k);
  }

  /** Every token of the user is revoked and keeps its link; no other token changes. */
  ghost predicate SignedOut(tokens: TokenTable, tokens': TokenTable, u: nat) {
    && |tokens'| == |tokens|
    && forall k :: 0 <= k < |tokens| ==>
         tokens'[k] == if tokens[k].Some? && tokens[k].value.user == u then Some(tokens[k].value.(isRevoked := true))
                       else tokens[k]
  }

  /** Only the user, knowing the old password. */
  lemma ChangePasswordOutcome(s: Store, actor: nat, u: nat, oldOk: bool)
    ensures
      var call := ChangePassword(s, actor, u, oldOk);
      if actor != u then call == (s, Failure(OwnershipViolation))
      else if u >= |s.users| then call == (s, Failure(UserNotFound))
      else if !oldOk then call == (s, Failure(InvalidCredentials))
      else call.1 == Success(()) && call.0.users == s.users && SignedOut(s.tokens, call.0.tokens, u)
  {
  }

  /** The user, or a super admin. */
  lemma DeactivateOutcome(s: Store, actor: nat, superAdmin: bool, u: nat)
    ensures
      var call := Deactivate(s, actor, superAdmin, u);
      if actor != u && !superAdmin then call == (s, Failure(OwnershipViolation))
      else if u >= |s.users| then call == (s, Failure(UserNotFound))
      else
        && call.1 == Success(()) && SignedOut(s.tokens, call.0.tokens, u)
        && UserBecomes(s, Store(call.0.users, s.tokens), u, s.users[u].(isActive := false))
  {
  }

  // ----- Clean-up -----

  /** The row is deleted by a clean-up: revoked, and past its expiry. */
  ghost predicate Swept(tokens: TokenTable, k: nat, now: real) {
    k < |tokens| && tokens[k].Some? && tokens[k].value.isRevoked && now > tokens[k].value.expiresAt
  }

  /** A clean-up deletes exactly these rows; of the others it changes only a link to a deleted one, to none. */
  lemma CleanUpOutcome(tokens: TokenTable, now: real, k: nat)
    requires k < |tokens|
    ensures |Purged(tokens, now)| == |tokens|
    ensures Purged(tokens, now)[k] ==
            if tokens[k].None? || Swept(tokens, k, now) then None
            else if tokens[k].value.replacedBy.Some? && Swept(tokens, tokens[k].value.replacedBy.value, now) then
              Some(tokens[k].value.(replacedBy := None))
            else tokens[k]
  {
  }

  // ----- Where tokens come from -----

  /** Event `e` issues row `k`: a completed login, or an exchange; the token lives for the lifetime of the event. */
  ghost predicate Issues(w: World, e: Event, k: nat, token: Token) {
    && k == |w.store.tokens|
    && ((e.act.CompleteIn? && Resets(w, e, token.user) && e.act.hash == token.hash)
        || (e.act.RefreshIn? && Exchanged(w, e).Some? && e.act.newHash == token.hash
            && w.store.tokens[Exchanged(w, e).value].value.user == token.user))
    && token.expiresAt == EndAt(w, e) + e.act.lifetime
  }

  /** The row existed before with the same user, hash and expiry. */
  predicate WasThere(tokens: TokenTable, k: nat, token: Token) {
    && k < |tokens| && tokens[k].Some? && tokens[k].value.user == token.user && tokens[k].value.hash == token.hash
    && tokens[k].value.expiresAt == token.expiresAt
  }

  lemma StepIssues(w: World, e: Event, k: nat)
    requires k < |Step(w, e).store.tokens| && Step(w, e).store.tokens[k].Some?
    ensures
      var token := Step(w, e).store.tokens[k].value;
      WasThere(w.store.tokens, k, token) || Issues(w, e, k, token)
  {
  }

  /** The event of a run that issued row `k`. */
  ghost predicate IssuedAt(clock: real, es: seq<Event>, m: nat, k: nat, token: Token) {
    m < |es| && Issues(Run(Start(clock), es[..m]), es[m], k, token)
  }

  /** Every token of a run was issued by one of its events, and keeps the user, hash and expiry given then. */
  lemma {:induction false} TokenIsIssued(clock: real, es: seq<Event>, k: nat)
    requires k < |Run(Start(clock), es).store.tokens| && Run(Start(clock), es).store.tokens[k].Some?
    ensures exists m: nat :: IssuedAt(clock, es, m, k, Run(Start(clock), es).store.tokens[k].value)
  {
    if es == [] {
      assert false;
    } else {
      var n := |es| - 1;
      var w := Run(Start(clock), es[..n]);
      var token := Step(w, es[n]).store.tokens[k].value;
      StepIssues(w, es[n], k);
      if Issues(w, es[n], k, token) {
        assert IssuedAt(clock, es, n, k, token);
      } else {
        TokenIsIssued(clock, es[..n], k);
        var m: nat :| IssuedAt(clock, es[..n], m, k, w.store.tokens[k].value);
        assert es[..n][..m] == es[..m];
        assert IssuedAt(clock, es, m, k, token);
      }
    }
  }

  /** So a token is exchanged, if at all, within its lifetime from the event that issued it. */
  lemma ExchangedInTime(clock: real, es: seq<Event>, e: Event, k: nat)
    requires Exchanged(Run(Start(clock), es), e) == Some(k)
    ensures exists m: nat ::
      && m < |es| && (es[m].act.CompleteIn? || es[m].act.RefreshIn?)
      && |Run(Start(clock), es[..m]).store.tokens| == k
      && NowAt(Run(Start(clock), es), e) <= EndAt(Run(Start(clock), es[..m]), es[m]) + es[m].act.lifetime
  {
    var token := Run(Start(clock), es).store.tokens[k].value;
    TokenIsIssued(clock, es, k);
    var m: nat :| IssuedAt(clock, es, m, k, token);
    assert Issues(Run(Start(clock), es[..m]), es[m], k, token);
  }
}
