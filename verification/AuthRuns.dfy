// Logins as runs: the two transactions of a login interleave with everything else.
module AuthRuns {
  import opened Basics
  import opened HashCodec
  import opened Pacing
  import opened Auth

  datatype Act =
    | Enrol
    | CheckIn(who: Option<nat>, passwordOk: bool)
    | CompleteIn(login: nat, hash: Hash, lifetime: Duration)
    | RefreshIn(hash: Hash, newHash: Hash, lifetime: Duration)
    | LogoutIn(hash: Hash)
    | ChangePasswordIn(actor: nat, user: nat, oldOk: bool)
    | DeactivateIn(actor: nat, superAdmin: bool, user: nat)
    | CleanUp

  /** An action some time after the previous one, and how long it takes. */
  datatype Event = Event(wait: Duration, took: Duration, act: Act)

  /** The store, the logins that are between their two transactions, and the clock. */
  datatype World = World(store: Store, pending: seq<Login>, clock: real)

  function NowAt(w: World, e: Event): real { w.clock + e.wait }

  function EndAt(w: World, e: Event): real { w.clock + e.wait + e.took }

  function StoreAfter(w: World, e: Event): Store {
    var s, now, end := w.store, NowAt(w, e), EndAt(w, e);
    match e.act
    case Enrol => s.(users := s.users + [User(0, None, true)])
    case CheckIn(who, ok) => Check(s, who, ok, now, end).0
    case CompleteIn(i, hash, lifetime) =>
      if i < |w.pending| then Complete(s, w.pending[i], hash, end + lifetime).0 else s
    case RefreshIn(hash, newHash, lifetime) => Refresh(s, hash, newHash, now, end + lifetime).0
    case LogoutIn(hash) => Logout(s, hash)
    case ChangePasswordIn(actor, user, ok) => ChangePassword(s, actor, user, ok).0
    case DeactivateIn(actor, superAdmin, user) => Deactivate(s, actor, superAdmin, user).0
    case CleanUp => s.(tokens := Purged(s.tokens, now))
  }

  function PendingAfter(w: World, e: Event): seq<Login> {
    match e.act
    case CheckIn(who, ok) =>
      var reply := Check(w.store, who, ok, NowAt(w, e), EndAt(w, e)).1;
      if reply.Success? then w.pending + [reply.value] else w.pending
    case CompleteIn(i, _, _) => if i < |w.pending| then w.pending[..i] + w.pending[i + 1..] else w.pending
    case _ => w.pending
  }

  function Step(w: World, e: Event): World {
    World(StoreAfter(w, e), PendingAfter(w, e), EndAt(w, e))
  }

  function Run(w: World, es: seq<Event>): World {
    if es == [] then w else Step(Run(w, es[..|es| - 1]), es[|es| - 1])
  }

  function Start(clock: real): World {
    World(Store([], []), [], clock)
  }

  // ----- Lockout -----

  predicate UserOk(u: User, clock: real) {
    && (u.failed >= MAX_FAILED_LOGIN_ATTEMPTS ==> u.lockedUntil.Some?)
    && (u.lockedUntil.Some? ==> u.lockedUntil.value <= clock + LOCKOUT_SECONDS)
  }

  ghost predicate UsersOk(w: World) {
    forall u :: 0 <= u < |w.store.users| ==> UserOk(w.store.users[u], w.clock)
  }

  /** A lock is never lifted and never shortened. */
  ghost predicate LockKept(u: User, u': User) {
    u.lockedUntil.Some? ==> u'.lockedUntil.Some? && u.lockedUntil.value <= u'.lockedUntil.value
  }

  lemma StepUsers(w: World, e: Event)
    requires UsersOk(w)
    ensures UsersOk(Step(w, e)) && |w.store.users| <= |Step(w, e).store.users|
    ensures forall u :: 0 <= u < |w.store.users| ==> LockKept(w.store.users[u], Step(w, e).store.users[u])
  {
    var w' := Step(w, e);
    forall u | 0 <= u < |w'.store.users|
      ensures UserOk(w'.store.users[u], w'.clock)
      ensures u < |w.store.users| ==> LockKept(w.store.users[u], w'.store.users[u])
    {
      assert u < |w.store.users| ==> UserOk(w.store.users[u], w.clock);
    }
  }

  /**
   * In every run, five or more failures mean that a lock time is set, and from any moment on the lock
   * times of all users only move forward.
   */
  lemma {:induction false} LocksOnlyGrow(clock: real, es: seq<Event>, more: seq<Event>)
    ensures UsersOk(Run(Start(clock), es))
    ensures
      var before, after := Run(Start(clock), es).store.users, Run(Run(Start(clock), es), more).store.users;
      |before| <= |after| && forall u :: 0 <= u < |before| ==> LockKept(before[u], after[u])
    decreases |es| + |more|
  {
    if more != [] {
      var w, init := Run(Start(clock), es), more[..|more| - 1];
      LocksOnlyGrow(clock, es, init);
      RunUsers(w, init);
      StepUsers(Run(w, init), more[|more| - 1]);
    } else if es != [] {
      LocksOnlyGrow(clock, es[..|es| - 1], []);
      StepUsers(Run(Start(clock), es[..|es| - 1]), es[|es| - 1]);
    }
  }

  lemma {:induction false} RunUsers(w: World, es: seq<Event>)
    requires UsersOk(w)
    ensures UsersOk(Run(w, es))
  {
    if es == [] {
    } else {
      RunUsers(w, es[..|es| - 1]);
      StepUsers(Run(w, es[..|es| - 1]), es[|es| - 1]);
    }
  }

  /** While a lock lasts nobody signs in as that user, and no attempt is counted. */
  lemma LockHolds(clock: real, past: seq<Event>, es: seq<Event>, e: Event, u: nat, passwordOk: bool)
    requires u < |Run(Start(clock), past).store.users|
    requires Locked(Run(Start(clock), past).store.users[u], NowAt(Run(Run(Start(clock), past), es), e))
    requires e.act == CheckIn(Some(u), passwordOk)
    ensures
      var w := Run(Run(Start(clock), past), es);
      && Check(w.store, Some(u), passwordOk, NowAt(w, e), EndAt(w, e)) == (w.store, Failure(AccountLocked))
      && Step(w, e).pending == w.pending
  {
    LocksOnlyGrow(clock, past, es);
    var before, after := Run(Start(clock), past).store.users[u], Run(Run(Start(clock), past), es).store.users[u];
    assert LockKept(before, after);
  }

  /** A check that reached the password and found it wrong. */
  predicate WrongPassword(w: World, e: Event, u: nat) {
    && u < |w.store.users| && e.act == CheckIn(Some(u), false)
    && !Locked(w.store.users[u], NowAt(w, e))
  }

  /** A login that completes resets the counter of its user. */
  predicate Resets(w: World, e: Event, u: nat) {
    && e.act.CompleteIn? && e.act.login < |w.pending| && w.pending[e.act.login].user == u
    && Complete(w.store, w.pending[e.act.login], e.act.hash, EndAt(w, e) + e.act.lifetime).1.Success?
  }

  /** The wrong-password checks for user `u` in a run from `w`. */
  function WrongChecks(w: World, es: seq<Event>, u: nat): seq<Interval> {
    if es == [] then []
    else
      var init, e := es[..|es| - 1], es[|es| - 1];
      WrongChecks(w, init, u) +
      if WrongPassword(Run(w, init), e, u) then [SpanOf(Run(w, init), e)] else []
  }

  predicate NeverResets(w: World, es: seq<Event>, u: nat) {
    es == [] || (NeverResets(w, es[..|es| - 1], u) && !Resets(Run(w, es[..|es| - 1]), es[|es| - 1], u))
  }

  /** A wrong check that finds the column full: the increment is refused and the lock with it. */
  predicate FindsFull(w: World, e: Event, u: nat) {
    WrongPassword(w, e, u) && w.store.users[u].failed == MAX_SMALLINT
  }

  predicate NeverFull(w: World, es: seq<Event>, u: nat) {
    es == [] || (NeverFull(w, es[..|es| - 1], u) && !FindsFull(Run(w, es[..|es| - 1]), es[|es| - 1], u))
  }

  /** The count user `u` starts with; a user enrolled later starts with none. */
  function StartCount(w: World, u: nat): SmallInt {
    if u < |w.store.users| then w.store.users[u].failed else 0
  }

  /** How many wrong checks go through at once, starting from a count of `f`. */
  function FreeChecks(f: nat): nat {
    if f < MAX_FAILED_LOGIN_ATTEMPTS then MAX_FAILED_LOGIN_ATTEMPTS - f else 1
  }

  /** Having started with count `f`, user `u` has the counter and the lock that the wrong checks `xs` make. */
  ghost predicate Remembers(w: World, u: nat, f: nat, xs: seq<Interval>) {
    && Paced(xs, FreeChecks(f), LOCKOUT_SECONDS)
    && (u >= |w.store.users| ==> xs == [] && f == 0)
    && (u < |w.store.users| ==> w.store.users[u].failed == f + |xs|)
    && (xs != [] ==> xs[|xs| - 1].end <= w.clock)
    && (xs != [] && f + |xs| >= MAX_FAILED_LOGIN_ATTEMPTS ==>
          && u < |w.store.users| && w.store.users[u].lockedUntil.Some?
          && w.store.users[u].lockedUntil.value >= xs[|xs| - 1].end + LOCKOUT_SECONDS)
  }

  function SpanOf(w: World, e: Event): Interval {
    Interval(NowAt(w, e), EndAt(w, e))
  }

  /** The next wrong check keeps the pace, whether or not it can be counted. */
  lemma KeepsPace(w: World, e: Event, u: nat, f: nat, xs: seq<Interval>)
    requires Remembers(w, u, f, xs) && WrongPassword(w, e, u)
    ensures Paced(xs + [SpanOf(w, e)], FreeChecks(f), LOCKOUT_SECONDS)
  {
    var ys := xs + [SpanOf(w, e)];
    forall i | 0 < i < |ys|
      ensures ys[i - 1].end <= ys[i].start
      ensures FreeChecks(f) <= i ==> ys[i].start >= ys[i - 1].end + LOCKOUT_SECONDS
    {
      assert i < |xs| ==> ys[i] == xs[i];
    }
  }

  lemma WrongRemembered(w: World, e: Event, u: nat, f: nat, xs: seq<Interval>)
    requires Remembers(w, u, f, xs) && WrongPassword(w, e, u) && w.store.users[u].failed < MAX_SMALLINT
    ensures Remembers(Step(w, e), u, f, xs + [SpanOf(w, e)])
  {
    KeepsPace(w, e, u, f, xs);
  }

  /** Nothing but a wrong check or a completed login touches a counter. */
  lemma CounterKept(w: World, e: Event, u: nat)
    requires !Resets(w, e, u) && !WrongPassword(w, e, u)
    ensures u < |w.store.users| ==> u < |Step(w, e).store.users|
    ensures u < |w.store.users| ==> Step(w, e).store.users[u].failed == w.store.users[u].failed
    ensures u >= |w.store.users| && u < |Step(w, e).store.users| ==> Step(w, e).store.users[u].failed == 0
  {
  }

  lemma StepRemembers(w: World, e: Event, u: nat, f: nat, xs: seq<Interval>)
    requires UsersOk(w) && Remembers(w, u, f, xs) && !Resets(w, e, u) && !FindsFull(w, e, u)
    ensures Remembers(Step(w, e), u, f, xs + if WrongPassword(w, e, u) then [SpanOf(w, e)] else [])
  {
    if WrongPassword(w, e, u) {
      WrongRemembered(w, e, u, f, xs);
    } else {
      assert xs + [] == xs;
      StepUsers(w, e);
      CounterKept(w, e, u);
    }
  }

  lemma {:induction false} RunRemembers(w: World, es: seq<Event>, u: nat)
    requires UsersOk(w) && NeverResets(w, es, u) && NeverFull(w, es, u)
    ensures Remembers(Run(w, es), u, StartCount(w, u), WrongChecks(w, es, u))
  {
    if es == [] {
    } else {
      var init := es[..|es| - 1];
      RunUsers(w, init);
      RunRemembers(w, init, u);
      StepRemembers(Run(w, init), es[|es| - 1], u, StartCount(w, u), WrongChecks(w, init, u));
    }
  }

  lemma RememberedBound(w: World, u: nat, f: nat, xs: seq<Interval>, from: real, window: real)
    requires Remembers(w, u, f, xs) && Within(xs, from, window) && window >= 0.0
    ensures |xs| <= 5 + (window / 600.0).Floor
  {
    PacedBound(xs, FreeChecks(f), 600.0, from, window);
  }

  lemma BoundFrom(w: World, es: seq<Event>, u: nat, from: real, window: real)
    requires UsersOk(w) && window >= 0.0 && NeverResets(w, es, u) && NeverFull(w, es, u)
    requires Within(WrongChecks(w, es, u), from, window)
    ensures |WrongChecks(w, es, u)| <= 5 + (window / 600.0).Floor
  {
    RunRemembers(w, es, u);
    RememberedBound(Run(w, es), u, StartCount(w, u), WrongChecks(w, es, u), from, window);
  }

  /**
   * Lockout bound. From any state of any run, whatever logins of this and other users interleave: a
   * stretch in which the counter of `u` is not reset and no wrong check finds its column full holds at
   * most 5 + floor(window / 600) wrong-password checks that start within `window` seconds.
   */
  lemma LockoutBound(clock: real, past: seq<Event>, es: seq<Event>, u: nat, from: real, window: real)
    requires window >= 0.0
    requires NeverResets(Run(Start(clock), past), es, u) && NeverFull(Run(Start(clock), past), es, u)
    requires Within(WrongChecks(Run(Start(clock), past), es, u), from, window)
    ensures |WrongChecks(Run(Start(clock), past), es, u)| <= 5 + (window / 600.0).Floor
  {
    LocksOnlyGrow(clock, past, []);
    BoundFrom(Run(Start(clock), past), es, u, from, window);
  }

  // ----- Exactly when the bound holds -----

  /** So many pauses one after the other. */
  function Pauses(k: int): real {
    if k <= 0 then 0.0 else k as real * LOCKOUT_SECONDS
  }

  lemma OneMorePause(k: int)
    ensures k >= 0 ==> Pauses(k + 1) == Pauses(k) + LOCKOUT_SECONDS
    ensures Pauses(k) <= Pauses(k + 1)
  {
  }

  lemma {:induction false} MorePauses(j: int, k: int)
    requires j <= k
    ensures 0.0 <= Pauses(j) <= Pauses(k)
    decreases k - j
  {
    if j < k {
      MorePauses(j, k - 1);
      OneMorePause(k - 1);
    }
  }

  /** How long it takes wrong checks to fill the column from a count of `f` and be let in once more. */
  function FillTime(f: SmallInt): real {
    Pauses(MAX_SMALLINT - f + 1 - FreeChecks(f))
  }

  lemma FullTakesTime(w: World, e: Event, u: nat, f: SmallInt, xs: seq<Interval>, from: real, window: real)
    requires Remembers(w, u, f, xs) && FindsFull(w, e, u) && Within(xs + [SpanOf(w, e)], from, window)
    ensures window >= FillTime(f)
  {
    var ys := xs + [SpanOf(w, e)];
    KeepsPace(w, e, u, f, xs);
    assert |xs| == MAX_SMALLINT - f;
    assert from <= ys[|xs|].start <= from + window;
    if f < MAX_SMALLINT {
      Spread(ys, FreeChecks(f), LOCKOUT_SECONDS, |xs|);
      assert from <= ys[FreeChecks(f) - 1].start;
    }
  }

  lemma WithinPrefix(xs: seq<Interval>, ys: seq<Interval>, from: real, window: real)
    requires Within(xs + ys, from, window)
    ensures Within(xs, from, window)
  {
    assert forall i :: 0 <= i < |xs| ==> (xs + ys)[i] == xs[i];
  }

  lemma {:induction false} TooShortToFill(w: World, es: seq<Event>, u: nat, from: real, window: real)
    requires UsersOk(w) && NeverResets(w, es, u) && Within(WrongChecks(w, es, u), from, window)
    requires window < FillTime(StartCount(w, u))
    ensures NeverFull(w, es, u)
  {
    if es == [] {
    } else {
      var init, e := es[..|es| - 1], es[|es| - 1];
      var v, xs := Run(w, init), WrongChecks(w, init, u);
      WithinPrefix(xs, if WrongPassword(v, e, u) then [SpanOf(v, e)] else [], from, window);
      TooShortToFill(w, init, u, from, window);
      RunRemembers(w, init, u);
      if FindsFull(v, e, u) {
        FullTakesTime(v, e, u, StartCount(w, u), xs, from, window);
      }
    }
  }

  /** A wrong check as soon as the lock allows it. */
  function NextTry(w: World, u: nat): Event {
    var wait: Duration :=
      if u < |w.store.users| && Locked(w.store.users[u], w.clock) then w.store.users[u].lockedUntil.value - w.clock
      else 0.0;
    Event(wait, 0.0, CheckIn(Some(u), false))
  }

  function Least(a: int, b: int): int { if a <= b then a else b }

  /** Where `n` such tries lead: the counter, the lock and the clock. */
  ghost predicate Tried(w: World, u: nat, n: nat, v: World) {
    && u < |w.store.users| && |v.store.users| == |w.store.users|
    && var f, user := w.store.users[u].failed, v.store.users[u];
       var room := MAX_SMALLINT - f;
       && user.failed == f + Least(n, room)
       && (n == 0 ==> v == w)
       && (n > 0 ==> v.clock == NowAt(w, NextTry(w, u)) + Pauses(Least(n, room + 1) - FreeChecks(f)))
       && (0 < n <= room && f + n >= MAX_FAILED_LOGIN_ATTEMPTS ==>
             user.lockedUntil == Some(v.clock + LOCKOUT_SECONDS))
       && (n > 0 && (n > room || f + n < MAX_FAILED_LOGIN_ATTEMPTS) ==> !Locked(user, v.clock))
  }

  lemma OneTry(w: World, u: nat)
    requires u < |w.store.users|
    ensures
      var e, user := NextTry(w, u), w.store.users[u];
      var v, now := Step(w, e), NowAt(w, e);
      && WrongPassword(w, e, u) && !Resets(w, e, u) && EndAt(w, e) == now == v.clock
      && |v.store.users| == |w.store.users|
      && v.store.users[u] ==
           (if user.failed == MAX_SMALLINT then user
            else User(user.failed + 1,
                      if user.failed + 1 >= MAX_FAILED_LOGIN_ATTEMPTS then Some(now + LOCKOUT_SECONDS)
                      else user.lockedUntil,
                      user.isActive))
  {
  }

  lemma TriedAgain(w: World, u: nat, n: nat, v: World)
    requires Tried(w, u, n, v)
    ensures Tried(w, u, n + 1, Step(v, NextTry(v, u)))
  {
    var f := w.store.users[u].failed;
    OneTry(v, u);
    OneMorePause(n - FreeChecks(f));
  }

  lemma RunOne(w: World, es: seq<Event>, e: Event)
    ensures Run(w, es + [e]) == Step(Run(w, es), e)
  {
    assert (es + [e])[..|es|] == es;
  }

  lemma ChecksOne(w: World, es: seq<Event>, e: Event, u: nat)
    ensures WrongChecks(w, es + [e], u) ==
            WrongChecks(w, es, u) + if WrongPassword(Run(w, es), e, u) then [SpanOf(Run(w, es), e)] else []
    ensures NeverResets(w, es + [e], u) <==> NeverResets(w, es, u) && !Resets(Run(w, es), e, u)
  {
    assert (es + [e])[..|es|] == es;
  }

  lemma TryIsEarly(w: World, u: nat, n: nat, v: World)
    requires Tried(w, u, n, v)
    ensures
      var from := NowAt(w, NextTry(w, u));
      from <= NowAt(v, NextTry(v, u)) <= from + FillTime(w.store.users[u].failed)
  {
    var f := w.store.users[u].failed;
    TriedAgain(w, u, n, v);
    OneTry(v, u);
    MorePauses(Least(n + 1, MAX_SMALLINT - f + 1) - FreeChecks(f), MAX_SMALLINT - f + 1 - FreeChecks(f));
  }

  lemma WithinSnoc(xs: seq<Interval>, x: Interval, from: real, window: real)
    requires Within(xs, from, window) && from <= x.start <= from + window
    ensures Within(xs + [x], from, window)
  {
  }

  /** The events `es` are `n` wrong checks in a window, without a reset. */
  ghost predicate Counted(w: World, es: seq<Event>, u: nat, n: nat, from: real, window: real) {
    NeverResets(w, es, u) && |WrongChecks(w, es, u)| == n && Within(WrongChecks(w, es, u), from, window)
  }

  lemma TryCounted(w: World, es: seq<Event>, u: nat, n: nat, from: real, window: real)
    requires u < |Run(w, es).store.users| && Counted(w, es, u, n, from, window)
    requires from <= NowAt(Run(w, es), NextTry(Run(w, es), u)) <= from + window
    ensures Counted(w, es + [NextTry(Run(w, es), u)], u, n + 1, from, window)
  {
    var v, e := Run(w, es), NextTry(Run(w, es), u);
    OneTry(v, u);
    ChecksOne(w, es, e, u);
    WithinSnoc(WrongChecks(w, es, u), SpanOf(v, e), from, window);
  }

  /** The events `es` are `n` tries, and all of them fall in the time it takes to fill the column. */
  ghost predicate Tries(w: World, es: seq<Event>, u: nat, n: nat) {
    && Tried(w, u, n, Run(w, es))
    && Counted(w, es, u, n, NowAt(w, NextTry(w, u)), FillTime(w.store.users[u].failed))
  }

  lemma NoTries(w: World, u: nat)
    requires u < |w.store.users|
    ensures Tries(w, [], u, 0)
  {
  }

  lemma OneMoreTry(w: World, es: seq<Event>, u: nat, n: nat)
    requires Tries(w, es, u, n)
    ensures Tries(w, es + [NextTry(Run(w, es), u)], u, n + 1)
  {
    TryIsEarly(w, u, n, Run(w, es));
    TryCounted(w, es, u, n, NowAt(w, NextTry(w, u)), FillTime(w.store.users[u].failed));
    TriedAgain(w, u, n, Run(w, es));
    RunOne(w, es, NextTry(Run(w, es), u));
  }

  lemma {:induction false} TriesLead(w: World, u: nat, n: nat) returns (es: seq<Event>)
    requires u < |w.store.users|
    ensures Tries(w, es, u, n)
  {
    if n == 0 {
      es := [];
      NoTries(w, u);
    } else {
      var init := TriesLead(w, u, n - 1);
      es := init + [NextTry(Run(w, init), u)];
      OneMoreTry(w, init, u, n - 1);
    }
  }

  /** From state `w` on, no stretch without a reset exceeds the bound in a window of this length. */
  ghost predicate Bounded(w: World, u: nat, window: real) {
    forall es, from :: NeverResets(w, es, u) && Within(WrongChecks(w, es, u), from, window) ==>
      |WrongChecks(w, es, u)| <= 5 + (window / 600.0).Floor
  }

  lemma WithinLonger(xs: seq<Interval>, from: real, short: real, long: real)
    requires Within(xs, from, short) && short <= long
    ensures Within(xs, from, long)
  {
  }

  lemma NotBounded(w: World, u: nat, window: real)
    requires u < |w.store.users| && window >= FillTime(w.store.users[u].failed) && window >= 0.0
    ensures !Bounded(w, u, window)
  {
    var n := 6 + (window / 600.0).Floor;
    var from := NowAt(w, NextTry(w, u));
    var es := TriesLead(w, u, n);
    WithinLonger(WrongChecks(w, es, u), from, FillTime(w.store.users[u].failed), window);
  }

  lemma BoundedBefore(w: World, u: nat, window: real)
    requires UsersOk(w) && window >= 0.0 && window < FillTime(StartCount(w, u))
    ensures Bounded(w, u, window)
  {
    forall es, from | NeverResets(w, es, u) && Within(WrongChecks(w, es, u), from, window)
      ensures |WrongChecks(w, es, u)| <= 5 + (window / 600.0).Floor
    {
      TooShortToFill(w, es, u, from, window);
      BoundFrom(w, es, u, from, window);
    }
  }

  /**
   * Exactness. Whether the bound holds is decided by the count `f` before the stretch and the length of
   * the window: it holds for every stretch from there if and only if the window is too short to fill
   * the SMALLINT column, that is, shorter than 600 seconds for each count from max(f, 4) to 32767.
   */
  lemma LockoutExact(clock: real, past: seq<Event>, u: nat, window: real)
    requires u < |Run(Start(clock), past).store.users| && window >= 0.0
    ensures
      var w := Run(Start(clock), past);
      var f := w.store.users[u].failed;
      Bounded(w, u, window) <==> window < (32767 - if f < 4 then 4 else f) as real * 600.0
  {
    var w := Run(Start(clock), past);
    LocksOnlyGrow(clock, past, []);
    if window < FillTime(w.store.users[u].failed) {
      BoundedBefore(w, u, window);
    } else {
      NotBounded(w, u, window);
    }
  }

  function Hammer(u: nat, n: nat): seq<Event> {
    seq(n, i => Event(0.0, 0.0, CheckIn(Some(u), false)))
  }

  /** A full counter with no lock in force counts nothing and locks nothing. */
  lemma {:induction false} FullCounterNeverLocks(w: World, u: nat, n: nat)
    requires u < |w.store.users| && w.store.users[u].failed == 32767 && !Locked(w.store.users[u], w.clock)
    ensures Run(w, Hammer(u, n)) == w && |WrongChecks(w, Hammer(u, n), u)| == n
  {
    if n == 0 {
    } else {
      FullCounterNeverLocks(w, u, n - 1);
      HammerSnoc(u, n);
    }
  }

  lemma HammerSnoc(u: nat, n: nat)
    requires n > 0
    ensures Hammer(u, n)[..n - 1] == Hammer(u, n - 1)
    ensures Hammer(u, n)[n - 1] == Event(0.0, 0.0, CheckIn(Some(u), false))
  {
  }

  lemma {:induction false} HammerStands(w: World, u: nat, n: nat)
    ensures Run(w, Hammer(u, n)).clock == w.clock && NeverResets(w, Hammer(u, n), u)
    ensures Within(WrongChecks(w, Hammer(u, n), u), w.clock, 0.0)
  {
    if n > 0 {
      HammerStands(w, u, n - 1);
      HammerSnoc(u, n);
    }
  }

  lemma {:induction false} LockedOut(w: World, u: nat, n: nat)
    requires u < |w.store.users| && Locked(w.store.users[u], w.clock)
    ensures Run(w, Hammer(u, n)) == w && WrongChecks(w, Hammer(u, n), u) == []
  {
    if n > 0 {
      LockedOut(w, u, n - 1);
      HammerSnoc(u, n);
    }
  }

  /**
   * At one instant: in every reachable state at most five wrong checks of a user get through at once if
   * and only if the column is not full or a lock is in force.
   */
  lemma HammerExact(clock: real, past: seq<Event>, u: nat)
    requires u < |Run(Start(clock), past).store.users|
    ensures
      var w := Run(Start(clock), past);
      (forall n :: |WrongChecks(w, Hammer(u, n), u)| <= 5) <==>
        w.store.users[u].failed < 32767 || Locked(w.store.users[u], w.clock)
  {
    var w := Run(Start(clock), past);
    if Locked(w.store.users[u], w.clock) {
      forall n
        ensures |WrongChecks(w, Hammer(u, n), u)| <= 5
      {
        LockedOut(w, u, n);
      }
    } else if w.store.users[u].failed < MAX_SMALLINT {
      LocksOnlyGrow(clock, past, []);
      MorePauses(1, MAX_SMALLINT - w.store.users[u].failed + 1 - FreeChecks(w.store.users[u].failed));
      BoundedBefore(w, u, 0.0);
      forall n
        ensures |WrongChecks(w, Hammer(u, n), u)| <= 5
      {
        HammerStands(w, u, n);
        assert Within(WrongChecks(w, Hammer(u, n), u), w.clock, 0.0);
      }
    } else {
      FullCounterNeverLocks(w, u, 6);
      assert |WrongChecks(w, Hammer(u, 6), u)| == 6;
    }
  }

  lemma EnrolFirst(clock: real)
    ensures Run(Start(clock), [Event(0.0, 0.0, Enrol)]) == World(Store([User(0, None, true)], []), [], clock)
  {
    assert [] + [Event(0.0, 0.0, Enrol)] == [Event(0.0, 0.0, Enrol)];
    RunOne(Start(clock), [], Event(0.0, 0.0, Enrol));
    assert [] + [User(0, None, true)] == [User(0, None, true)];
  }

  /** Ten idle minutes end any lock. */
  lemma IdleUnlocks(v: World, u: nat)
    requires u < |v.store.users| && UserOk(v.store.users[u], v.clock)
    ensures
      var after := Step(v, Event(LOCKOUT_SECONDS, 0.0, CheckIn(None, true)));
      after.store == v.store && !Locked(v.store.users[u], after.clock)
  {
  }

  /** Every count up to the end of the column is reached from the start, with no lock in force. */
  lemma CounterFills(clock: real, n: nat)
    requires n <= 32767
    ensures exists es ::
      var w := Run(Start(clock), es);
      |w.store.users| == 1 && w.store.users[0].failed == n && !Locked(w.store.users[0], w.clock)
  {
    var enrol, idle := Event(0.0, 0.0, Enrol), Event(LOCKOUT_SECONDS, 0.0, CheckIn(None, true));
    var w := Run(Start(clock), [enrol]);
    EnrolFirst(clock);
    var tries := TriesLead(w, 0, n);
    var v := Run(w, tries);
    RunUsers(w, tries);
    RunAppend(Start(clock), [enrol], tries);
    IdleUnlocks(v, 0);
    RunOne(Start(clock), [enrol] + tries, idle);
    assert Run(Start(clock), [enrol] + tries + [idle]).store == v.store;
  }

  // ----- Refresh-token chains -----

  ghost predicate LinkOk(tokens: TokenTable, k: nat)
    requires k < |tokens|
  {
    tokens[k].Some? && tokens[k].value.replacedBy.Some? ==>
      var r := tokens[k].value.replacedBy.value;
      && k < r < |tokens| && tokens[r].Some? && tokens[r].value.user == tokens[k].value.user
      && tokens[k].value.isRevoked
  }

  predicate SameLink(tokens: TokenTable, j: nat, k: nat)
    requires j < |tokens| && k < |tokens|
  {
    && tokens[j].Some? && tokens[k].Some? && tokens[j].value.replacedBy.Some?
    && tokens[j].value.replacedBy == tokens[k].value.replacedBy
  }

  /**
   * Links go forward, so they are acyclic; they stay within one user; a linked token is revoked; and
   * no two tokens are replaced by the same one.
   */
  ghost predicate ChainsOk(tokens: TokenTable) {
    && (forall k :: 0 <= k < |tokens| ==> LinkOk(tokens, k))
    && (forall j, k :: 0 <= j < k < |tokens| ==> !SameLink(tokens, j, k))
    && (forall j, k :: 0 <= j < k < |tokens| && tokens[j].Some? && tokens[k].Some? ==>
          tokens[j].value.hash != tokens[k].value.hash)
  }

  lemma AddedOk(tokens: TokenTable, token: Token)
    requires ChainsOk(tokens) && token.replacedBy.None? && FindByHash(tokens, token.hash).None?
    ensures ChainsOk(tokens + [Some(token)])
  {
    var all := tokens + [Some(token)];
    forall k | 0 <= k < |all|
      ensures LinkOk(all, k)
    {
      assert k < |tokens| ==> LinkOk(tokens, k);
    }
    forall j, k | 0 <= j < k < |all|
      ensures !SameLink(all, j, k)
    {
      assert k < |tokens| ==> !SameLink(tokens, j, k);
    }
  }

  /** Revoking one token and linking it, if at all, to a newer token of the same user that nobody links to. */
  lemma RevokedOk(tokens: TokenTable, k: nat, next: Option<nat>)
    requires ChainsOk(tokens) && k < |tokens| && tokens[k].Some?
    requires next.Some? ==>
      && k < next.value < |tokens| && tokens[next.value].Some?
      && tokens[next.value].value.user == tokens[k].value.user
      && forall j :: 0 <= j < |tokens| && tokens[j].Some? ==> tokens[j].value.replacedBy != next
    ensures ChainsOk(Revoked(tokens, k, next))
  {
    var after := Revoked(tokens, k, next);
    forall i | 0 <= i < |after|
      ensures LinkOk(after, i)
    {
      assert LinkOk(tokens, i);
    }
    forall i, j | 0 <= i < j < |after|
      ensures !SameLink(after, i, j)
    {
      assert !SameLink(tokens, i, j);
    }
  }

  /** Rows may be revoked or deleted wholesale as long as links to deleted rows are cleared. */
  ghost predicate Thinned(tokens: TokenTable, after: TokenTable) {
    && |after| == |tokens|
    && forall k :: 0 <= k < |tokens| && after[k].Some? ==>
         && tokens[k].Some? && after[k].value.user == tokens[k].value.user
         && after[k].value.hash == tokens[k].value.hash
         && (tokens[k].value.isRevoked ==> after[k].value.isRevoked)
         && (after[k].value.replacedBy.Some? ==>
               && after[k].value.replacedBy == tokens[k].value.replacedBy
               && after[k].value.replacedBy.value < |after| && after[after[k].value.replacedBy.value].Some?)
  }

  lemma ThinnedOk(tokens: TokenTable, after: TokenTable)
    requires ChainsOk(tokens) && Thinned(tokens, after)
    ensures ChainsOk(after)
  {
    forall k | 0 <= k < |after|
      ensures LinkOk(after, k)
    {
      assert LinkOk(tokens, k);
    }
    forall i, j | 0 <= i < j < |after|
      ensures !SameLink(after, i, j)
    {
      assert !SameLink(tokens, i, j);
    }
  }

  lemma RevokedAllThins(tokens: TokenTable, user: nat)
    requires ChainsOk(tokens)
    ensures Thinned(tokens, RevokedAll(tokens, user))
  {
    var after := RevokedAll(tokens, user);
    forall k | 0 <= k < |tokens| && after[k].Some? && after[k].value.replacedBy.Some?
      ensures after[k].value.replacedBy.value < |after| && after[after[k].value.replacedBy.value].Some?
    {
      assert LinkOk(tokens, k);
    }
  }

  lemma PurgedThins(tokens: TokenTable, now: real)
    requires ChainsOk(tokens)
    ensures Thinned(tokens, Purged(tokens, now))
  {
    var after := Purged(tokens, now);
    forall k | 0 <= k < |tokens| && after[k].Some? && after[k].value.replacedBy.Some?
      ensures after[k].value.replacedBy.value < |after| && after[after[k].value.replacedBy.value].Some?
    {
      assert LinkOk(tokens, k);
    }
  }

  lemma RefreshOk(s: Store, hash: Hash, newHash: Hash, now: real, expiresAt: real)
    requires ChainsOk(s.tokens)
    ensures ChainsOk(Refresh(s, hash, newHash, now, expiresAt).0.tokens)
  {
    var (s', reply) := Refresh(s, hash, newHash, now, expiresAt);
    if reply.Success? {
      var k := FindByHash(s.tokens, hash).value;
      var token := Token(s.tokens[k].value.user, newHash, false, None, expiresAt);
      AddedOk(s.tokens, token);
      forall j | 0 <= j < |s.tokens| && s.tokens[j].Some?
        ensures s.tokens[j].value.replacedBy != Some(|s.tokens|)
      {
        assert LinkOk(s.tokens, j);
      }
      RevokedOk(s.tokens + [Some(token)], k, Some(|s.tokens|));
    }
  }

  lemma CompleteOk(s: Store, login: Login, hash: Hash, expiresAt: real)
    requires ChainsOk(s.tokens)
    ensures ChainsOk(Complete(s, login, hash, expiresAt).0.tokens)
  {
    if Complete(s, login, hash, expiresAt).1.Success? {
      AddedOk(s.tokens, Token(login.user, hash, false, None, expiresAt));
    }
  }

  lemma LogoutOk(s: Store, hash: Hash)
    requires ChainsOk(s.tokens)
    ensures ChainsOk(Logout(s, hash).tokens)
  {
    var found := FindByHash(s.tokens, hash);
    if found.Some? {
      RevokedOk(s.tokens, found.value, None);
    }
  }

  lemma WholesaleOk(tokens: TokenTable, user: nat, now: real)
    requires ChainsOk(tokens)
    ensures ChainsOk(RevokedAll(tokens, user)) && ChainsOk(Purged(tokens, now))
  {
    RevokedAllThins(tokens, user);
    ThinnedOk(tokens, RevokedAll(tokens, user));
    PurgedThins(tokens, now);
    ThinnedOk(tokens, Purged(tokens, now));
  }

  lemma RevokingOk(s: Store, actor: nat, superAdmin: bool, user: nat, oldOk: bool)
    requires ChainsOk(s.tokens)
    ensures ChainsOk(ChangePassword(s, actor, user, oldOk).0.tokens)
    ensures ChainsOk(Deactivate(s, actor, superAdmin, user).0.tokens)
  {
    WholesaleOk(s.tokens, user, 0.0);
  }

  lemma CheckKeepsTokens(s: Store, who: Option<nat>, passwordOk: bool, now: real, end: real)
    ensures Check(s, who, passwordOk, now, end).0.tokens == s.tokens
  {
  }

  lemma TokensAdded(w: World, e: Event)
    requires ChainsOk(w.store.tokens) && (e.act.CompleteIn? || e.act.RefreshIn?)
    ensures ChainsOk(StoreAfter(w, e).tokens)
  {
    match e.act
    case CompleteIn(i, hash, lifetime) =>
      if i < |w.pending| {
        CompleteOk(w.store, w.pending[i], hash, EndAt(w, e) + lifetime);
      }
    case RefreshIn(hash, newHash, lifetime) => RefreshOk(w.store, hash, newHash, NowAt(w, e), EndAt(w, e) + lifetime);
  }

  lemma TokensRevoked(w: World, e: Event)
    requires ChainsOk(w.store.tokens) && !e.act.CompleteIn? && !e.act.RefreshIn?
    ensures ChainsOk(StoreAfter(w, e).tokens)
  {
    match e.act
    case LogoutIn(hash) => LogoutOk(w.store, hash);
    case ChangePasswordIn(actor, user, ok) => RevokingOk(w.store, actor, false, user, ok);
    case DeactivateIn(actor, superAdmin, user) => RevokingOk(w.store, actor, superAdmin, user, true);
    case CleanUp => WholesaleOk(w.store.tokens, 0, NowAt(w, e));
    case CheckIn(who, ok) => CheckKeepsTokens(w.store, who, ok, NowAt(w, e), EndAt(w, e));
    case Enrol =>
  }

  lemma StepChains(w: World, e: Event)
    requires ChainsOk(w.store.tokens)
    ensures ChainsOk(Step(w, e).store.tokens)
  {
    if e.act.CompleteIn? || e.act.RefreshIn? {
      TokensAdded(w, e);
    } else {
      TokensRevoked(w, e);
    }
  }

  /** In every run the links form chains, expiry clean-up included. */
  lemma {:induction false} RunChains(w: World, es: seq<Event>)
    requires ChainsOk(w.store.tokens)
    ensures ChainsOk(Run(w, es).store.tokens)
  {
    if es == [] {
    } else {
      RunChains(w, es[..|es| - 1]);
      StepChains(Run(w, es[..|es| - 1]), es[|es| - 1]);
    }
  }

  /** The token `n` replacements after `k`. */
  function Follow(tokens: TokenTable, k: nat, n: nat): Option<nat>
    decreases n
  {
    if n == 0 then Some(k)
    else if k >= |tokens| || tokens[k].None? || tokens[k].value.replacedBy.None? then None
    else Follow(tokens, tokens[k].value.replacedBy.value, n - 1)
  }

  lemma {:induction false} FollowGoesForward(tokens: TokenTable, k: nat, n: nat)
    requires ChainsOk(tokens) && Follow(tokens, k, n).Some?
    ensures Follow(tokens, k, n).value >= k + n
    ensures n > 0 ==> var r := Follow(tokens, k, n).value;
                      k < |tokens| && tokens[k].Some? && r < |tokens| && tokens[r].Some?
                      && tokens[r].value.user == tokens[k].value.user && !Live(tokens, k)
    decreases n
  {
    if n == 0 {
    } else {
      assert LinkOk(tokens, k);
      FollowGoesForward(tokens, tokens[k].value.replacedBy.value, n - 1);
    }
  }

  lemma {:induction false} FollowSplit(tokens: TokenTable, k: nat, m: nat, n: nat)
    requires Follow(tokens, k, m).Some?
    ensures Follow(tokens, k, m + n) == Follow(tokens, Follow(tokens, k, m).value, n)
    decreases m
  {
    if m == 0 {
    } else {
      FollowSplit(tokens, tokens[k].value.replacedBy.value, m - 1, n);
    }
  }

  /** Two tokens that lead to a common one lie on one line. */
  lemma {:induction false} ChainsAreLines(tokens: TokenTable, a: nat, i: nat, b: nat, j: nat)
    requires ChainsOk(tokens) && i <= j
    requires Follow(tokens, a, i).Some? && Follow(tokens, a, i) == Follow(tokens, b, j)
    ensures Follow(tokens, b, j - i) == Some(a)
    decreases i
  {
    if i > 0 {
      FollowPrefix(tokens, a, i);
      FollowPrefix(tokens, b, j);
      FollowSplit(tokens, a, i - 1, 1);
      FollowSplit(tokens, b, j - 1, 1);
      var x, y := Follow(tokens, a, i - 1).value, Follow(tokens, b, j - 1).value;
      assert Follow(tokens, x, 1) == Follow(tokens, y, 1);
      OneStepBack(tokens, x, y);
      ChainsAreLines(tokens, a, i - 1, b, j - 1);
    }
  }

  lemma LinksDiffer(tokens: TokenTable, x: nat, y: nat)
    requires ChainsOk(tokens) && x < y < |tokens| && tokens[x].Some? && tokens[y].Some?
    requires tokens[x].value.replacedBy.Some?
    ensures tokens[x].value.replacedBy != tokens[y].value.replacedBy
  {
    assert !SameLink(tokens, x, y);
  }

  lemma OneStepBack(tokens: TokenTable, x: nat, y: nat)
    requires ChainsOk(tokens) && Follow(tokens, x, 1).Some? && Follow(tokens, x, 1) == Follow(tokens, y, 1)
    ensures x == y
  {
    assert Follow(tokens, x, 1) == tokens[x].value.replacedBy && Follow(tokens, y, 1) == tokens[y].value.replacedBy;
    if x < y {
      LinksDiffer(tokens, x, y);
    } else if y < x {
      LinksDiffer(tokens, y, x);
    }
  }

  lemma {:induction false} FollowPrefix(tokens: TokenTable, k: nat, n: nat)
    requires n > 0 && Follow(tokens, k, n).Some?
    ensures Follow(tokens, k, n - 1).Some?
    decreases n
  {
    if n > 1 {
      FollowPrefix(tokens, tokens[k].value.replacedBy.value, n - 1);
    }
  }

  /**
   * In every run: following replacements never returns and never changes user; the tokens of a chain
   * lie on one line; and a live token is the last of its chain, so a chain has at most one.
   */
  lemma TokenChains(clock: real, es: seq<Event>, a: nat, i: nat, b: nat, j: nat)
    requires
      var tokens := Run(Start(clock), es).store.tokens;
      && Live(tokens, a) && b < |tokens| && tokens[b].Some?
      && Follow(tokens, a, i).Some? && Follow(tokens, a, i) == Follow(tokens, b, j)
    ensures
      var tokens := Run(Start(clock), es).store.tokens;
      && i == 0 && tokens[a].value.replacedBy.None?
      && Follow(tokens, b, j) == Some(a)
      && tokens[b].value.user == tokens[a].value.user
      && b + j <= a
      && (b != a ==> !Live(tokens, b))
  {
    var tokens := Run(Start(clock), es).store.tokens;
    RunChains(Start(clock), es);
    FollowGoesForward(tokens, a, i);
    assert LinkOk(tokens, a);
    FollowGoesForward(tokens, b, j);
  }

  // ----- Exchanges -----

  /** The token that event `e` exchanges for a new one, if any. */
  function Exchanged(w: World, e: Event): Option<nat> {
    if !e.act.RefreshIn? then None
    else if Refresh(w.store, e.act.hash, e.act.newHash, NowAt(w, e), EndAt(w, e) + e.act.lifetime).1.Failure? then None
    else FindByHash(w.store.tokens, e.act.hash)
  }

  /** The row is used up: revoked or deleted. */
  predicate Gone(tokens: TokenTable, k: nat) {
    k < |tokens| && !Live(tokens, k)
  }

  lemma StepGone(w: World, e: Event, k: nat)
    requires Gone(w.store.tokens, k)
    ensures Gone(Step(w, e).store.tokens, k) && Exchanged(w, e) != Some(k)
  {
  }

  lemma {:induction false} RunGone(w: World, es: seq<Event>, k: nat)
    requires Gone(w.store.tokens, k)
    ensures Gone(Run(w, es).store.tokens, k)
  {
    if es == [] {
    } else {
      RunGone(w, es[..|es| - 1], k);
      StepGone(Run(w, es[..|es| - 1]), es[|es| - 1], k);
    }
  }

  lemma {:induction false} RunAppend(w: World, es: seq<Event>, more: seq<Event>)
    ensures Run(w, es + more) == Run(Run(w, es), more)
  {
    if more == [] {
      assert es + more == es;
    } else {
      var n := |more| - 1;
      assert (es + more)[..|es + more| - 1] == es + more[..n];
      RunAppend(w, es, more[..n]);
    }
  }

  /** Over a whole run no token is exchanged twice. */
  lemma ExchangedOnce(w: World, es: seq<Event>, m: nat, n: nat, k: nat)
    requires m < |es| && n < |es|
    requires Exchanged(Run(w, es[..m]), es[m]) == Some(k) && Exchanged(Run(w, es[..n]), es[n]) == Some(k)
    ensures m == n
  {
    if m < n {
      NotExchangedAgain(w, es, m, n, k);
    } else if n < m {
      NotExchangedAgain(w, es, n, m, k);
    }
  }

  lemma ExchangedIsGone(w: World, e: Event, k: nat)
    requires Exchanged(w, e) == Some(k)
    ensures Gone(Step(w, e).store.tokens, k)
  {
  }

  lemma RunBetween(w: World, es: seq<Event>, m: nat, n: nat)
    requires m < n <= |es|
    ensures Run(w, es[..n]) == Run(Step(Run(w, es[..m]), es[m]), es[m + 1..n])
  {
    assert es[..m + 1] == es[..m] + [es[m]];
    assert es[..n] == es[..m + 1] + es[m + 1..n];
    RunOne(w, es[..m], es[m]);
    RunAppend(w, es[..m + 1], es[m + 1..n]);
  }

  lemma NotExchangedAgain(w: World, es: seq<Event>, m: nat, n: nat, k: nat)
    requires m < n < |es| && Exchanged(Run(w, es[..m]), es[m]) == Some(k)
    ensures Exchanged(Run(w, es[..n]), es[n]) != Some(k)
  {
    ExchangedIsGone(Run(w, es[..m]), es[m], k);
    RunBetween(w, es, m, n);
    RunGone(Step(Run(w, es[..m]), es[m]), es[m + 1..n], k);
    StepGone(Run(w, es[..n]), es[n], k);
  }

  // ----- Conservation -----

  ghost function LiveOf(tokens: TokenTable, user: nat): set<nat> {
    set k: nat | k < |tokens| && Live(tokens, k) && tokens[k].value.user == user
  }

  /** An exchange uses up one live token, links it to a new live one of its user, and touches no other row. */
  lemma RefreshLinks(s: Store, hash: Hash, newHash: Hash, now: real, expiresAt: real)
    requires Refresh(s, hash, newHash, now, expiresAt).1.Success?
    ensures
      var (s', reply) := Refresh(s, hash, newHash, now, expiresAt);
      var k, n := FindByHash(s.tokens, hash), reply.value;
      && k.Some? && Live(s.tokens, k.value) && !Live(s'.tokens, k.value) && Live(s'.tokens, n)
      && s'.tokens[n].value.user == s.tokens[k.value].value.user && s'.tokens[n].value.hash == newHash
      && s'.tokens[n].value.expiresAt == expiresAt
      && s'.tokens[k.value].value.replacedBy == Some(n)
      && (forall j :: 0 <= j < |s.tokens| && j != k.value ==> s'.tokens[j] == s.tokens[j])
  {
  }

  lemma SwapKeepsSize(before: set<nat>, after: set<nat>, k: nat, n: nat)
    requires k in before && n !in before && after == before - {k} + {n}
    ensures |after| == |before|
  {
  }

  /** What an exchange does to the live tokens of a user. */
  lemma RefreshSwaps(s: Store, hash: Hash, newHash: Hash, now: real, expiresAt: real, user: nat)
    requires Refresh(s, hash, newHash, now, expiresAt).1.Success?
    ensures
      var k, n := FindByHash(s.tokens, hash).value, |s.tokens|;
      && k < n
      && LiveOf(Refresh(s, hash, newHash, now, expiresAt).0.tokens, user) ==
           if s.tokens[k].value.user == user then LiveOf(s.tokens, user) - {k} + {n} else LiveOf(s.tokens, user)
  {
    var after := Refresh(s, hash, newHash, now, expiresAt).0.tokens;
    var k, n := FindByHash(s.tokens, hash).value, |s.tokens|;
    RefreshLinks(s, hash, newHash, now, expiresAt);
    forall j: nat
      ensures j in LiveOf(after, user) <==>
              if s.tokens[k].value.user == user then j in LiveOf(s.tokens, user) - {k} + {n}
              else j in LiveOf(s.tokens, user)
    {
      assert j < n && j != k ==> after[j] == s.tokens[j];
    }
  }

  /** So it conserves every user's number of live tokens. */
  lemma RefreshConserves(s: Store, hash: Hash, newHash: Hash, now: real, expiresAt: real, user: nat)
    requires Refresh(s, hash, newHash, now, expiresAt).1.Success?
    ensures |LiveOf(Refresh(s, hash, newHash, now, expiresAt).0.tokens, user)| == |LiveOf(s.tokens, user)|
  {
    var after := Refresh(s, hash, newHash, now, expiresAt).0.tokens;
    var k, n := FindByHash(s.tokens, hash).value, |s.tokens|;
    RefreshSwaps(s, hash, newHash, now, expiresAt, user);
    if s.tokens[k].value.user == user {
      SwapKeepsSize(LiveOf(s.tokens, user), LiveOf(after, user), k, n);
    }
  }

  /** The calls that revoke every token of a user. */
  predicate SignsOut(w: World, e: Event, u: nat) {
    || (e.act.ChangePasswordIn? && e.act.user == u
        && ChangePassword(w.store, e.act.actor, u, e.act.oldOk).1.Success?)
    || (e.act.DeactivateIn? && e.act.user == u
        && Deactivate(w.store, e.act.actor, e.act.superAdmin, u).1.Success?)
  }

  /** The live tokens of user `u` after an event, as an account of what came in and what went out. */
  ghost function LiveAccount(w: World, e: Event, u: nat): set<nat> {
    var tokens, before, latest := w.store.tokens, LiveOf(w.store.tokens, u), |w.store.tokens|;
    if Resets(w, e, u) then before + {latest}
    else if Exchanged(w, e).Some? && Exchanged(w, e).value in before then before - {Exchanged(w, e).value} + {latest}
    else if e.act.LogoutIn? && FindByHash(tokens, e.act.hash).Some? then before - {FindByHash(tokens, e.act.hash).value}
    else if SignsOut(w, e, u) then {}
    else before
  }

  /**
   * The account balances at every event: a completed login brings one token, an exchange swaps one, a
   * logout takes the one presented, a password change or deactivation takes all, and nothing else counts.
   */
  lemma LiveBalances(w: World, e: Event, u: nat)
    ensures LiveOf(Step(w, e).store.tokens, u) == LiveAccount(w, e, u)
  {
    match e.act
    case RefreshIn(_, _, _) => RefreshLive(w, e, u);
    case CompleteIn(_, _, _) => CompleteLive(w, e, u);
    case LogoutIn(_) => LogoutLive(w, e, u);
    case CleanUp => CleanUpKeepsLive(w.store.tokens, NowAt(w, e), u);
    case CheckIn(who, ok) => CheckKeepsTokens(w.store, who, ok, NowAt(w, e), EndAt(w, e));
    case Enrol =>
    case _ => RevokingLive(w, e, u);
  }

  lemma CompleteLive(w: World, e: Event, u: nat)
    requires e.act.CompleteIn?
    ensures LiveOf(Step(w, e).store.tokens, u) == LiveAccount(w, e, u)
  {
  }

  lemma LogoutLive(w: World, e: Event, u: nat)
    requires e.act.LogoutIn?
    ensures LiveOf(Step(w, e).store.tokens, u) == LiveAccount(w, e, u)
  {
  }

  lemma RevokingLive(w: World, e: Event, u: nat)
    requires e.act.ChangePasswordIn? || e.act.DeactivateIn?
    ensures LiveOf(Step(w, e).store.tokens, u) == LiveAccount(w, e, u)
  {
  }

  lemma RefreshLive(w: World, e: Event, u: nat)
    requires e.act.RefreshIn?
    ensures LiveOf(Step(w, e).store.tokens, u) == LiveAccount(w, e, u)
  {
    if Exchanged(w, e).Some? {
      RefreshSwaps(w.store, e.act.hash, e.act.newHash, NowAt(w, e), EndAt(w, e) + e.act.lifetime, u);
    }
  }

  /** A completed login resets the counter of its user and nothing else about any user. */
  lemma LoginResets(w: World, e: Event, u: nat)
    requires Resets(w, e, u)
    ensures
      var users, after := w.store.users, Step(w, e).store.users;
      && |after| == |users| && u < |users|
      && after[u] == users[u].(failed := 0)
      && forall v :: 0 <= v < |users| && v != u ==> after[v] == users[v]
  {
  }

  /** Expiry clean-up deletes no live token. */
  lemma CleanUpKeepsLive(tokens: TokenTable, now: real, user: nat)
    ensures LiveOf(Purged(tokens, now), user) == LiveOf(tokens, user)
  {
  }

  /** The row is of no more use at time `clock`. */
  predicate Stale(tokens: TokenTable, k: nat, clock: real) {
    k < |tokens| && (tokens[k].None? || tokens[k].value.expiresAt < clock)
  }

  lemma {:induction false} StaleStays(w: World, es: seq<Event>, k: nat)
    requires Stale(w.store.tokens, k, w.clock)
    ensures Stale(Run(w, es).store.tokens, k, Run(w, es).clock)
  {
    if es == [] {
    } else {
      StaleStays(w, es[..|es| - 1], k);
      StepStale(Run(w, es[..|es| - 1]), es[|es| - 1], k);
    }
  }

  lemma StepStale(w: World, e: Event, k: nat)
    requires Stale(w.store.tokens, k, w.clock)
    ensures Stale(Step(w, e).store.tokens, k, Step(w, e).clock) && Exchanged(w, e) != Some(k)
  {
  }

  lemma StepInactive(w: World, e: Event, u: nat)
    requires u < |w.store.users| && !w.store.users[u].isActive
    ensures u < |Step(w, e).store.users| && !Step(w, e).store.users[u].isActive
    ensures Exchanged(w, e).Some? ==> w.store.tokens[Exchanged(w, e).value].value.user != u
  {
  }

  lemma {:induction false} InactiveStays(w: World, es: seq<Event>, u: nat)
    requires u < |w.store.users| && !w.store.users[u].isActive
    ensures u < |Run(w, es).store.users| && !Run(w, es).store.users[u].isActive
  {
    if es == [] {
    } else {
      InactiveStays(w, es[..|es| - 1], u);
      StepInactive(Run(w, es[..|es| - 1]), es[|es| - 1], u);
    }
  }

  /**
   * Whatever happens after it, an expired token is never exchanged, and neither is any token of a
   * deactivated user, not even one that a login under way at the time brought to life.
   */
  lemma NeverExchanged(w: World, es: seq<Event>, e: Event, k: nat)
    requires Exchanged(Run(w, es), e) == Some(k)
    ensures !Stale(w.store.tokens, k, w.clock)
    ensures
      var u := Run(w, es).store.tokens[k].value.user;
      u < |w.store.users| ==> w.store.users[u].isActive
  {
    var u := Run(w, es).store.tokens[k].value.user;
    if Stale(w.store.tokens, k, w.clock) {
      StaleStays(w, es, k);
      StepStale(Run(w, es), e, k);
    }
    if u < |w.store.users| && !w.store.users[u].isActive {
      InactiveStays(w, es, u);
      StepInactive(Run(w, es), e, u);
    }
  }

  // ----- Mass revocation -----

  ghost predicate AllOlderGone(tokens: TokenTable, u: nat, n: nat) {
    n <= |tokens| && forall k :: 0 <= k < n ==> Gone(tokens, k) || (tokens[k].Some? && tokens[k].value.user != u)
  }

  lemma StepOlder(w: World, e: Event, u: nat, n: nat)
    requires AllOlderGone(w.store.tokens, u, n)
    ensures AllOlderGone(Step(w, e).store.tokens, u, n)
  {
  }

  lemma {:induction false} RunOlder(w: World, es: seq<Event>, u: nat, n: nat)
    requires AllOlderGone(w.store.tokens, u, n)
    ensures AllOlderGone(Run(w, es).store.tokens, u, n)
  {
    if es == [] {
    } else {
      RunOlder(w, es[..|es| - 1], u, n);
      StepOlder(Run(w, es[..|es| - 1]), es[|es| - 1], u, n);
    }
  }

  /** Every token of a user that is live after a password change or a deactivation was created after it. */
  lemma LiveIsNewer(w: World, e: Event, more: seq<Event>, u: nat, k: nat)
    requires SignsOut(w, e, u) && k in LiveOf(Run(Step(w, e), more).store.tokens, u)
    ensures k >= |w.store.tokens|
  {
    RunOlder(Step(w, e), more, u, |w.store.tokens|);
  }

  /** Nobody is let in: the user is inactive, has no live token and no login under way that saw it active. */
  ghost predicate ShutOut(w: World, u: nat) {
    && u < |w.store.users| && !w.store.users[u].isActive
    && LiveOf(w.store.tokens, u) == {}
    && (forall i :: 0 <= i < |w.pending| ==> w.pending[i] != Login(u, true))
  }

  lemma StepShutOut(w: World, e: Event, u: nat)
    requires ShutOut(w, u)
    ensures ShutOut(Step(w, e), u)
  {
    LiveBalances(w, e, u);
    StaysOut(w, e, u);
    StepInactive(w, e, u);
  }

  /** A deactivated user's new logins see the user inactive. */
  lemma StaysOut(w: World, e: Event, u: nat)
    requires u < |w.store.users| && !w.store.users[u].isActive
    requires forall i :: 0 <= i < |w.pending| ==> w.pending[i] != Login(u, true)
    ensures forall i :: 0 <= i < |PendingAfter(w, e)| ==> PendingAfter(w, e)[i] != Login(u, true)
  {
  }

  lemma {:induction false} RunShutOut(w: World, es: seq<Event>, u: nat)
    requires ShutOut(w, u)
    ensures ShutOut(Run(w, es), u)
  {
    if es == [] {
    } else {
      RunShutOut(w, es[..|es| - 1], u);
      StepShutOut(Run(w, es[..|es| - 1]), es[|es| - 1], u);
    }
  }

  /** The login that is under way completes, and brings a new live token. */
  lemma LateLogin(w: World, u: nat, i: nat, hash: Hash)
    requires u < |w.store.users| && i < |w.pending| && w.pending[i] == Login(u, true)
    requires FindByHash(w.store.tokens, hash).None?
    ensures exists more :: LiveOf(Run(w, more).store.tokens, u) != {}
  {
    var late := Event(0.0, 0.0, CompleteIn(i, hash, 0.0));
    assert [late][..0] == [];
    assert Run(w, []) == w;
    assert Run(w, [late]) == Step(w, late);
    assert |w.store.tokens| in LiveOf(Run(w, [late]).store.tokens, u);
  }

  /**
   * A deactivated user can come to hold a live refresh token again exactly when a login of that user
   * was between its two transactions at that moment: the second one tests the `is_active` that the
   * first one read. `hash` is any digest not in use, as the hash of a fresh token is.
   */
  lemma DeactivationHolds(w: World, e: Event, u: nat, hash: Hash)
    requires e.act.DeactivateIn? && SignsOut(w, e, u) && FindByHash(Step(w, e).store.tokens, hash).None?
    ensures (exists more :: LiveOf(Run(Step(w, e), more).store.tokens, u) != {}) <==> Login(u, true) in w.pending
  {
    var w' := Step(w, e);
    if Login(u, true) in w.pending {
      var i: nat :| i < |w.pending| && w.pending[i] == Login(u, true);
      LateLogin(w', u, i, hash);
    } else {
      assert ShutOut(w', u);
      forall more
        ensures LiveOf(Run(w', more).store.tokens, u) == {}
      {
        RunShutOut(w', more, u);
      }
    }
  }
}
