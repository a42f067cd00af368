/**
  `Login` as one call: rate limits, lookups, lockout, password, and the gates after it;
  then its second half, `LoginTOTP`.
 */
module Login {
  import opened Basics
  import opened RateLimit
  import opened Lockout

  datatype Row = Row(user: User, archived: bool, totpEnabled: bool, mustChangePwd: bool)

  /** What the tenant directory and the user store answer. */
  datatype Found = NoTenant | NoUser | StoreError | Found(row: Row)

  /** What the hash store and the hasher answer. */
  datatype Check = NoHash | BadHash | Wrong | Right

  /** Answers and failures of everything outside, for one call. */
  datatype World = World(
    now: nat, ip: string, found: Found, check: Check, issueOk: bool,
    ipFault: Option<RateLimit.Fault>, accountFault: Option<RateLimit.Fault>,
    lockFault: bool, failFault: Option<Lockout.Fault>, resetFault: bool)

  datatype Outcome =
    | Error | RateLimited | InvalidCredentials | AccountArchived | AccountLocked | PasswordExpired
    | SecondFactorDue(user: User)            // a partial token
    | LoggedIn(user: User)                   // a full pair

  predicate HasTokens(o: Outcome) {
    o.SecondFactorDue? || o.LoggedIn?
  }

  /** What the second factor's verifier answers to the code. */
  datatype Code = CodeError | CodeWrong | CodeRight

  /** The same for the second half. `partial` is the user of the presented token, if that validates as a
      partial token, one whose second factor is still due. */
  datatype SecondWorld = SecondWorld(
    now: nat, partial: Option<User>, code: Code, loadOk: bool, issueOk: bool, failFault: Option<Lockout.Fault>)

  // ------------------------------------------------------------- failures at one instant

  function Failures(now: nat, n: nat): seq<Event> {
    seq(n, _ => Failed(now, true, true))
  }

  lemma {:induction false} FailuresStreak(now: nat, n: nat, duration: nat, k: nat)
    requires k <= n && duration > 0
    ensures StreakStart(Failures(now, n), duration, k) == 0
  {
    if k > 0 { FailuresStreak(now, n, duration, k - 1); }
  }

  /** As many failures as the threshold lock the account. */
  lemma FailuresLock(now: nat, rule: Rule)
    requires rule.threshold > 0 && rule.duration >= SECOND
    ensures Locked(Failures(now, rule.threshold), rule, now)
  {
    FailuresStreak(now, rule.threshold, rule.duration, rule.threshold);
    assert now / SECOND < (now + SECOND) / SECOND <= (now + rule.duration) / SECOND;
    JustLocked(Failures(now, rule.threshold), rule, now);
  }

  class Authenticator {
    const rate: RateLimiter
    const lockout: LockoutRedis

    ghost predicate Valid()
      reads this, rate, lockout
    {
      rate.Valid() && lockout.Valid()
    }

    constructor (rate: RateLimiter, lockout: LockoutRedis)
      requires rate.Valid() && lockout.Valid()
      ensures Valid() && this.rate == rate && this.lockout == lockout
    {
      this.rate, this.lockout := rate, lockout;
    }

    /** The account exists, is not archived, not locked, and within its own limit. */
    ghost predicate AccountOpen(row: Row, now: nat)
      reads rate, lockout
    {
      !row.archived && !Locked(lockout.Events(row.user), lockout.rule, now) && rate.Allows(Account(row.user.n), now)
    }

    ghost predicate Admitted(w: World)
      requires w.found.Found?
      reads rate, lockout
    {
      rate.Allows(Ip(w.ip), w.now) && AccountOpen(w.found.row, w.now)
    }

    method CheckAccount(row: Row, w: World) returns (r: Result<Row, Outcome>)
      requires Valid() && rate.clock <= w.now && lockout.clock <= w.now
      modifies rate
      ensures Valid()
      ensures r.Failure? ==> !HasTokens(r.error)
      ensures r.Success? ==> r.value == row && old(AccountOpen(row, w.now))
      ensures w.accountFault.None? && !w.lockFault && old(AccountOpen(row, w.now)) ==> r.Success?
    {
      if row.archived {
        return Failure(AccountArchived);
      }
      var locked := lockout.IsLocked(row.user, w.now, w.lockFault);
      if locked.Failure? {
        return Failure(Error);
      }
      if locked.value {
        return Failure(AccountLocked);
      }
      var account, _ := rate.AllowAccount(row.user.n, w.now, w.now, w.accountFault);
      if account.Failure? {
        return Failure(Error);
      }
      r := if account.value then Success(row) else Failure(RateLimited);
    }

    method Preflight(w: World) returns (r: Result<Row, Outcome>)
      requires Valid() && rate.clock <= w.now && lockout.clock <= w.now
      modifies rate
      ensures Valid()
      ensures r.Failure? ==> !HasTokens(r.error)
      ensures r.Success? ==> w.found == Found(r.value) && old(Admitted(w))
      ensures w.ipFault.None? && w.accountFault.None? && !w.lockFault && w.found.Found? && old(Admitted(w)) ==>
                r.Success?
    {
      var ip, _ := rate.AllowIP(w.ip, w.now, w.now, w.ipFault);
      if ip.Failure? {
        return Failure(Error);
      }
      if !ip.value {
        return Failure(RateLimited);
      }
      if w.found.NoTenant? || w.found.NoUser? || w.found.StoreError? {
        return Failure(InvalidCredentials);
      }
      assert AccountOpen(w.found.row, w.now) == old(AccountOpen(w.found.row, w.now));
      r := CheckAccount(w.found.row, w);
    }

    /** None when the caller may proceed. A wrong password is a failure event, a right one a reset. */
    method VerifyPassword(row: Row, w: World) returns (refused: Option<Outcome>)
      requires Valid() && lockout.clock <= w.now
      modifies lockout
      ensures Valid()
      ensures refused.Some? ==> !HasTokens(refused.value)
      ensures refused.None? <==> w.check.Right? && !row.mustChangePwd
      ensures w.check.NoHash? || w.check.BadHash? ==> lockout.events == old(lockout.events)
      ensures w.check.Wrong? && w.failFault.None? ==>
                exists x: Event :: x.Failed? && x.at == w.now &&
                  lockout.events == old(lockout.events)[row.user := old(lockout.Events(row.user)) + [x]]
      ensures w.check.Right? && !w.resetFault ==>
                lockout.events == old(lockout.events)[row.user := old(lockout.Events(row.user)) + [Cleared(w.now)]]
    {
      if w.check.NoHash? || w.check.BadHash? {
        return Some(InvalidCredentials);
      }
      if w.check.Wrong? {
        var justLocked := lockout.RegisterFailure(row.user, w.now, w.failFault);
        return Some(InvalidCredentials);
      }
      var cleared := lockout.Reset(row.user, w.now, w.resetFault);
      refused := if row.mustChangePwd then Some(PasswordExpired) else None;
    }

    /** No token leaves while the account is locked; without faults, tokens leave exactly when the
        caller is admitted, the password is right and need not be changed. */
    method Login(w: World) returns (o: Outcome)
      requires Valid() && rate.clock <= w.now && lockout.clock <= w.now
      modifies rate, lockout
      ensures Valid()
      ensures HasTokens(o) ==> w.found.Found? && w.found.row.user == o.user && old(Admitted(w)) && w.check.Right?
      ensures w.found.Found? && old(Locked(lockout.Events(w.found.row.user), lockout.rule, w.now)) ==>
                !HasTokens(o) && lockout.events == old(lockout.events)
      ensures w.ipFault.None? && w.accountFault.None? && !w.lockFault && w.issueOk ==>
                (HasTokens(o) <==> w.found.Found? && old(Admitted(w)) && w.check.Right? && !w.found.row.mustChangePwd)
      ensures HasTokens(o) ==> (o.SecondFactorDue? <==> w.found.row.totpEnabled)
    {
      var r := Preflight(w);
      if r.Failure? {
        return r.error;
      }
      var refused := VerifyPassword(r.value, w);
      if refused.Some? {
        return refused.value;
      }
      if !w.issueOk {
        return Error;
      }
      o := if r.value.totpEnabled then SecondFactorDue(r.value.user) else LoggedIn(r.value.user);
    }

    /** A full pair leaves exactly when the token is a partial one, the code is right and nothing outside fails:
        the lockout is neither asked nor reset. A wrong code counts as a failure of the account. */
    method LoginTotp(w: SecondWorld) returns (o: Outcome)
      requires Valid() && lockout.clock <= w.now
      modifies lockout
      ensures Valid() && lockout.clock <= w.now
      ensures HasTokens(o) <==> w.partial.Some? && w.code.CodeRight? && w.loadOk && w.issueOk
      ensures HasTokens(o) ==> o == LoggedIn(w.partial.value)
      ensures !(w.partial.Some? && w.code.CodeWrong?) ==> lockout.events == old(lockout.events)
      ensures w.partial.Some? && w.code.CodeWrong? && w.failFault.None? ==>
                lockout.events == old(lockout.events)[
                  w.partial.value := old(lockout.Events(w.partial.value)) + [Failed(w.now, true, true)]]
    {
      if w.partial.None? || w.code.CodeError? {
        return Error;
      }
      if w.code.CodeWrong? {
        var justLocked := lockout.RegisterFailure(w.partial.value, w.now, w.failFault);
        return InvalidCredentials;
      }
      if !w.loadOk || !w.issueOk {
        return Error;
      }
      o := LoggedIn(w.partial.value);
    }

    /** Wrong codes up to the threshold lock the account; the right code still gets the full pair. */
    method LockedYetLoggedIn(user: User, now: nat) returns (o: Outcome)
      requires Valid() && lockout.clock <= now && lockout.Events(user) == []
      requires lockout.rule.threshold > 0 && lockout.rule.duration >= SECOND
      modifies lockout
      ensures Valid() && Locked(lockout.Events(user), lockout.rule, now) && o == LoggedIn(user)
    {
      var wrong := SecondWorld(now, Some(user), CodeWrong, true, true, None);
      for i := 0 to lockout.rule.threshold
        invariant Valid() && lockout.clock <= now && lockout.Events(user) == Failures(now, i)
      {
        o := LoginTotp(wrong);
        assert Failures(now, i) + [Failed(now, true, true)] == Failures(now, i + 1);
      }
      FailuresLock(now, lockout.rule);
      o := LoginTotp(wrong.(code := CodeRight));
    }
  }
}
