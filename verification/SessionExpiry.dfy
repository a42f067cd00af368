/**
  How long revocation keys must live, exactly: shorter keys let an access token back in.
  A call validates its token first and asks for revocations later, so what counts is the
  token's lifetime plus the time a call may take.
 */
module SessionExpiry {
  import opened Basics
  import opened Session
  import opened SessionSafety
  import opened SessionRevocation

  /** A call that starts in `m` presents the token and is answered, by `u`, within `d`: it is let in. */
  ghost predicate LetIn(cfg: Config, s: Sys, m: Sys, u: Sys, t: Call, token: Token, d: nat) {
    && Reaches(cfg, s, m) && t !in s.pcs && t !in m.pcs
    && Reaches(cfg, Goto(m, t, FirstPc(cfg, m, Validate(token))), u) && u.now <= m.now + d
    && t in u.pcs && u.pcs[t] == Valid(token.claims)
  }

  /** A token of a session revoked just now is accepted by a call that starts later and takes at most `d`. */
  ghost predicate Accepted(cfg: Config, s: Sys, m: Sys, u: Sys, t: Call, token: Token, d: nat) {
    && Reachable(cfg, s) && JustRevoked(cfg, s, token.claims.sid)
    && token in s.issued && token.kind.Access? && token.claims.totpDone
    && LetIn(cfg, s, m, u, t, token, d)
  }

  /** Some access token that has passed every factor survives the revocation of its session. */
  ghost predicate Revives(cfg: Config, d: nat) {
    exists s, m, u, t, token :: Accepted(cfg, s, m, u, t, token, d)
  }

  lemma {:induction false} RefusedForGood(cfg: Config, states: seq<Sys>, steps: seq<Step>, n: nat, t: Call)
    requires IsPath(cfg, states, steps) && n <= |steps| && t in states[0].pcs && Returned(states[0].pcs[t])
    ensures t in states[n].pcs && states[n].pcs[t] == states[0].pcs[t]
  {
    if n > 0 {
      RefusedForGood(cfg, states, steps, n - 1, t);
      ReturnedStays(cfg, states[n - 1], steps[n - 1], t);
    }
  }

  /** Whoever is let in presented the token while it validated. */
  lemma LetInValidated(cfg: Config, s: Sys, m: Sys, u: Sys, t: Call, token: Token, d: nat)
    requires LetIn(cfg, s, m, u, t, token, d)
    ensures InTime(cfg, token.claims, m.now) && Reaches(cfg, s, u)
  {
    var first := Go(cfg, s, m, Start(t, Validate(token)));
    ReachesOn(cfg, s, first, u);
    var states, steps :| IsPath(cfg, states, steps) && states[0] == first && states[|steps|] == u;
    if Returned(first.pcs[t]) { RefusedForGood(cfg, states, steps, |steps|, t); }
  }

  lemma LaterNow(cfg: Config, s: Sys, m: Sys)
    requires Reaches(cfg, s, m)
    ensures s.now <= m.now
  {
    var states, steps :| IsPath(cfg, states, steps) && states[0] == s && states[|steps|] == m;
    PathTime(cfg, states, steps, |steps|);
  }

  /** ...which is no later than its lifetime and the leeway after the revocation. */
  lemma LetInEarly(cfg: Config, s: Sys, m: Sys, u: Sys, t: Call, token: Token, d: nat)
    requires Reachable(cfg, s) && token in s.issued && token.kind.Access? && token.claims.totpDone
    requires LetIn(cfg, s, m, u, t, token, d)
    ensures s.now <= m.now < s.now + cfg.accessTTL + cfg.leeway
  {
    LetInValidated(cfg, s, m, u, t, token, d);
    LaterNow(cfg, s, m);
    ReachesTimed(cfg, INITIAL, s);
    assert TokenTime(cfg, s.now, token);
  }

  /** While the key lasts, no call that starts after the revocation lets the token in. */
  lemma ShutWhileRevoked(cfg: Config, s: Sys, u: Sys, t: Call, c: Claims)
    requires Reachable(cfg, s) && c.sid in s.revoked && t !in s.pcs && Reaches(cfg, s, u) && u.now < s.revoked[c.sid]
    ensures t in u.pcs ==> u.pcs[t] != Valid(c)
  {
    ReachesTimed(cfg, INITIAL, s);
    var states, steps :| IsPath(cfg, states, steps) && states[0] == s && states[|steps|] == u;
    RevokedIsRefused(cfg, states, steps, |steps|, t, c);
  }

  lemma LongKeysHold(cfg: Config, d: nat)
    requires cfg.revokeTTL >= cfg.accessTTL + cfg.leeway + d
    ensures !Revives(cfg, d)
  {
    if s, m, u, t, token :| Accepted(cfg, s, m, u, t, token, d) {
      LetInEarly(cfg, s, m, u, t, token, d);
      LetInValidated(cfg, s, m, u, t, token, d);
      ShutWhileRevoked(cfg, s, u, t, token.claims);
    }
  }

  // ------------------------------------------------------------- the run that shows it

  function Next(t: Call): Step {
    Act(t, Id(3), Id(4), Id(5))
  }

  const WHO := Identity(User(0), 0, "", [])

  function Base(): Claims {
    Claims(WHO, Id(2), Id(1), true, 0, 0)
  }

  /** The first login, about to sign. */
  function Signing(s: Sys): Sys {
    s.(used := {Id(0), Id(1), Id(2)}, pcs := s.pcs[Call(0) := SignAccess(Base(), Id(0), None)])
  }

  lemma ReachSigning(cfg: Config, s: Sys)
    requires Reachable(cfg, s) && s.used == {} && Call(0) !in s.pcs
    ensures Reachable(cfg, Signing(s))
  {
    var u := Go(cfg, INITIAL, s, Start(Call(0), Login(WHO)));
    u := Go(cfg, INITIAL, u, Act(Call(0), Id(0), Id(1), Id(2)));
    assert u.pcs == Signing(s).pcs && u.used == Signing(s).used;
  }

  /** Signing and saving, with nothing signed before. */
  function SignedIn(cfg: Config, s: Sys): Sys {
    var access, refresh := AccessToken(cfg, s, Base(), Id(0)), RefreshToken(cfg, s, Base());
    var signed := s.(used := {Id(0), Id(1), Id(2)}, issued := {access, refresh});
    Goto(Saved(cfg, signed, refresh.claims), Call(0), LoggedIn(access, refresh))
  }

  lemma SignFirst(cfg: Config, s: Sys, m: Sys, t: Call, base: Claims, accessJti: Id)
    requires Reaches(cfg, s, m) && t in m.pcs && m.pcs[t] == SignAccess(base, accessJti, None)
    ensures var access := AccessToken(cfg, m, base, accessJti);
            Reaches(cfg, s, Goto(Signed(m, access), t, SignRefresh(base, access, None)))
  {
    var u := Go(cfg, s, m, Next(t));
  }

  lemma SignSecond(cfg: Config, s: Sys, m: Sys, t: Call, base: Claims, access: Token)
    requires Reaches(cfg, s, m) && t in m.pcs && m.pcs[t] == SignRefresh(base, access, None)
    ensures var refresh := RefreshToken(cfg, m, base);
            Reaches(cfg, s, Goto(Signed(m, refresh), t, SavePair(access, refresh)))
  {
    var u := Go(cfg, s, m, Next(t));
  }

  lemma SaveLast(cfg: Config, s: Sys, m: Sys, t: Call, access: Token, refresh: Token)
    requires Reaches(cfg, s, m) && t in m.pcs && m.pcs[t] == SavePair(access, refresh)
    ensures Reaches(cfg, s, Goto(Saved(cfg, m, refresh.claims), t, LoggedIn(access, refresh)))
  {
    var u := Go(cfg, s, m, Next(t));
  }

  /** Both tokens signed, with nothing signed before. */
  function Paired(cfg: Config, s: Sys): Sys {
    var access, refresh := AccessToken(cfg, s, Base(), Id(0)), RefreshToken(cfg, s, Base());
    Goto(Signing(s).(issued := {access, refresh}), Call(0), SavePair(access, refresh))
  }

  lemma ReachPaired(cfg: Config, s: Sys)
    requires Reachable(cfg, Signing(s)) && s.issued == {}
    ensures Reachable(cfg, Paired(cfg, s))
  {
    var access, refresh := AccessToken(cfg, s, Base(), Id(0)), RefreshToken(cfg, s, Base());
    SignFirst(cfg, INITIAL, Signing(s), Call(0), Base(), Id(0));
    var m := Goto(Signed(Signing(s), access), Call(0), SignRefresh(Base(), access, None));
    SignSecond(cfg, INITIAL, m, Call(0), Base(), access);
    m := Goto(Signed(m, refresh), Call(0), SavePair(access, refresh));
    assert m.issued == {access, refresh};
    assert m.pcs == Paired(cfg, s).pcs;
  }

  /** A login from a state in which nothing has been drawn or signed. */
  lemma LoginFrom(cfg: Config, s: Sys)
    requires Reachable(cfg, s) && s.used == {} && s.issued == {} && Call(0) !in s.pcs
    ensures Reachable(cfg, SignedIn(cfg, s))
  {
    ReachSigning(cfg, s);
    ReachPaired(cfg, s);
    var m := Paired(cfg, s);
    var access, refresh := m.pcs[Call(0)].access, m.pcs[Call(0)].refresh;
    SaveLast(cfg, INITIAL, m, Call(0), access, refresh);
    PairedThenIn(cfg, s, access, refresh);
  }

  lemma PairedThenIn(cfg: Config, s: Sys, access: Token, refresh: Token)
    requires Paired(cfg, s).pcs[Call(0)] == SavePair(access, refresh)
    ensures Goto(Saved(cfg, Paired(cfg, s), refresh.claims), Call(0), LoggedIn(access, refresh)) == SignedIn(cfg, s)
  {
    assert SignedIn(cfg, s).pcs == Paired(cfg, s).pcs[Call(0) := LoggedIn(access, refresh)];
  }

  lemma LoginAt(cfg: Config, now: nat)
    ensures Reachable(cfg, SignedIn(cfg, INITIAL.(now := now)))
  {
    Stay(cfg, INITIAL);
    var s := Go(cfg, INITIAL, INITIAL, Tick(now));
    LoginFrom(cfg, s);
  }

  /** A logout with a valid refresh token. */
  function LoggedOff(cfg: Config, s: Sys, t: Call, c: Claims): Sys {
    Goto(SidKilled(cfg, Dropped(s, c.jti), c.sid), t, LoggedOut)
  }

  lemma ReachDropped(cfg: Config, s: Sys, t: Call, token: Token)
    requires Reachable(cfg, s) && t !in s.pcs && Validates(cfg, s, token, Refresh)
    ensures Reachable(cfg, Goto(Dropped(s, token.claims.jti), t, RevokeLogout(token.claims)))
  {
    var u := Go(cfg, INITIAL, s, Start(t, Logout(token)));
    u := Go(cfg, INITIAL, u, Next(t));
    assert u == Goto(Dropped(s, token.claims.jti), t, RevokeLogout(token.claims));
  }

  lemma LogoutNow(cfg: Config, s: Sys, t: Call, token: Token)
    requires Reachable(cfg, s) && t !in s.pcs && Validates(cfg, s, token, Refresh)
    ensures Reachable(cfg, LoggedOff(cfg, s, t, token.claims))
  {
    ReachDropped(cfg, s, t, token);
    var m := Goto(Dropped(s, token.claims.jti), t, RevokeLogout(token.claims));
    var u := Go(cfg, INITIAL, m, Next(t));
    assert u == LoggedOff(cfg, s, t, token.claims);
  }

  /** A token that is not revoked passes both checks. */
  lemma PassChecks(cfg: Config, s: Sys, m: Sys, t: Call, c: Claims) returns (u: Sys)
    requires Reaches(cfg, s, m) && t in m.pcs && m.pcs[t] == CheckSid(c, Access)
    requires !SidRevoked(m, c.sid) && !IsCutOff(m, c)
    ensures Reaches(cfg, s, u) && t in u.pcs && u.pcs[t] == Valid(c) && u.now == m.now
  {
    u := Go(cfg, s, m, Next(t));
    assert u == Goto(m, t, CheckCutoff(c, Access));
    u := Go(cfg, s, u, Next(t));
  }

  /** Wait for `x`, then present an access token; the call reaches its checks after another `d`. */
  lemma ValidateAfter(cfg: Config, s: Sys, x: nat, d: nat, t: Call, token: Token) returns (m: Sys, u: Sys)
    requires t !in s.pcs && token in s.issued && token.kind.Access? && InTime(cfg, token.claims, s.now + x)
    requires !SidRevoked(s.(now := s.now + x + d), token.claims.sid)
    requires !IsCutOff(s.(now := s.now + x + d), token.claims)
    ensures LetIn(cfg, s, m, u, t, token, d) && m == s.(now := s.now + x)
  {
    Stay(cfg, s);
    m := Go(cfg, s, s, Tick(x));
    u := AnsweredAfter(cfg, m, d, t, token.claims);
  }

  lemma AnsweredAfter(cfg: Config, m: Sys, d: nat, t: Call, c: Claims) returns (u: Sys)
    requires !SidRevoked(m.(now := m.now + d), c.sid) && !IsCutOff(m.(now := m.now + d), c)
    ensures Reaches(cfg, Goto(m, t, CheckSid(c, Access)), u) && u.now == m.now + d
    ensures t in u.pcs && u.pcs[t] == Valid(c)
  {
    var first := Goto(m, t, CheckSid(c, Access));
    Stay(cfg, first);
    u := Go(cfg, first, first, Tick(d));
    u := PassChecks(cfg, first, u, t, c);
  }

  /** An instant from which the access lifetime ends on a whole second. */
  lemma AlignedInstant(ttl: nat) returns (now: nat)
    ensures (now + ttl) / SECOND * SECOND == now + ttl
  {
    FloorBelow(ttl);
    now := if ttl == ttl / SECOND * SECOND then 0 else ttl / SECOND * SECOND + SECOND - ttl;
    assert now + ttl == ttl / SECOND * SECOND || now + ttl == (ttl / SECOND + 1) * SECOND;
  }

  lemma ShortKeysFail(cfg: Config, d: nat)
    requires 0 < cfg.accessTTL + cfg.leeway && cfg.revokeTTL < cfg.accessTTL + cfg.leeway + d
               && cfg.refreshTTL >= SECOND
    ensures Revives(cfg, d)
  {
    var now := AlignedInstant(cfg.accessTTL);
    LoginAt(cfg, now);
    var s := SignedIn(cfg, INITIAL.(now := now));
    var access, refresh := AccessToken(cfg, s, Base(), Id(0)), RefreshToken(cfg, s, Base());
    FloorBelow(now);
    FloorBelow(now + cfg.refreshTTL);
    LogoutNow(cfg, s, Call(1), refresh);
    s := LoggedOff(cfg, s, Call(1), refresh.claims);
    var m, u := ValidateAfter(cfg, s, cfg.accessTTL + cfg.leeway - 1, d, Call(2), access);
    assert Accepted(cfg, s, m, u, Call(2), access, d);
  }

  /** If no call takes longer than `d`, revoked sessions stay closed to access tokens if and only if revocation
      keys live at least as long as access tokens plus the leeway plus `d`. */
  lemma RevivesIff(cfg: Config, d: nat)
    requires cfg.refreshTTL >= SECOND
    ensures Revives(cfg, d) <==> 0 < cfg.accessTTL + cfg.leeway && cfg.revokeTTL < cfg.accessTTL + cfg.leeway + d
  {
    if cfg.accessTTL + cfg.leeway == 0 {
      if s, m, u, t, token :| Accepted(cfg, s, m, u, t, token, d) {
        LetInEarly(cfg, s, m, u, t, token, d);
      }
    } else if cfg.revokeTTL < cfg.accessTTL + cfg.leeway + d {
      ShortKeysFail(cfg, d);
    } else {
      LongKeysHold(cfg, d);
    }
  }

  /** So no key lifetime is enough for calls of any length: one that takes as long as the key lives, from an
      instant at which the token still validates, is let in. */
  lemma SlowCallIsLetIn(cfg: Config)
    requires 0 < cfg.accessTTL + cfg.leeway && cfg.refreshTTL >= SECOND
    ensures Revives(cfg, cfg.revokeTTL)
  {
    ShortKeysFail(cfg, cfg.revokeTTL);
  }

  // --------------------------------------------------------------- the user cutoff

  /** A token under a cutoff just written is accepted by a call that starts later and takes at most `d`. */
  ghost predicate AcceptedAfterCut(cfg: Config, s: Sys, m: Sys, u: Sys, t: Call, token: Token, d: nat) {
    && Reachable(cfg, s) && JustCut(cfg, s, token.claims.who.user)
    && token.claims.iat <= s.cutoffs[token.claims.who.user].second
    && token in s.issued && token.kind.Access? && token.claims.totpDone
    && LetIn(cfg, s, m, u, t, token, d)
  }

  /** ...with no call still to write an earlier second. */
  ghost predicate RevivesAfterCut(cfg: Config, d: nat) {
    exists s, m, u, t, token ::
      AcceptedAfterCut(cfg, s, m, u, t, token, d) && !StaleCut(s, token.claims.who.user, token.claims.iat)
  }

  /** While a covering cutoff lasts, no call that starts after it lets the token in. */
  lemma ShutWhileCut(cfg: Config, s: Sys, u: Sys, t: Call, c: Claims)
    requires Reachable(cfg, s) && Covered(s, c.who.user, c.iat) && t !in s.pcs
    requires Reaches(cfg, s, u) && u.now < s.cutoffs[c.who.user].until
    ensures t in u.pcs ==> u.pcs[t] != Valid(c)
  {
    ReachesTimed(cfg, INITIAL, s);
    var states, steps :| IsPath(cfg, states, steps) && states[0] == s && states[|steps|] == u;
    CutOffIsRefused(cfg, states, steps, |steps|, t, c);
  }

  lemma LongCutoffsHold(cfg: Config, d: nat)
    requires cfg.cutoffTTL >= cfg.accessTTL + cfg.leeway + d
    ensures !RevivesAfterCut(cfg, d)
  {
    if s, m, u, t, token :|
      AcceptedAfterCut(cfg, s, m, u, t, token, d) && !StaleCut(s, token.claims.who.user, token.claims.iat) {
      LetInEarly(cfg, s, m, u, t, token, d);
      LetInValidated(cfg, s, m, u, t, token, d);
      ShutWhileCut(cfg, s, u, t, token.claims);
    }
  }

  /** A forced logout that reads the clock and writes at once. */
  function Cut(cfg: Config, s: Sys, t: Call, user: User): Sys {
    Goto(UserKilled(cfg, s, user, s.now / SECOND), t, UserCut)
  }

  lemma ReachCutWrite(cfg: Config, s: Sys, t: Call, user: User)
    requires Reachable(cfg, s) && t !in s.pcs
    ensures Reachable(cfg, Goto(s, t, CutWrite(user, s.now / SECOND)))
  {
    var u := Go(cfg, INITIAL, s, Start(t, RevokeAll(user)));
    u := Go(cfg, INITIAL, u, Next(t));
    assert u == Goto(s, t, CutWrite(user, s.now / SECOND));
  }

  lemma CutNow(cfg: Config, s: Sys, t: Call, user: User)
    requires Reachable(cfg, s) && t !in s.pcs
    ensures Reachable(cfg, Cut(cfg, s, t, user))
  {
    ReachCutWrite(cfg, s, t, user);
    var m := Goto(s, t, CutWrite(user, s.now / SECOND));
    ReachCutDone(cfg, m, t, user, s.now / SECOND);
    assert Goto(UserKilled(cfg, m, user, s.now / SECOND), t, UserCut).pcs == Cut(cfg, s, t, user).pcs;
  }

  lemma ReachCutDone(cfg: Config, m: Sys, t: Call, user: User, second: nat)
    requires Reachable(cfg, m) && t in m.pcs && m.pcs[t] == CutWrite(user, second)
    ensures Reachable(cfg, Goto(UserKilled(cfg, m, user, second), t, UserCut))
  {
    var u := Go(cfg, INITIAL, m, Next(t));
  }

  lemma ShortCutoffsFail(cfg: Config, d: nat)
    requires 0 < cfg.accessTTL + cfg.leeway && cfg.cutoffTTL < cfg.accessTTL + cfg.leeway + d
    ensures RevivesAfterCut(cfg, d)
  {
    var now := AlignedInstant(cfg.accessTTL);
    LoginAt(cfg, now);
    var s := SignedIn(cfg, INITIAL.(now := now));
    var access := AccessToken(cfg, s, Base(), Id(0));
    FloorBelow(now);
    CutNow(cfg, s, Call(1), User(0));
    s := Cut(cfg, s, Call(1), User(0));
    var m, u := ValidateAfter(cfg, s, cfg.accessTTL + cfg.leeway - 1, d, Call(2), access);
    assert AcceptedAfterCut(cfg, s, m, u, Call(2), access, d);
    assert !StaleCut(s, User(0), access.claims.iat);
  }

  /** Once no call is still to write an earlier second, and if no call takes longer than `d`, a forced logout
      keeps access tokens out if and only if the cutoff key lives at least as long as access tokens plus the
      leeway plus `d`. */
  lemma RevivesAfterCutIff(cfg: Config, d: nat)
    ensures RevivesAfterCut(cfg, d) <==>
            0 < cfg.accessTTL + cfg.leeway && cfg.cutoffTTL < cfg.accessTTL + cfg.leeway + d
  {
    if cfg.accessTTL + cfg.leeway == 0 {
      if s, m, u, t, token :|
        AcceptedAfterCut(cfg, s, m, u, t, token, d) && !StaleCut(s, token.claims.who.user, token.claims.iat) {
        LetInEarly(cfg, s, m, u, t, token, d);
      }
    } else if cfg.cutoffTTL < cfg.accessTTL + cfg.leeway + d {
      ShortCutoffsFail(cfg, d);
    } else {
      LongCutoffsHold(cfg, d);
    }
  }

  // ------------------------------------------------------------ two forced logouts

  /** A forced logout has read second 0, a login follows in second 1, and another forced logout cuts it off. */
  function Overtaken(cfg: Config): Sys {
    Cut(cfg, SignedIn(cfg, INITIAL.(now := SECOND, pcs := map[Call(3) := CutWrite(User(0), 0)])), Call(1), User(0))
  }

  lemma ReachOvertaken(cfg: Config)
    ensures Reachable(cfg, Overtaken(cfg))
  {
    Stay(cfg, INITIAL);
    ReachCutWrite(cfg, INITIAL, Call(3), User(0));
    var s := Go(cfg, INITIAL, Goto(INITIAL, Call(3), CutWrite(User(0), 0)), Tick(SECOND));
    assert s.pcs == map[Call(3) := CutWrite(User(0), 0)];
    LoginFrom(cfg, s);
    CutNow(cfg, SignedIn(cfg, s), Call(1), User(0));
  }

  lemma LateWrite(cfg: Config) returns (u: Sys)
    ensures Reaches(cfg, Overtaken(cfg), u)
    ensures u == Goto(UserKilled(cfg, Overtaken(cfg), User(0), 0), Call(3), UserCut)
  {
    u := StaleWrite(cfg, Overtaken(cfg), Call(3));
  }

  /** The first one writes last: the token is accepted at once, however long the keys live. */
  lemma StaleCutAccepts(cfg: Config) returns (s: Sys, m: Sys, u: Sys, token: Token)
    requires cfg.accessTTL >= SECOND
    ensures AcceptedAfterCut(cfg, s, m, u, Call(2), token, 0) && m.now == s.now
    ensures StaleCut(s, token.claims.who.user, token.claims.iat)
  {
    ReachOvertaken(cfg);
    s := Overtaken(cfg);
    token := AccessToken(cfg, s, Base(), Id(0));
    assert token.claims.iat == 1;
    assert s.pcs[Call(3)] == CutWrite(User(0), 0);
    var late := LateWrite(cfg);
    FloorBelow(SECOND + cfg.accessTTL);
    m, u := ValidateAfter(cfg, late, 0, 0, Call(2), token);
    ReachesOn(cfg, s, late, m);
  }
}
