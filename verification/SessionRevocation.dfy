/** How long a revocation lasts against how long a token would validate. */
module SessionRevocation {
  import opened Basics
  import opened Session
  import opened SessionSafety

  /** How long the issuer lets a token live. */
  function Lifetime(cfg: Config, token: Token): nat {
    if token.kind.Refresh? then cfg.refreshTTL else if token.claims.totpDone then cfg.accessTTL else cfg.partialTTL
  }

  ghost predicate KeyTimes(cfg: Config, s: Sys) {
    && (forall sid :: sid in s.revoked ==> s.revoked[sid] <= s.now + cfg.revokeTTL)
    && (forall user :: user in s.cutoffs ==>
          s.cutoffs[user].until <= s.now + cfg.cutoffTTL && s.cutoffs[user].second * SECOND <= s.now)
    && (forall jti :: jti in s.whitelist ==> s.whitelist[jti].until <= s.now + cfg.storeTTL)
  }

  /** Issued by now, and expiring within its lifetime. */
  predicate TokenTime(cfg: Config, now: nat, tok: Token) {
    tok.claims.iat * SECOND <= now && tok.claims.exp * SECOND <= now + Lifetime(cfg, tok)
  }

  ghost predicate TokenTimes(cfg: Config, s: Sys) {
    forall tok :: tok in s.issued ==> TokenTime(cfg, s.now, tok)
  }

  /** A second read from the clock is not in the future. */
  ghost predicate ReadTimes(s: Sys) {
    forall t :: t in s.pcs && s.pcs[t].CutWrite? ==> s.pcs[t].second * SECOND <= s.now
  }

  ghost predicate TimedInv(cfg: Config, s: Sys) {
    Inv(s) && KeyTimes(cfg, s) && TokenTimes(cfg, s) && ReadTimes(s)
  }

  lemma FloorBelow(n: nat)
    ensures n / SECOND * SECOND <= n < n / SECOND * SECOND + SECOND
  {}

  lemma StampedTime(cfg: Config, c: Claims, now: nat, ttl: nat)
    ensures Stamp(c, now, ttl).exp * SECOND <= now + ttl && Stamp(c, now, ttl).iat * SECOND <= now
  {
    FloorBelow(now);
    FloorBelow(now + ttl);
  }

  lemma SavedTimes(cfg: Config, s: Sys, c: Claims)
    requires KeyTimes(cfg, s)
    ensures KeyTimes(cfg, Saved(cfg, s, c))
  {}

  lemma RotatedTimes(cfg: Config, s: Sys, t: Call, c: Claims, jti: Id)
    requires KeyTimes(cfg, s)
    ensures KeyTimes(cfg, Rotated(cfg, s, t, c, jti))
  {
    FloorBelow(cfg.storeTTL);
  }

  lemma SidKilledTimes(cfg: Config, s: Sys, sid: Id)
    requires KeyTimes(cfg, s)
    ensures KeyTimes(cfg, SidKilled(cfg, s, sid)) && KeysGrow(s, SidKilled(cfg, s, sid))
  {}

  lemma UserKilledTimes(cfg: Config, s: Sys, user: User, second: nat)
    requires KeyTimes(cfg, s) && second * SECOND <= s.now
    ensures KeyTimes(cfg, UserKilled(cfg, s, user, second)) && KeysGrow(s, UserKilled(cfg, s, user, second))
  {}

  /** Time goes on, and no key is ever given an earlier end. */
  ghost predicate KeysGrow(s: Sys, u: Sys) {
    && s.now <= u.now
    && (forall sid :: sid in s.revoked ==> sid in u.revoked && s.revoked[sid] <= u.revoked[sid])
    && (forall user :: user in s.cutoffs ==> user in u.cutoffs && s.cutoffs[user].until <= u.cutoffs[user].until)
  }

  lemma KillEffect(cfg: Config, s: Sys, t: Call, a: Id, b: Id, c: Id)
    requires t in s.pcs && Kills(s.pcs[t])
    ensures Effect(cfg, s, t, a, b, c) ==
            if s.pcs[t].CutWrite? then UserKilled(cfg, s, s.pcs[t].user, s.pcs[t].second)
            else SidKilled(cfg, s, s.pcs[t].claims.sid)
  {}

  lemma ListEffect(cfg: Config, s: Sys, t: Call, a: Id, b: Id, c: Id)
    requires KeyTimes(cfg, s) && t in s.pcs && !Kills(s.pcs[t])
    ensures KeyTimes(cfg, Effect(cfg, s, t, a, b, c))
  {
    if Stores(s.pcs[t]) {
      StoreEffect(cfg, s, t, a, b, c);
    } else {
      ListSame(cfg, s, t, a, b, c);
    }
  }

  predicate Stores(pc: PC) {
    pc.SavePair? || pc.Rotate? || pc.DropRefresh?
  }

  lemma ListSame(cfg: Config, s: Sys, t: Call, a: Id, b: Id, c: Id)
    requires t in s.pcs && !Stores(s.pcs[t])
    ensures Effect(cfg, s, t, a, b, c).whitelist == s.whitelist
  {}

  lemma StoreEffect(cfg: Config, s: Sys, t: Call, a: Id, b: Id, c: Id)
    requires KeyTimes(cfg, s) && t in s.pcs && Stores(s.pcs[t])
    ensures KeyTimes(cfg, Effect(cfg, s, t, a, b, c))
  {
    match s.pcs[t]
    case SavePair(_, refresh) => SavedTimes(cfg, s, refresh.claims);
    case Rotate(claims) => RotatedTimes(cfg, s, t, claims, b);
    case DropRefresh(_) =>
  }

  lemma KeysEffect(cfg: Config, s: Sys, t: Call, a: Id, b: Id, c: Id)
    requires KeyTimes(cfg, s) && ReadTimes(s) && t in s.pcs
    ensures KeyTimes(cfg, Effect(cfg, s, t, a, b, c)) && KeysGrow(s, Effect(cfg, s, t, a, b, c))
  {
    var pc := s.pcs[t];
    if Kills(pc) {
      KillEffect(cfg, s, t, a, b, c);
      if pc.CutWrite? { UserKilledTimes(cfg, s, pc.user, pc.second); } else { SidKilledTimes(cfg, s, pc.claims.sid); }
    } else {
      ListEffect(cfg, s, t, a, b, c);
    }
  }

  /** A call is about to write a cutoff second only after reading it from the clock. */
  lemma ReadFrom(cfg: Config, s: Sys, t: Call, a: Id, b: Id, c: Id)
    requires t in s.pcs && NextPc(cfg, s, t, a, b, c).CutWrite? && !Returned(s.pcs[t])
    ensures s.pcs[t] == CutUser(NextPc(cfg, s, t, a, b, c).user) && NextPc(cfg, s, t, a, b, c).second == s.now / SECOND
  {}

  lemma ReadStep(cfg: Config, s: Sys, step: Step)
    requires ReadTimes(s) && Enabled(s, step)
    ensures ReadTimes(Apply(cfg, s, step))
  {
    FloorBelow(s.now);
    if step.Act? && NextPc(cfg, s, step.t, step.a, step.b, step.c).CutWrite? {
      ReadFrom(cfg, s, step.t, step.a, step.b, step.c);
    }
  }

  function NewTokens(cfg: Config, s: Sys, t: Call, a: Id, c: Id): set<Token>
    requires t in s.pcs
  {
    match s.pcs[t]
    case MintPartial(who) => {PartialToken(cfg, s, who, a, c)}
    case SignAccess(base, accessJti, _) => {AccessToken(cfg, s, base, accessJti)}
    case SignRefresh(base, _, _) => {RefreshToken(cfg, s, base)}
    case _ => {}
  }

  lemma IssuedEffect(cfg: Config, s: Sys, t: Call, a: Id, b: Id, c: Id)
    requires t in s.pcs
    ensures Effect(cfg, s, t, a, b, c).issued == s.issued + NewTokens(cfg, s, t, a, c)
  {
    if !Signs(s.pcs[t]) { IssuedSame(cfg, s, t, a, b, c); }
  }

  predicate Signs(pc: PC) {
    pc.MintPartial? || pc.SignAccess? || pc.SignRefresh?
  }

  lemma IssuedSame(cfg: Config, s: Sys, t: Call, a: Id, b: Id, c: Id)
    requires t in s.pcs && !Signs(s.pcs[t])
    ensures Effect(cfg, s, t, a, b, c).issued == s.issued
  {}

  lemma NewTokenTimes(cfg: Config, s: Sys, t: Call, a: Id, c: Id, token: Token)
    requires Inv(s) && t in s.pcs && token in NewTokens(cfg, s, t, a, c)
    ensures TokenTime(cfg, s.now, token)
  {
    assert PcInv(s, t, s.pcs[t]);
    StampedTime(cfg, token.claims, s.now, Lifetime(cfg, token));
  }

  lemma TokenTimesEffect(cfg: Config, s: Sys, t: Call, a: Id, b: Id, c: Id)
    requires Inv(s) && TokenTimes(cfg, s) && t in s.pcs
    ensures TokenTimes(cfg, Effect(cfg, s, t, a, b, c))
  {
    IssuedEffect(cfg, s, t, a, b, c);
    forall token | token in NewTokens(cfg, s, t, a, c) ensures TokenTime(cfg, s.now, token) {
      NewTokenTimes(cfg, s, t, a, c, token);
    }
  }

  lemma TimedStep(cfg: Config, s: Sys, step: Step)
    requires TimedInv(cfg, s) && Enabled(s, step)
    ensures TimedInv(cfg, Apply(cfg, s, step))
  {
    InvStep(cfg, s, step);
    ReadStep(cfg, s, step);
    if step.Act? {
      KeysEffect(cfg, s, step.t, step.a, step.b, step.c);
      TokenTimesEffect(cfg, s, step.t, step.a, step.b, step.c);
    } else if step.Lost? {
      KeysEffect(cfg, s, step.t, NO_ID, NO_ID, NO_ID);
      TokenTimesEffect(cfg, s, step.t, NO_ID, NO_ID, NO_ID);
    }
  }

  lemma KeysStep(cfg: Config, s: Sys, step: Step)
    requires KeyTimes(cfg, s) && ReadTimes(s) && Enabled(s, step)
    ensures KeysGrow(s, Apply(cfg, s, step))
  {
    if step.Act? { KeysEffect(cfg, s, step.t, step.a, step.b, step.c); }
    if step.Lost? { KeysEffect(cfg, s, step.t, NO_ID, NO_ID, NO_ID); }
  }

  // ----------------------------------------------------------------------- paths

  ghost predicate IsPath(cfg: Config, states: seq<Sys>, steps: seq<Step>) {
    && |states| == |steps| + 1
    && forall i :: 0 <= i < |steps| ==> Enabled(states[i], steps[i]) && states[i + 1] == Apply(cfg, states[i], steps[i])
  }

  ghost predicate Reaches(cfg: Config, s: Sys, u: Sys) {
    exists states, steps :: IsPath(cfg, states, steps) && states[0] == s && states[|steps|] == u
  }

  ghost predicate Reachable(cfg: Config, s: Sys) {
    Reaches(cfg, INITIAL, s)
  }

  lemma Stay(cfg: Config, s: Sys)
    ensures Reaches(cfg, s, s)
  {
    assert IsPath(cfg, [s], []);
  }

  lemma TimePasses(cfg: Config, s: Sys, step: Step)
    requires Enabled(s, step)
    ensures s.now <= Apply(cfg, s, step).now
  {}

  lemma {:induction false} PathTime(cfg: Config, states: seq<Sys>, steps: seq<Step>, n: nat)
    requires IsPath(cfg, states, steps) && n <= |steps|
    ensures states[0].now <= states[n].now
  {
    if n > 0 {
      PathTime(cfg, states, steps, n - 1);
      TimePasses(cfg, states[n - 1], steps[n - 1]);
    }
  }

  /** An answer is final. */
  lemma ReturnedStays(cfg: Config, s: Sys, step: Step, t: Call)
    requires Enabled(s, step) && t in s.pcs && Returned(s.pcs[t])
    ensures t in Apply(cfg, s, step).pcs && Apply(cfg, s, step).pcs[t] == s.pcs[t]
  {}

  /** Paths compose. */
  lemma ReachesOn(cfg: Config, s: Sys, m: Sys, u: Sys)
    requires Reaches(cfg, s, m) && Reaches(cfg, m, u)
    ensures Reaches(cfg, s, u)
  {
    var states, steps :| IsPath(cfg, states, steps) && states[0] == s && states[|steps|] == m;
    var states', steps' :| IsPath(cfg, states', steps') && states'[0] == m && states'[|steps'|] == u;
    var path, all := states + states'[1..], steps + steps';
    forall i | 0 <= i < |all| ensures Enabled(path[i], all[i]) && path[i + 1] == Apply(cfg, path[i], all[i]) {
      if i >= |steps| { assert path[i] == states'[i - |steps|] && path[i + 1] == states'[i + 1 - |steps|]; }
    }
    assert IsPath(cfg, path, all);
  }

  lemma Go(cfg: Config, s: Sys, m: Sys, step: Step) returns (u: Sys)
    requires Reaches(cfg, s, m) && Enabled(m, step)
    ensures u == Apply(cfg, m, step) && Reaches(cfg, s, u)
  {
    u := Apply(cfg, m, step);
    var states, steps :| IsPath(cfg, states, steps) && states[0] == s && states[|steps|] == m;
    var longer, more := states + [u], steps + [step];
    forall i | 0 <= i < |more| ensures Enabled(longer[i], more[i]) && longer[i + 1] == Apply(cfg, longer[i], more[i]) {
      if i < |steps| { assert longer[i] == states[i] && longer[i + 1] == states[i + 1] && more[i] == steps[i]; }
    }
    assert IsPath(cfg, longer, more);
  }

  lemma {:induction false} PathTimed(cfg: Config, states: seq<Sys>, steps: seq<Step>, n: nat)
    requires IsPath(cfg, states, steps) && n <= |steps| && TimedInv(cfg, states[0])
    ensures TimedInv(cfg, states[n])
  {
    if n > 0 {
      PathTimed(cfg, states, steps, n - 1);
      TimedStep(cfg, states[n - 1], steps[n - 1]);
    }
  }

  lemma ReachesTimed(cfg: Config, s: Sys, u: Sys)
    requires TimedInv(cfg, s) && Reaches(cfg, s, u)
    ensures TimedInv(cfg, u)
  {
    var states, steps :| IsPath(cfg, states, steps) && states[0] == s && states[|steps|] == u;
    PathTimed(cfg, states, steps, |steps|);
  }

  lemma {:induction false} PathKeys(cfg: Config, states: seq<Sys>, steps: seq<Step>, n: nat)
    requires IsPath(cfg, states, steps) && n <= |steps| && TimedInv(cfg, states[0])
    ensures KeysGrow(states[0], states[n])
  {
    if n > 0 {
      PathKeys(cfg, states, steps, n - 1);
      PathTimed(cfg, states, steps, n - 1);
      KeysStep(cfg, states[n - 1], steps[n - 1]);
      KeysGrowOn(states[0], states[n - 1], states[n]);
    }
  }

  lemma KeysGrowOn(s: Sys, m: Sys, u: Sys)
    requires KeysGrow(s, m) && KeysGrow(m, u)
    ensures KeysGrow(s, u)
  {}

  // ------------------------------------------------------------ while the key lasts

  /** The claims a call has taken past the session check. */
  function PassedSid(pc: PC): Option<Claims> {
    match pc
    case CheckCutoff(c, _) => Some(c)
    case _ => PassedBoth(pc)
  }

  /** The claims a call has taken past both revocation checks. */
  function PassedBoth(pc: PC): Option<Claims> {
    match pc
    case Rotate(c) => Some(c)
    case RevokeReplayed(c) => Some(c)
    case Valid(c) => Some(c)
    case _ => Redeeming(pc)
  }

  /** The claims whose id a call has rotated away. */
  function Redeeming(pc: PC): Option<Claims> {
    match pc
    case SignAccess(_, _, from) => from
    case SignRefresh(_, _, from) => from
    case Refreshed(c, _, _) => Some(c)
    case _ => None
  }

  predicate MadeSidCheck(s: Sys, pc: PC, x: Claims) {
    pc.CheckSid? && pc.claims == x && !SidRevoked(s, x.sid)
  }

  predicate MadeCutoffCheck(s: Sys, pc: PC, x: Claims) {
    pc.CheckCutoff? && pc.claims == x && !IsCutOff(s, x)
  }

  predicate MadeRotation(s: Sys, pc: PC, x: Claims) {
    pc == Rotate(x) && Listed(s, x.jti)
  }

  /** A call gets past a check only by making it. */
  lemma Passing(cfg: Config, s: Sys, t: Call, a: Id, b: Id, c: Id, x: Claims)
    requires t in s.pcs
    ensures var pc, next := s.pcs[t], NextPc(cfg, s, t, a, b, c);
            && (PassedSid(next) == Some(x) ==> PassedSid(pc) == Some(x) || MadeSidCheck(s, pc, x))
            && (PassedBoth(next) == Some(x) ==> PassedBoth(pc) == Some(x) || MadeCutoffCheck(s, pc, x))
            && (Redeeming(next) == Some(x) ==> Redeeming(pc) == Some(x) || MadeRotation(s, pc, x))
  {}

  lemma PassingStep(cfg: Config, s: Sys, step: Step, t: Call, x: Claims)
    requires Enabled(s, step) && t in Apply(cfg, s, step).pcs
    ensures var next := Apply(cfg, s, step).pcs[t];
            if t !in s.pcs then PassedSid(next).None?
            else
              && (PassedSid(next) == Some(x) ==> PassedSid(s.pcs[t]) == Some(x) || MadeSidCheck(s, s.pcs[t], x))
              && (PassedBoth(next) == Some(x) ==> PassedBoth(s.pcs[t]) == Some(x) || MadeCutoffCheck(s, s.pcs[t], x))
              && (Redeeming(next) == Some(x) ==> Redeeming(s.pcs[t]) == Some(x) || MadeRotation(s, s.pcs[t], x))
  {
    if step.Act? && step.t == t { Passing(cfg, s, t, step.a, step.b, step.c, x); }
  }

  /** From the moment a session is revoked until its key runs out, no call takes a token of it past
      the session check; neither Refresh nor ValidateAccessToken accepts one. */
  lemma {:induction false} RevokedIsRefused(cfg: Config, states: seq<Sys>, steps: seq<Step>, n: nat, t: Call, c: Claims)
    requires IsPath(cfg, states, steps) && n <= |steps| && TimedInv(cfg, states[0])
    requires c.sid in states[0].revoked && states[n].now < states[0].revoked[c.sid]
    requires t in states[0].pcs ==> PassedSid(states[0].pcs[t]) != Some(c)
    ensures t in states[n].pcs ==> PassedSid(states[n].pcs[t]) != Some(c)
  {
    if n > 0 && t in states[n].pcs {
      TimePasses(cfg, states[n - 1], steps[n - 1]);
      PathKeys(cfg, states, steps, n - 1);
      RevokedIsRefused(cfg, states, steps, n - 1, t, c);
      PassingStep(cfg, states[n - 1], steps[n - 1], t, c);
    }
  }

  // ----------------------------------------------------------------- user cutoffs

  /** A call that read the clock before `second` is still to write the user's cutoff. */
  ghost predicate StaleCut(s: Sys, user: User, second: nat) {
    exists t :: t in s.pcs && s.pcs[t].CutWrite? && s.pcs[t].user == user && s.pcs[t].second < second
  }

  /** The user's tokens up to `second` are cut off, and no call under way is going to take that back. */
  ghost predicate Covered(s: Sys, user: User, second: nat) {
    user in s.cutoffs && second <= s.cutoffs[user].second && !StaleCut(s, user, second)
  }

  /** Whoever reads the clock from now on reads a later second. */
  lemma CoveredAct(cfg: Config, s: Sys, t: Call, a: Id, b: Id, c: Id, user: User, second: nat)
    requires KeyTimes(cfg, s) && Covered(s, user, second) && t in s.pcs && !Returned(s.pcs[t])
    ensures Covered(Goto(Effect(cfg, s, t, a, b, c), t, NextPc(cfg, s, t, a, b, c)), user, second)
  {
    FloorBelow(s.now);
    if NextPc(cfg, s, t, a, b, c).CutWrite? { ReadFrom(cfg, s, t, a, b, c); }
    if Kills(s.pcs[t]) { KillEffect(cfg, s, t, a, b, c); }
  }

  lemma CoveredStep(cfg: Config, s: Sys, step: Step, user: User, second: nat)
    requires KeyTimes(cfg, s) && Covered(s, user, second) && Enabled(s, step)
    ensures Covered(Apply(cfg, s, step), user, second)
  {
    if step.Act? { CoveredAct(cfg, s, step.t, step.a, step.b, step.c, user, second); }
    if step.Lost? { CoveredLost(cfg, s, step.t, user, second); }
  }

  lemma CoveredLost(cfg: Config, s: Sys, t: Call, user: User, second: nat)
    requires KeyTimes(cfg, s) && Covered(s, user, second) && t in s.pcs && Lossy(s.pcs[t])
    ensures Covered(Goto(Effect(cfg, s, t, NO_ID, NO_ID, NO_ID), t, Refused(Failed)), user, second)
  {
    CoveredAct(cfg, s, t, NO_ID, NO_ID, NO_ID, user, second);
  }

  lemma {:induction false} PathCovered(cfg: Config, states: seq<Sys>, steps: seq<Step>, n: nat, user: User, second: nat)
    requires IsPath(cfg, states, steps) && n <= |steps| && TimedInv(cfg, states[0]) && Covered(states[0], user, second)
    ensures Covered(states[n], user, second)
  {
    if n > 0 {
      PathCovered(cfg, states, steps, n - 1, user, second);
      PathTimed(cfg, states, steps, n - 1);
      CoveredStep(cfg, states[n - 1], steps[n - 1], user, second);
    }
  }

  lemma CutOffStops(cfg: Config, s: Sys, step: Step, t: Call, c: Claims)
    requires Enabled(s, step) && IsCutOff(s, c) && (t in s.pcs ==> PassedBoth(s.pcs[t]) != Some(c))
    ensures t in Apply(cfg, s, step).pcs ==> PassedBoth(Apply(cfg, s, step).pcs[t]) != Some(c)
  {
    if t in Apply(cfg, s, step).pcs { PassingStep(cfg, s, step, t, c); }
  }

  /** While a covering cutoff's key lasts, no call takes a token of the user past the checks. */
  lemma {:induction false} CutOffIsRefused(cfg: Config, states: seq<Sys>, steps: seq<Step>, n: nat, t: Call, c: Claims)
    requires IsPath(cfg, states, steps) && n <= |steps| && TimedInv(cfg, states[0])
    requires Covered(states[0], c.who.user, c.iat) && states[n].now < states[0].cutoffs[c.who.user].until
    requires t in states[0].pcs ==> PassedBoth(states[0].pcs[t]) != Some(c)
    ensures t in states[n].pcs ==> PassedBoth(states[n].pcs[t]) != Some(c)
  {
    if n > 0 && t in states[n].pcs {
      TimePasses(cfg, states[n - 1], steps[n - 1]);
      StillCutOff(cfg, states, steps, n - 1, c);
      CutOffIsRefused(cfg, states, steps, n - 1, t, c);
      CutOffStops(cfg, states[n - 1], steps[n - 1], t, c);
    }
  }

  lemma StillCutOff(cfg: Config, states: seq<Sys>, steps: seq<Step>, n: nat, c: Claims)
    requires IsPath(cfg, states, steps) && n <= |steps| && TimedInv(cfg, states[0])
    requires Covered(states[0], c.who.user, c.iat)
    ensures states[n].now < states[0].cutoffs[c.who.user].until ==> IsCutOff(states[n], c)
  {
    PathKeys(cfg, states, steps, n);
    PathCovered(cfg, states, steps, n, c.who.user, c.iat);
  }

  /** The token is let in again while the cutoff it falls under should still last. */
  ghost predicate Lapses(cfg: Config, s: Sys, c: Claims)
    requires c.who.user in s.cutoffs
  {
    exists u :: Reaches(cfg, s, u) && u.now < s.cutoffs[c.who.user].until && !IsCutOff(u, c)
  }

  /** A cutoff that covers a token can be taken back, before its key runs out, if and only if a call that
      read an earlier second is still to write. */
  lemma CutoffLapsesIff(cfg: Config, s: Sys, c: Claims)
    requires Reachable(cfg, s) && IsCutOff(s, c)
    ensures Lapses(cfg, s, c) <==> StaleCut(s, c.who.user, c.iat)
  {
    ReachesTimed(cfg, INITIAL, s);
    var user := c.who.user;
    if StaleCut(s, user, c.iat) {
      var t :| t in s.pcs && s.pcs[t].CutWrite? && s.pcs[t].user == user && s.pcs[t].second < c.iat;
      var u := StaleWrite(cfg, s, t);
    } else if u :| Reaches(cfg, s, u) && u.now < s.cutoffs[user].until && !IsCutOff(u, c) {
      var states, steps :| IsPath(cfg, states, steps) && states[0] == s && states[|steps|] == u;
      StillCutOff(cfg, states, steps, |steps|, c);
    }
  }

  lemma StaleWrite(cfg: Config, s: Sys, t: Call) returns (u: Sys)
    requires t in s.pcs && s.pcs[t].CutWrite?
    ensures Reaches(cfg, s, u) && u == Goto(UserKilled(cfg, s, s.pcs[t].user, s.pcs[t].second), t, UserCut)
  {
    Stay(cfg, s);
    u := Go(cfg, s, s, Act(t, Id(0), Id(0), Id(0)));
    KillEffect(cfg, s, t, Id(0), Id(0), Id(0));
  }

  // ------------------------------------------------- a refresh id never comes back

  /** Nobody is still issuing the id, and it is off the whitelist by time `e`. */
  ghost predicate Settled(s: Sys, jti: Id, e: nat) {
    && jti in s.used
    && (forall t :: t in s.pcs && Own(s.pcs[t]) == Some(jti) ==> Returned(s.pcs[t]))
    && (jti in s.whitelist ==> s.whitelist[jti].until <= e)
  }

  lemma SettledEffect(cfg: Config, s: Sys, t: Call, a: Id, b: Id, c: Id, jti: Id, e: nat)
    requires Settled(s, jti, e) && Enabled(s, Act(t, a, b, c))
    ensures var u := Effect(cfg, s, t, a, b, c);
            jti in u.used && (jti in u.whitelist ==> u.whitelist[jti].until <= e)
  {
    assert Own(s.pcs[t]) != Some(jti);
  }

  lemma SettledStep(cfg: Config, s: Sys, step: Step, jti: Id, e: nat)
    requires Settled(s, jti, e) && Enabled(s, step)
    ensures Settled(Apply(cfg, s, step), jti, e)
  {
    if step.Act? {
      SettledAct(cfg, s, step.t, step.a, step.b, step.c, jti, e);
    } else if step.Lost? {
      SettledEffect(cfg, s, step.t, NO_ID, NO_ID, NO_ID, jti, e);
    }
  }

  lemma SettledAct(cfg: Config, s: Sys, t: Call, a: Id, b: Id, c: Id, jti: Id, e: nat)
    requires Settled(s, jti, e) && Enabled(s, Act(t, a, b, c))
    ensures Settled(Goto(Effect(cfg, s, t, a, b, c), t, NextPc(cfg, s, t, a, b, c)), jti, e)
  {
    SettledEffect(cfg, s, t, a, b, c, jti, e);
    SettledPc(cfg, s, t, a, b, c, jti, e);
  }

  lemma SettledPc(cfg: Config, s: Sys, t: Call, a: Id, b: Id, c: Id, jti: Id, e: nat)
    requires Settled(s, jti, e) && Enabled(s, Act(t, a, b, c))
    ensures Own(NextPc(cfg, s, t, a, b, c)) != Some(jti) || Returned(NextPc(cfg, s, t, a, b, c))
  {
    assert Own(s.pcs[t]) != Some(jti);
  }

  lemma {:induction false} PathSettled(cfg: Config, states: seq<Sys>, steps: seq<Step>, n: nat, jti: Id, e: nat)
    requires IsPath(cfg, states, steps) && n <= |steps| && Settled(states[0], jti, e)
    ensures Settled(states[n], jti, e)
  {
    if n > 0 {
      PathSettled(cfg, states, steps, n - 1, jti, e);
      SettledStep(cfg, states[n - 1], steps[n - 1], jti, e);
    }
  }

  /** Once the session is revoked for at least as long as the whitelist keeps the id, no Refresh
      redeems the token any more, however late: while the key lasts the check refuses it, and
      then the whitelist has forgotten it. */
  lemma {:induction false} NeverRedeemed(cfg: Config, states: seq<Sys>, steps: seq<Step>, n: nat, t: Call, c: Claims)
    requires IsPath(cfg, states, steps) && n <= |steps| && TimedInv(cfg, states[0])
    requires c.sid in states[0].revoked && Settled(states[0], c.jti, states[0].revoked[c.sid])
    requires t in states[0].pcs ==> PassedSid(states[0].pcs[t]) != Some(c)
    ensures t in states[n].pcs ==> Redeeming(states[n].pcs[t]) != Some(c)
  {
    if n > 0 && t in states[n].pcs {
      NeverRedeemed(cfg, states, steps, n - 1, t, c);
      PathSettled(cfg, states, steps, n - 1, c.jti, states[0].revoked[c.sid]);
      PassingStep(cfg, states[n - 1], steps[n - 1], t, c);
      if states[n - 1].now < states[0].revoked[c.sid] { RevokedIsRefused(cfg, states, steps, n - 1, t, c); }
    }
  }

  // ------------------------------------------------------- against the configuration

  predicate JustRevoked(cfg: Config, s: Sys, sid: Id) {
    sid in s.revoked && s.revoked[sid] == s.now + cfg.revokeTTL
  }

  /** A logout, and a detected replay, end in such a state. */
  lemma RevokingStep(cfg: Config, s: Sys, step: Step)
    requires Enabled(s, step) && step.Act? && (s.pcs[step.t].RevokeLogout? || s.pcs[step.t].RevokeReplayed?)
    ensures JustRevoked(cfg, Apply(cfg, s, step), s.pcs[step.t].claims.sid)
  {}

  /** A revocation key that outlives the token and the leeway keeps it out for as long as it would validate. */
  lemma RefusedWhileValid(cfg: Config, states: seq<Sys>, steps: seq<Step>, n: nat, t: Call, c: Claims)
    requires IsPath(cfg, states, steps) && n <= |steps| && Reachable(cfg, states[0])
    requires c.sid in states[0].revoked && states[0].revoked[c.sid] >= c.exp * SECOND + cfg.leeway
    requires t !in states[0].pcs && t in states[n].pcs && InTime(cfg, c, states[n].now)
    ensures PassedSid(states[n].pcs[t]) != Some(c)
  {
    ReachesTimed(cfg, INITIAL, states[0]);
    RevokedIsRefused(cfg, states, steps, n, t, c);
  }

  /** Such is every key just written, if keys live as long as tokens plus the leeway. */
  lemma KeyOutlivesToken(cfg: Config, s: Sys, token: Token)
    requires Reachable(cfg, s) && token in s.issued && JustRevoked(cfg, s, token.claims.sid)
    requires cfg.revokeTTL >= Lifetime(cfg, token) + cfg.leeway
    ensures s.revoked[token.claims.sid] >= token.claims.exp * SECOND + cfg.leeway
  {
    ReachesTimed(cfg, INITIAL, s);
    assert TokenTime(cfg, s.now, token);
  }

  /** The same for a user cutoff that covers the token. */
  lemma CutOffWhileValid(cfg: Config, states: seq<Sys>, steps: seq<Step>, n: nat, t: Call, c: Claims)
    requires IsPath(cfg, states, steps) && n <= |steps| && Reachable(cfg, states[0])
    requires Covered(states[0], c.who.user, c.iat)
    requires states[0].cutoffs[c.who.user].until >= c.exp * SECOND + cfg.leeway
    requires t !in states[0].pcs && t in states[n].pcs && InTime(cfg, c, states[n].now)
    ensures PassedBoth(states[n].pcs[t]) != Some(c)
  {
    ReachesTimed(cfg, INITIAL, states[0]);
    CutOffIsRefused(cfg, states, steps, n, t, c);
  }

  predicate JustCut(cfg: Config, s: Sys, user: User) {
    user in s.cutoffs && s.cutoffs[user].until == s.now + cfg.cutoffTTL
  }

  lemma CutoffOutlivesToken(cfg: Config, s: Sys, token: Token)
    requires Reachable(cfg, s) && token in s.issued && JustCut(cfg, s, token.claims.who.user)
    requires cfg.cutoffTTL >= Lifetime(cfg, token) + cfg.leeway
    ensures s.cutoffs[token.claims.who.user].until >= token.claims.exp * SECOND + cfg.leeway
  {
    ReachesTimed(cfg, INITIAL, s);
    assert TokenTime(cfg, s.now, token);
  }

  /** The second a forced logout reads covers every token issued by then. */
  lemma ReadCovers(cfg: Config, s: Sys, step: Step, token: Token)
    requires Reachable(cfg, s) && Enabled(s, step) && step.Act? && s.pcs[step.t].CutUser? && token in s.issued
    ensures var pc := Apply(cfg, s, step).pcs[step.t]; pc.CutWrite? && token.claims.iat <= pc.second
  {
    ReachesTimed(cfg, INITIAL, s);
    FloorBelow(s.now);
    assert TokenTime(cfg, s.now, token);
  }

  /** A refresh token that has been handed out has no owner left to store it. */
  lemma HandedOutSettled(cfg: Config, s: Sys, giver: Call, token: Token, e: nat)
    requires Reachable(cfg, s) && giver in s.pcs && s.now + cfg.storeTTL <= e
    requires (s.pcs[giver].LoggedIn? || s.pcs[giver].Refreshed?) && s.pcs[giver].refresh == token
    ensures Settled(s, token.claims.jti, e)
  {
    ReachesTimed(cfg, INITIAL, s);
    assert Own(s.pcs[giver]) == Some(token.claims.jti);
  }

  lemma NeverRedeemedAgain(cfg: Config, states: seq<Sys>, steps: seq<Step>, n: nat, t: Call, c: Claims)
    requires IsPath(cfg, states, steps) && n <= |steps| && Reachable(cfg, states[0]) && t !in states[0].pcs
    requires c.sid in states[0].revoked && Settled(states[0], c.jti, states[0].revoked[c.sid])
    ensures t in states[n].pcs ==> Redeeming(states[n].pcs[t]) != Some(c)
  {
    ReachesTimed(cfg, INITIAL, states[0]);
    NeverRedeemed(cfg, states, steps, n, t, c);
  }

  /** With revocation keys that outlive whitelist entries, a refresh token of a revoked session that
      has been handed out is never redeemed again. */
  lemma RefreshDeadOnceRevoked(
    cfg: Config, states: seq<Sys>, steps: seq<Step>, n: nat, t: Call, giver: Call, token: Token)
    requires IsPath(cfg, states, steps) && n <= |steps| && Reachable(cfg, states[0])
    requires JustRevoked(cfg, states[0], token.claims.sid) && cfg.revokeTTL >= cfg.storeTTL
    requires giver in states[0].pcs
    requires var pc := states[0].pcs[giver]; (pc.LoggedIn? || pc.Refreshed?) && pc.refresh == token
    requires t !in states[0].pcs && t in states[n].pcs
    ensures !(states[n].pcs[t].Refreshed? && states[n].pcs[t].prior == token.claims)
  {
    HandedOutSettled(cfg, states[0], giver, token, states[0].revoked[token.claims.sid]);
    NeverRedeemedAgain(cfg, states, steps, n, t, token.claims);
  }
}
