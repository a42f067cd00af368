/** What holds of tokens and refresh ids in every reachable state, whatever the schedule. */
module SessionSafety {
  import opened Basics
  import opened Session

  // ------------------------------------------------------------------ invariant

  predicate Known(s: Sys, c: Claims) {
    c.sid in s.used && c.jti in s.used
  }

  /** The id is in neither store: not listed, not rotated away. */
  predicate NotStored(s: Sys, jti: Id) {
    jti !in s.whitelist && jti !in s.spent
  }

  ghost predicate NotSigned(s: Sys, jti: Id) {
    forall tok :: tok in s.issued && tok.kind.Refresh? ==> tok.claims.jti != jti
  }

  /** The same session and the same person, under another id and other times. */
  predicate Continues(prior: Claims, c: Claims) {
    c.who == prior.who && c.sid == prior.sid && c.totpDone == prior.totpDone && c.jti != prior.jti
  }

  /** A pair being signed is a new login's, or call t has rotated the id it continues. */
  predicate FromInv(s: Sys, t: Call, base: Claims, from: Option<Claims>) {
    if from.None? then NotStored(s, base.jti)
    else
      && from.value.jti in s.spent && s.spent[from.value.jti] == t && Continues(from.value, base)
      && (base.jti in s.whitelist ==> s.whitelist[base.jti].record == RecordOf(base))
  }

  ghost predicate PcInv(s: Sys, t: Call, pc: PC) {
    match pc
    case MintPair(_, sid) => sid.Some? ==> sid.value in s.used
    case SignAccess(base, accessJti, from) =>
      && Known(s, base) && accessJti in s.used && base.totpDone && NotSigned(s, base.jti) && FromInv(s, t, base, from)
      && (from.Some? ==> accessJti == base.jti)
    case SignRefresh(base, access, from) =>
      && Known(s, base) && base.totpDone && NotSigned(s, base.jti) && FromInv(s, t, base, from)
      && access in s.issued && (from.Some? ==> Continues(from.value, access.claims))
    case SavePair(access, refresh) =>
      access in s.issued && refresh in s.issued && refresh.kind.Refresh? && NotStored(s, refresh.claims.jti)
    case CheckSid(c, kind) => Token(kind, c) in s.issued
    case CheckCutoff(c, kind) => Token(kind, c) in s.issued
    case Rotate(c) => Token(Refresh, c) in s.issued
    case RevokeReplayed(c) => Token(Refresh, c) in s.issued
    case DropRefresh(c) => Token(Refresh, c) in s.issued
    case RevokeLogout(c) => Token(Refresh, c) in s.issued
    case LoggedIn(access, refresh) => access in s.issued && refresh in s.issued && refresh.kind.Refresh?
    case Refreshed(prior, access, refresh) =>
      && prior.jti in s.spent && s.spent[prior.jti] == t
      && access in s.issued && Continues(prior, access.claims)
      && refresh in s.issued && refresh.kind.Refresh? && Continues(prior, refresh.claims)
    case _ => true
  }

  ghost predicate PcsInv(s: Sys) {
    forall t :: t in s.pcs ==> PcInv(s, t, s.pcs[t])
  }

  /** The refresh id a call issues: still to be signed, still to be saved, or handed out. */
  function Own(pc: PC): Option<Id> {
    match pc
    case SignAccess(base, _, _) => Some(base.jti)
    case SignRefresh(base, _, _) => Some(base.jti)
    case SavePair(_, refresh) => Some(refresh.claims.jti)
    case LoggedIn(_, refresh) => Some(refresh.claims.jti)
    case Refreshed(_, _, refresh) => Some(refresh.claims.jti)
    case _ => None
  }

  /** Every refresh id is issued by one call. */
  ghost predicate OwnInv(s: Sys) {
    && (forall t :: t in s.pcs && Own(s.pcs[t]).Some? ==> Own(s.pcs[t]).value in s.used)
    && (forall t, u :: t in s.pcs && u in s.pcs && t != u && Own(s.pcs[t]).Some? ==> Own(s.pcs[t]) != Own(s.pcs[u]))
  }

  ghost predicate KnownInv(s: Sys) {
    && (forall tok :: tok in s.issued ==> Known(s, tok.claims))
    && (forall jti :: jti in s.whitelist ==> jti in s.used)
    && (forall jti :: jti in s.spent ==> jti in s.used)
  }

  predicate SameRefreshId(x: Token, y: Token) {
    x.kind.Refresh? && y.kind.Refresh? && x.claims.jti == y.claims.jti
  }

  ghost predicate TokenInv(s: Sys) {
    && (forall tok :: tok in s.issued && tok.kind.Refresh? ==> tok.claims.totpDone)
    && (forall x, y :: x in s.issued && y in s.issued && SameRefreshId(x, y) ==> x == y)
  }

  ghost predicate StoreInv(s: Sys) {
    && (forall jti :: jti in s.spent ==> jti !in s.whitelist)
    && (forall tok :: tok in s.issued && tok.kind.Refresh? && tok.claims.jti in s.whitelist ==>
          s.whitelist[tok.claims.jti].record == RecordOf(tok.claims))
  }

  ghost predicate Inv(s: Sys) {
    PcsInv(s) && OwnInv(s) && KnownInv(s) && TokenInv(s) && StoreInv(s)
  }

  // ------------------------------------------------------- one lemma per effect

  /** No other call issues the id. */
  ghost predicate Unowned(s: Sys, t: Call, jti: Id) {
    forall x :: x in s.pcs && x != t ==> Own(s.pcs[x]) != Some(jti)
  }

  /** A call moves, nothing else changes. */
  lemma Move(s: Sys, t: Call, pc: PC)
    requires Inv(s) && PcInv(s, t, pc)
    requires Own(pc).Some? ==> Own(pc).value in s.used && Unowned(s, t, Own(pc).value)
    ensures Inv(Goto(s, t, pc))
  {
    var u := Goto(s, t, pc);
    forall x | x in u.pcs ensures PcInv(u, x, u.pcs[x]) {
      if x != t { assert PcInv(s, x, s.pcs[x]); }
      assert PcInv(u, x, u.pcs[x]) <==> PcInv(s, x, u.pcs[x]);
    }
  }

  lemma DrawnInv(s: Sys, ids: set<Id>)
    requires Inv(s)
    ensures Inv(Drawn(s, ids))
  {
    var u := Drawn(s, ids);
    forall x | x in u.pcs ensures PcInv(u, x, u.pcs[x]) { assert PcInv(s, x, s.pcs[x]); }
  }

  lemma SignedInv(s: Sys, token: Token)
    requires Inv(s) && Known(s, token.claims)
    requires token.kind.Refresh? ==>
               && token.claims.totpDone && NotSigned(s, token.claims.jti)
               && (forall x :: x in s.pcs ==> Own(s.pcs[x]) != Some(token.claims.jti))
               && (token.claims.jti in s.whitelist ==> s.whitelist[token.claims.jti].record == RecordOf(token.claims))
    ensures Inv(Signed(s, token))
  {
    var u := Signed(s, token);
    forall x | x in u.pcs ensures PcInv(u, x, u.pcs[x]) { assert PcInv(s, x, s.pcs[x]); }
  }

  lemma SavedInv(cfg: Config, s: Sys, c: Claims)
    requires Inv(s) && NotStored(s, c.jti) && Token(Refresh, c) in s.issued
    requires forall x :: x in s.pcs ==> Own(s.pcs[x]) != Some(c.jti)
    ensures Inv(Saved(cfg, s, c))
  {
    var u := Saved(cfg, s, c);
    forall x | x in u.pcs ensures PcInv(u, x, u.pcs[x]) { assert PcInv(s, x, s.pcs[x]); }
    assert forall tok :: tok in s.issued && tok.kind.Refresh? ==>
             SameRefreshId(tok, Token(Refresh, c)) == (tok.claims.jti == c.jti);
  }

  lemma RotatedInv(cfg: Config, s: Sys, t: Call, c: Claims, jti: Id)
    requires Inv(s) && t in s.pcs && s.pcs[t] == Rotate(c) && c.jti in s.whitelist && jti !in s.used
    ensures Inv(Rotated(cfg, s, t, c, jti))
  {
    var u := Rotated(cfg, s, t, c, jti);
    forall x | x in u.pcs ensures PcInv(u, x, u.pcs[x]) { assert PcInv(s, x, s.pcs[x]); }
  }

  lemma DroppedInv(s: Sys, jti: Id)
    requires Inv(s)
    ensures Inv(Dropped(s, jti))
  {
    var u := Dropped(s, jti);
    forall x | x in u.pcs ensures PcInv(u, x, u.pcs[x]) { assert PcInv(s, x, s.pcs[x]); }
  }

  /** Time and the revocation keys do not matter here. */
  lemma SameInv(s: Sys, u: Sys)
    requires Inv(s) && u == s.(now := u.now, revoked := u.revoked, cutoffs := u.cutoffs, trail := u.trail)
    ensures Inv(u)
  {
    forall x | x in u.pcs ensures PcInv(u, x, u.pcs[x]) { assert PcInv(s, x, s.pcs[x]); }
  }

  // ------------------------------------------------------------- one lemma per step

  lemma StepMint(cfg: Config, s: Sys, t: Call, a: Id, b: Id, c: Id)
    requires Inv(s) && Enabled(s, Act(t, a, b, c)) && (s.pcs[t].MintPair? || s.pcs[t].MintPartial?)
    ensures Inv(Apply(cfg, s, Act(t, a, b, c)))
  {
    assert PcInv(s, t, s.pcs[t]);
    if s.pcs[t].MintPair? {
      DrawnInv(s, {a, b, c});
      Move(Drawn(s, {a, b, c}), t, NextPc(cfg, s, t, a, b, c));
    } else {
      DrawnInv(s, {a, c});
      var m := Drawn(s, {a, c});
      SignedInv(m, PartialToken(cfg, s, s.pcs[t].who, a, c));
      Move(Signed(m, PartialToken(cfg, s, s.pcs[t].who, a, c)), t, NextPc(cfg, s, t, a, b, c));
    }
  }

  lemma StepSignAccess(cfg: Config, s: Sys, t: Call)
    requires Inv(s) && t in s.pcs && s.pcs[t].SignAccess?
    ensures var pc := s.pcs[t];
            var access := AccessToken(cfg, s, pc.base, pc.accessJti);
            Inv(Goto(Signed(s, access), t, SignRefresh(pc.base, access, pc.from)))
  {
    var pc := s.pcs[t];
    var access := AccessToken(cfg, s, pc.base, pc.accessJti);
    assert PcInv(s, t, pc) && Own(pc) == Some(pc.base.jti);
    SignedInv(s, access);
    Move(Signed(s, access), t, SignRefresh(pc.base, access, pc.from));
  }

  lemma GotoTwice(s: Sys, u: Sys, t: Call, pc: PC, next: PC)
    requires u.pcs == s.pcs
    ensures Goto(u.(pcs := Goto(s, t, pc).pcs), t, next) == Goto(u, t, next)
  {}

  lemma StepSignRefresh(cfg: Config, s: Sys, t: Call, next: PC)
    requires Inv(s) && t in s.pcs && s.pcs[t].SignRefresh?
    requires var pc := s.pcs[t];
             var refresh := RefreshToken(cfg, s, pc.base);
             next == if pc.from.Some? then Refreshed(pc.from.value, pc.access, refresh)
               else SavePair(pc.access, refresh)
    ensures Inv(Goto(Signed(s, RefreshToken(cfg, s, s.pcs[t].base)), t, next))
  {
    var pc := s.pcs[t];
    var refresh := RefreshToken(cfg, s, pc.base);
    assert PcInv(s, t, pc) && Own(pc) == Some(pc.base.jti);
    var m := Goto(s, t, Refused(Failed));
    Move(s, t, Refused(Failed));
    SignedInv(m, refresh);
    Move(Signed(m, refresh), t, next);
    GotoTwice(s, Signed(s, refresh), t, Refused(Failed), next);
  }

  lemma SavedMove(cfg: Config, s: Sys, t: Call, access: Token, refresh: Token)
    requires Inv(s) && NotStored(s, refresh.claims.jti) && access in s.issued && refresh in s.issued
               && refresh.kind.Refresh?
    requires forall x :: x in s.pcs ==> Own(s.pcs[x]) != Some(refresh.claims.jti)
    ensures Inv(Goto(Saved(cfg, s, refresh.claims), t, LoggedIn(access, refresh)))
  {
    SavedInv(cfg, s, refresh.claims);
    Move(Saved(cfg, s, refresh.claims), t, LoggedIn(access, refresh));
  }

  lemma SavedTwice(cfg: Config, s: Sys, t: Call, c: Claims, next: PC)
    ensures Goto(Saved(cfg, Goto(s, t, Refused(Failed)), c), t, next) == Goto(Saved(cfg, s, c), t, next)
  {}

  lemma StepSave(cfg: Config, s: Sys, t: Call)
    requires Inv(s) && t in s.pcs && s.pcs[t].SavePair?
    ensures Inv(Goto(Saved(cfg, s, s.pcs[t].refresh.claims), t, LoggedIn(s.pcs[t].access, s.pcs[t].refresh)))
  {
    var pc := s.pcs[t];
    assert PcInv(s, t, pc) && Own(pc) == Some(pc.refresh.claims.jti);
    var m := Goto(s, t, Refused(Failed));
    assert Inv(m) by { Move(s, t, Refused(Failed)); }
    assert forall x :: x in m.pcs ==> Own(m.pcs[x]) != Own(pc);
    SavedMove(cfg, m, t, pc.access, pc.refresh);
    SavedTwice(cfg, s, t, pc.refresh.claims, LoggedIn(pc.access, pc.refresh));
  }

  lemma StepRotate(cfg: Config, s: Sys, t: Call, jti: Id)
    requires Inv(s) && t in s.pcs && s.pcs[t].Rotate? && s.pcs[t].claims.jti in s.whitelist && jti !in s.used
    ensures var c := s.pcs[t].claims;
            Inv(Goto(Rotated(cfg, s, t, c, jti), t, SignAccess(c.(jti := jti), jti, Some(c))))
  {
    var c := s.pcs[t].claims;
    assert PcInv(s, t, s.pcs[t]);
    RotatedInv(cfg, s, t, c, jti);
    Move(Rotated(cfg, s, t, c, jti), t, SignAccess(c.(jti := jti), jti, Some(c)));
  }

  /** Checks only read; revocation and logout touch keys the invariant does not need. */
  lemma StepOther(cfg: Config, s: Sys, t: Call, a: Id, b: Id, c: Id)
    requires Inv(s) && Enabled(s, Act(t, a, b, c))
    requires var pc := s.pcs[t];
             pc.CheckSid? || pc.CheckCutoff? || (pc.Rotate? && !Rotates(s, pc.claims)) || pc.RevokeReplayed?
             || pc.DropRefresh? || pc.RevokeLogout? || pc.CutUser? || pc.CutWrite?
    ensures Inv(Apply(cfg, s, Act(t, a, b, c)))
  {
    assert PcInv(s, t, s.pcs[t]);
    var u, next := Effect(cfg, s, t, a, b, c), NextPc(cfg, s, t, a, b, c);
    if s.pcs[t].DropRefresh? { DroppedInv(s, s.pcs[t].claims.jti); } else { SameInv(s, u); }
    assert PcInv(u, t, next) && Own(next).None?;
    Move(u, t, next);
  }

  lemma InvAct(cfg: Config, s: Sys, t: Call, a: Id, b: Id, c: Id)
    requires Inv(s) && Enabled(s, Act(t, a, b, c))
    ensures Inv(Apply(cfg, s, Act(t, a, b, c)))
  {
    match s.pcs[t]
    case MintPair(_, _) => StepMint(cfg, s, t, a, b, c);
    case MintPartial(_) => StepMint(cfg, s, t, a, b, c);
    case SignAccess(_, _, _) => StepSignAccess(cfg, s, t);
    case SignRefresh(_, _, _) => StepSignRefresh(cfg, s, t, NextPc(cfg, s, t, a, b, c));
    case SavePair(_, _) => StepSave(cfg, s, t);
    case Rotate(claims) => if Rotates(s, claims) { StepRotate(cfg, s, t, b); } else { StepOther(cfg, s, t, a, b, c); }
    case _ => StepOther(cfg, s, t, a, b, c);
  }

  lemma InvStep(cfg: Config, s: Sys, step: Step)
    requires Inv(s) && Enabled(s, step)
    ensures Inv(Apply(cfg, s, step))
  {
    match step
    case Tick(d) => SameInv(s, s.(now := s.now + d));
    case Start(t, op) => Move(s, t, FirstPc(cfg, s, op));
    case Act(t, a, b, c) => InvAct(cfg, s, t, a, b, c);
    case Fault(t) => InvFault(s, t);
    case Lost(t) => InvLost(cfg, s, t);
  }

  /** A lost reply is a write that ran, and a call that returns an error. */
  lemma InvLost(cfg: Config, s: Sys, t: Call)
    requires Inv(s) && Enabled(s, Lost(t))
    ensures Inv(Apply(cfg, s, Lost(t)))
  {
    InvAct(cfg, s, t, NO_ID, NO_ID, NO_ID);
    var m := Apply(cfg, s, Act(t, NO_ID, NO_ID, NO_ID));
    Move(m, t, Refused(Failed));
    assert Goto(m, t, Refused(Failed)) == Apply(cfg, s, Lost(t));
  }

  lemma InvFault(s: Sys, t: Call)
    requires Inv(s) && Enabled(s, Fault(t))
    ensures Inv(Goto(s, t, FaultPc(s.pcs[t])))
  {
    assert PcInv(s, t, s.pcs[t]);
    Move(s, t, FaultPc(s.pcs[t]));
  }

  lemma {:induction false} RunInv(cfg: Config, states: seq<Sys>, steps: seq<Step>, n: nat)
    requires IsRun(cfg, states, steps) && n <= |steps|
    ensures Inv(states[n])
  {
    if n > 0 {
      RunInv(cfg, states, steps, n - 1);
      InvStep(cfg, states[n - 1], steps[n - 1]);
    }
  }

  // ---------------------------------------------------------------------- theorems

  /** Call t's step takes the id of `c` off the whitelist and lists a new one. */
  predicate IsRotation(s: Sys, step: Step, c: Claims) {
    step.Act? && step.t in s.pcs && s.pcs[step.t] == Rotate(c) && Rotates(s, c)
  }

  lemma SpentEffect(cfg: Config, s: Sys, t: Call, a: Id, b: Id, c: Id)
    requires t in s.pcs
    ensures s.spent.Keys <= Effect(cfg, s, t, a, b, c).spent.Keys
  {}

  lemma SpentStep(cfg: Config, s: Sys, step: Step, jti: Id)
    requires Enabled(s, step) && jti in s.spent
    ensures jti in Apply(cfg, s, step).spent
  {
    if step.Act? { SpentEffect(cfg, s, step.t, step.a, step.b, step.c); }
    if step.Lost? { SpentEffect(cfg, s, step.t, NO_ID, NO_ID, NO_ID); }
  }

  lemma SpentNext(cfg: Config, states: seq<Sys>, steps: seq<Step>, k: nat, jti: Id)
    requires IsRun(cfg, states, steps) && k < |steps| && jti in states[k].spent
    ensures jti in states[k + 1].spent
  {
    SpentStep(cfg, states[k], steps[k], jti);
  }

  lemma {:induction false} SpentStays(cfg: Config, states: seq<Sys>, steps: seq<Step>, i: nat, j: nat, jti: Id)
    requires IsRun(cfg, states, steps) && i <= j <= |steps| && jti in states[i].spent
    ensures jti in states[j].spent
  {
    if i < j {
      var k := j - 1;
      SpentStays(cfg, states, steps, i, k, jti);
      SpentNext(cfg, states, steps, k, jti);
    }
  }

  /** No id is rotated twice, however calls interleave, fail, or present it again. */
  lemma RotatedAtMostOnce(cfg: Config, states: seq<Sys>, steps: seq<Step>, i: nat, j: nat, c: Claims, d: Claims)
    requires IsRun(cfg, states, steps) && i < j < |steps|
    requires IsRotation(states[i], steps[i], c) && c.jti == d.jti
    ensures !IsRotation(states[j], steps[j], d)
  {
    assert c.jti in states[i + 1].spent;
    SpentStays(cfg, states, steps, i + 1, j, c.jti);
    RunInv(cfg, states, steps, j);
  }

  /** Every refresh id is redeemed by at most one successful Refresh. */
  lemma RedeemedAtMostOnce(cfg: Config, states: seq<Sys>, steps: seq<Step>, n: nat, t: Call, u: Call)
    requires IsRun(cfg, states, steps) && n <= |steps| && t in states[n].pcs && u in states[n].pcs
    requires states[n].pcs[t].Refreshed? && states[n].pcs[u].Refreshed?
    requires states[n].pcs[t].prior.jti == states[n].pcs[u].prior.jti
    ensures t == u
  {
    RunInv(cfg, states, steps, n);
    assert PcInv(states[n], t, states[n].pcs[t]) && PcInv(states[n], u, states[n].pcs[u]);
  }

  function LiveIds(s: Sys): set<Id> {
    set jti | jti in s.whitelist && Listed(s, jti)
  }

  /** A rotation replaces one live id by one id never seen before, for the same user, tenant and session. */
  lemma RotationReplaces(cfg: Config, states: seq<Sys>, steps: seq<Step>, n: nat, c: Claims)
    requires IsRun(cfg, states, steps) && n < |steps| && IsRotation(states[n], steps[n], c) && cfg.storeTTL >= SECOND
    ensures var jti := steps[n].b;
            && c.jti in LiveIds(states[n]) && jti !in states[n].used && NotSigned(states[n], jti)
            && LiveIds(states[n + 1]) == LiveIds(states[n]) - {c.jti} + {jti}
            && states[n + 1].whitelist[jti].record == states[n].whitelist[c.jti].record == RecordOf(c)
  {
    RunInv(cfg, states, steps, n);
    var s, u, jti := states[n], states[n + 1], steps[n].b;
    assert PcInv(s, steps[n].t, s.pcs[steps[n].t]);
    assert u.whitelist == (s.whitelist - {c.jti})[jti := u.whitelist[jti]] && u.now == s.now;
    assert cfg.storeTTL / SECOND * SECOND > 0;
  }

  /** What a successful Refresh hands out continues the redeemed token's session. */
  lemma RefreshContinues(cfg: Config, states: seq<Sys>, steps: seq<Step>, n: nat, t: Call)
    requires IsRun(cfg, states, steps) && n <= |steps| && t in states[n].pcs && states[n].pcs[t].Refreshed?
    ensures var pc := states[n].pcs[t];
            && Continues(pc.prior, pc.refresh.claims) && Continues(pc.prior, pc.access.claims)
            && pc.refresh in states[n].issued && pc.access in states[n].issued
            && pc.prior.jti in states[n].spent && states[n].spent[pc.prior.jti] == t
  {
    RunInv(cfg, states, steps, n);
    assert PcInv(states[n], t, states[n].pcs[t]);
  }

  /** Every refresh token ever signed has passed the second factor (or needed none), and has its own id. */
  lemma RefreshTokensAreComplete(cfg: Config, states: seq<Sys>, steps: seq<Step>, n: nat, token: Token)
    requires IsRun(cfg, states, steps) && n <= |steps| && token in states[n].issued && token.kind.Refresh?
    ensures token.claims.totpDone
    ensures forall other :: other in states[n].issued && SameRefreshId(token, other) ==> other == token
  {
    RunInv(cfg, states, steps, n);
  }
}
