/**
  The session protocol of the authenticator, step by step for any number of
  concurrent calls on any number of replicas: login, second factor, refresh with
  rotation and replay detection, logout, force-logout and access-token checks.

  A call stops before every access to Redis, before every signature and between a
  clock reading and a write that uses it; each of these may also fail, and a write may
  run and lose its reply. Tokens are records nobody can forge: a presented token
  validates only if it was signed. Random ids never repeat. Time is one clock in
  nanoseconds.
 */
module Session {
  import opened Basics

  datatype Id = Id(n: nat)
  datatype Identity = Identity(user: User, tenant: nat, login: string, roles: seq<string>)
  datatype Kind = Access | Refresh

  /** `iat` and `exp` are in whole seconds, as the token carries them. */
  datatype Claims = Claims(who: Identity, sid: Id, jti: Id, totpDone: bool, iat: nat, exp: nat)
  datatype Token = Token(kind: Kind, claims: Claims)

  datatype Config = Config(
    accessTTL: nat, partialTTL: nat, refreshTTL: nat, leeway: nat,
    storeTTL: nat, revokeTTL: nat, cutoffTTL: nat)

  datatype Record = Record(user: User, tenant: nat, sid: Id)
  datatype Entry = Entry(record: Record, until: nat)
  datatype Cutoff = Cutoff(second: nat, until: nat)

  datatype Reason = Invalid | Revoked | Replay | Failed

  datatype PC =
    | MintPartial(who: Identity)
    | MintPair(who: Identity, sid: Option<Id>)
    | SignAccess(base: Claims, accessJti: Id, from: Option<Claims>)  // `from`: the claims being refreshed
    | SignRefresh(base: Claims, access: Token, from: Option<Claims>)
    | SavePair(access: Token, refresh: Token)
    | CheckSid(claims: Claims, kind: Kind) | CheckCutoff(claims: Claims, kind: Kind)
    | Rotate(claims: Claims) | RevokeReplayed(claims: Claims)
    | DropRefresh(claims: Claims) | RevokeLogout(claims: Claims)
    | CutUser(user: User) | CutWrite(user: User, second: nat)  // clock still to be read, key still to be written
    // returned
    | PartialIssued(access: Token) | LoggedIn(access: Token, refresh: Token)
    | Refreshed(prior: Claims, access: Token, refresh: Token)
    | Valid(claims: Claims) | LoggedOut | UserCut | Refused(reason: Reason)

  datatype Op =
    | Login(who: Identity)                   // password accepted, no second factor
    | LoginFirst(who: Identity)              // password accepted, second factor due
    | LoginTotp(token: Token, codeOk: bool, who: Identity)  // `who` is the user row as it is now
    | RefreshPair(token: Token)
    | Logout(token: Token)
    | Validate(token: Token)
    | RevokeAll(user: User)

  datatype Sys = Sys(
    now: nat,
    used: set<Id>,                           // ids ever drawn
    issued: set<Token>,                      // tokens ever signed
    whitelist: map<Id, Entry>,               // auth:refresh:<jti>
    trail: map<Id, nat>,                     // auth:refresh:rotated:<jti>, with its expiry
    revoked: map<Id, nat>,                   // auth:revoke:sid:<sid>, with its expiry
    cutoffs: map<User, Cutoff>,              // auth:revoke:user:<id>:cutoff
    spent: map<Id, Call>,                    // which call rotated an id away
    pcs: map<Call, PC>)

  const INITIAL := Sys(0, {}, {}, map[], map[], map[], map[], map[], map[])

  /** `a`, `b`, `c` are the random ids the step may draw. */
  datatype Step =
    | Tick(d: nat) | Start(t: Call, op: Op) | Act(t: Call, a: Id, b: Id, c: Id)
    | Fault(t: Call)                         // the access fails
    | Lost(t: Call)                          // the write runs, its reply is lost

  predicate Returned(pc: PC) {
    pc.PartialIssued? || pc.LoggedIn? || pc.Refreshed? || pc.Valid? || pc.LoggedOut? || pc.UserCut? || pc.Refused?
  }

  function Stamp(c: Claims, now: nat, ttl: nat): Claims {
    c.(iat := now / SECOND, exp := (now + ttl) / SECOND)
  }

  /** The parser's clock checks: expiry and issue time, both with leeway. */
  predicate InTime(cfg: Config, c: Claims, now: nat) {
    now < c.exp * SECOND + cfg.leeway && now + cfg.leeway >= c.iat * SECOND
  }

  predicate Validates(cfg: Config, s: Sys, token: Token, kind: Kind) {
    token in s.issued && token.kind == kind && InTime(cfg, token.claims, s.now)
  }

  predicate Listed(s: Sys, jti: Id) {
    jti in s.whitelist && s.now < s.whitelist[jti].until
  }

  predicate Trailed(s: Sys, jti: Id) {
    jti in s.trail && s.now < s.trail[jti]
  }

  predicate SidRevoked(s: Sys, sid: Id) {
    sid in s.revoked && s.now < s.revoked[sid]
  }

  predicate IsCutOff(s: Sys, c: Claims) {
    c.who.user in s.cutoffs && s.now < s.cutoffs[c.who.user].until && c.iat <= s.cutoffs[c.who.user].second
  }

  predicate Rotates(s: Sys, c: Claims) {
    !Trailed(s, c.jti) && Listed(s, c.jti)
  }

  function RecordOf(c: Claims): Record {
    Record(c.who.user, c.who.tenant, c.sid)
  }

  /** The token checks at the head of each call. */
  function FirstPc(cfg: Config, s: Sys, op: Op): PC {
    match op
    case Login(who) => MintPair(who, None)
    case LoginFirst(who) => MintPartial(who)
    case LoginTotp(token, codeOk, who) =>
      if Validates(cfg, s, token, Access) && !token.claims.totpDone && codeOk && who.user == token.claims.who.user
      then MintPair(who, Some(token.claims.sid))
      else Refused(Invalid)
    case RefreshPair(token) =>
      if Validates(cfg, s, token, Refresh) then CheckSid(token.claims, Refresh) else Refused(Invalid)
    case Logout(token) => if Validates(cfg, s, token, Refresh) then DropRefresh(token.claims) else LoggedOut
    case Validate(token) =>
      if Validates(cfg, s, token, Access) then CheckSid(token.claims, Access) else Refused(Invalid)
    case RevokeAll(user) => CutUser(user)
  }

  function PartialToken(cfg: Config, s: Sys, who: Identity, jti: Id, sid: Id): Token {
    Token(Access, Stamp(Claims(who, sid, jti, false, 0, 0), s.now, cfg.partialTTL))
  }

  function AccessToken(cfg: Config, s: Sys, base: Claims, jti: Id): Token {
    Token(Access, Stamp(base.(jti := jti), s.now, cfg.accessTTL))
  }

  function RefreshToken(cfg: Config, s: Sys, base: Claims): Token {
    Token(Refresh, Stamp(base, s.now, cfg.refreshTTL))
  }

  function Signed(s: Sys, token: Token): Sys {
    s.(issued := s.issued + {token})
  }

  function Drawn(s: Sys, ids: set<Id>): Sys {
    s.(used := s.used + ids)
  }

  function Saved(cfg: Config, s: Sys, c: Claims): Sys {
    s.(whitelist := s.whitelist[c.jti := Entry(RecordOf(c), s.now + cfg.storeTTL)])
  }

  /** The rotation script: trail the old id, drop it, list the new one, all at once. The
      script's expiry is in whole seconds. */
  function Rotated(cfg: Config, s: Sys, t: Call, c: Claims, jti: Id): Sys {
    var until := s.now + cfg.storeTTL / SECOND * SECOND;
    s.(trail := s.trail[c.jti := until],
       whitelist := (s.whitelist - {c.jti})[jti := Entry(RecordOf(c), until)],
       spent := s.spent[c.jti := t],
       used := s.used + {jti})
  }

  function Dropped(s: Sys, jti: Id): Sys {
    s.(whitelist := s.whitelist - {jti})
  }

  function SidKilled(cfg: Config, s: Sys, sid: Id): Sys {
    s.(revoked := s.revoked[sid := s.now + cfg.revokeTTL])
  }

  function UserKilled(cfg: Config, s: Sys, user: User, second: nat): Sys {
    s.(cutoffs := s.cutoffs[user := Cutoff(second, s.now + cfg.cutoffTTL)])
  }

  /** The steps that write a revocation key. */
  predicate Kills(pc: PC) {
    pc.RevokeReplayed? || pc.RevokeLogout? || pc.CutWrite?
  }

  function Effect(cfg: Config, s: Sys, t: Call, a: Id, b: Id, c: Id): (u: Sys)
    requires t in s.pcs
    ensures u.pcs == s.pcs && u.now == s.now
    ensures !Kills(s.pcs[t]) ==> u.revoked == s.revoked && u.cutoffs == s.cutoffs
  {
    match s.pcs[t]
    case MintPartial(who) => Signed(Drawn(s, {a, c}), PartialToken(cfg, s, who, a, c))
    case MintPair(_, _) => Drawn(s, {a, b, c})
    case SignAccess(base, accessJti, _) => Signed(s, AccessToken(cfg, s, base, accessJti))
    case SignRefresh(base, _, _) => Signed(s, RefreshToken(cfg, s, base))
    case SavePair(_, refresh) => Saved(cfg, s, refresh.claims)
    case Rotate(claims) => if Rotates(s, claims) then Rotated(cfg, s, t, claims, b) else s
    case RevokeReplayed(claims) => SidKilled(cfg, s, claims.sid)
    case DropRefresh(claims) => Dropped(s, claims.jti)
    case RevokeLogout(claims) => SidKilled(cfg, s, claims.sid)
    case CutWrite(user, second) => UserKilled(cfg, s, user, second)
    case _ => s
  }

  function NextPc(cfg: Config, s: Sys, t: Call, a: Id, b: Id, c: Id): PC
    requires t in s.pcs
  {
    match s.pcs[t]
    case MintPartial(who) => PartialIssued(PartialToken(cfg, s, who, a, c))
    case MintPair(who, sid) => SignAccess(Claims(who, if sid.Some? then sid.value else c, b, true, 0, 0), a, None)
    case SignAccess(base, accessJti, from) => SignRefresh(base, AccessToken(cfg, s, base, accessJti), from)
    case SignRefresh(base, access, from) =>
      var refresh := RefreshToken(cfg, s, base);
      if from.Some? then Refreshed(from.value, access, refresh) else SavePair(access, refresh)
    case SavePair(access, refresh) => LoggedIn(access, refresh)
    case CheckSid(claims, kind) => if SidRevoked(s, claims.sid) then Refused(Revoked) else CheckCutoff(claims, kind)
    case CheckCutoff(claims, kind) =>
      if IsCutOff(s, claims) then Refused(Revoked) else if kind.Refresh? then Rotate(claims) else Valid(claims)
    case Rotate(claims) =>
      if Trailed(s, claims.jti) then RevokeReplayed(claims)
      else if !Listed(s, claims.jti) then Refused(Invalid)
      else SignAccess(claims.(jti := b), b, Some(claims))
    case RevokeReplayed(_) => Refused(Replay)
    case DropRefresh(claims) => RevokeLogout(claims)
    case RevokeLogout(_) => LoggedOut
    case CutUser(user) => CutWrite(user, s.now / SECOND)
    case CutWrite(_, _) => UserCut
    case pc => pc
  }

  /** What a call does when its next access fails: replay is reported and logout goes on regardless. */
  function FaultPc(pc: PC): PC {
    match pc
    case RevokeReplayed(_) => Refused(Replay)
    case DropRefresh(claims) => RevokeLogout(claims)
    case _ => Refused(Failed)
  }

  /** The writes whose lost reply is a step of its own. A lost rotation is one that ran and a failing signature
      after it, and the other writes go on alike whether they succeed or fail. */
  predicate Lossy(pc: PC) {
    pc.SavePair? || pc.RevokeLogout? || pc.CutWrite?
  }

  /** For steps that draw no ids. */
  const NO_ID := Id(0)

  /** Three ids never drawn before. */
  predicate Fresh(s: Sys, a: Id, b: Id, c: Id) {
    a !in s.used && b !in s.used && c !in s.used && a != b && b != c && a != c
  }

  predicate Enabled(s: Sys, step: Step) {
    match step
    case Tick(_) => true
    case Start(t, _) => t !in s.pcs
    case Act(t, a, b, c) =>
      && t in s.pcs && !Returned(s.pcs[t])
      && (s.pcs[t].MintPartial? || s.pcs[t].MintPair? ==> Fresh(s, a, b, c))
      && (s.pcs[t].Rotate? ==> b !in s.used)
    case Fault(t) => t in s.pcs && !Returned(s.pcs[t])
    case Lost(t) => t in s.pcs && Lossy(s.pcs[t])
  }

  function Goto(s: Sys, t: Call, pc: PC): Sys {
    s.(pcs := s.pcs[t := pc])
  }

  function Apply(cfg: Config, s: Sys, step: Step): Sys
    requires Enabled(s, step)
  {
    match step
    case Tick(d) => s.(now := s.now + d)
    case Start(t, op) => Goto(s, t, FirstPc(cfg, s, op))
    case Act(t, a, b, c) => Goto(Effect(cfg, s, t, a, b, c), t, NextPc(cfg, s, t, a, b, c))
    case Fault(t) => Goto(s, t, FaultPc(s.pcs[t]))
    case Lost(t) => Goto(Effect(cfg, s, t, NO_ID, NO_ID, NO_ID), t, Refused(Failed))
  }

  ghost predicate IsRun(cfg: Config, states: seq<Sys>, steps: seq<Step>) {
    && |states| == |steps| + 1 && states[0] == INITIAL
    && forall i :: 0 <= i < |steps| ==> Enabled(states[i], steps[i]) && states[i + 1] == Apply(cfg, states[i], steps[i])
  }
}
