/**
  The authenticator as the program runs it: the Redis keys are fields its methods change
  in place. Every access is one step of the protocol, and every call a run of it: `sys`
  follows along, so what holds of every run holds of these methods.
 */
module SessionCalls {
  import opened Basics
  import opened Session
  import opened SessionSafety
  import opened SessionRevocation

  /** A call takes its next step. */
  lemma Along(cfg: Config, s: Sys, t: Call, a: Id, b: Id, c: Id)
    requires Reachable(cfg, s) && Enabled(s, Act(t, a, b, c))
    ensures Reachable(cfg, Goto(Effect(cfg, s, t, a, b, c), t, NextPc(cfg, s, t, a, b, c)))
  {
    var u := Go(cfg, INITIAL, s, Act(t, a, b, c));
  }

  lemma AlongRotate(cfg: Config, s: Sys, t: Call, c: Claims, newJti: Id)
    requires Reachable(cfg, s) && t in s.pcs && s.pcs[t] == Rotate(c) && newJti !in s.used && Rotates(s, c)
    ensures Reachable(cfg, Goto(Rotated(cfg, s, t, c, newJti), t, SignAccess(c.(jti := newJti), newJti, Some(c))))
  {
    Along(cfg, s, t, newJti, newJti, newJti);
  }

  lemma Began(cfg: Config, s: Sys, t: Call, op: Op)
    requires Reachable(cfg, s) && t !in s.pcs
    ensures Reachable(cfg, Goto(s, t, FirstPc(cfg, s, op)))
  {
    var u := Go(cfg, INITIAL, s, Start(t, op));
  }

  datatype Rotation = Swapped | Replayed | Unknown

  /** Which accesses of a call fail, without effect. */
  datatype Faults = Faults(session: bool, cutoff: bool, rotate: bool, revoke: bool, access: bool, refresh: bool,
                           delete: bool, save: bool)

  class Authenticator {
    const cfg: Config
    var now: nat
    var used: set<Id>
    var issued: set<Token>                   // stands for the signature check
    var whitelist: map<Id, Entry>
    var trail: map<Id, nat>
    var revoked: map<Id, nat>
    var cutoffs: map<User, Cutoff>
    ghost var sys: Sys

    /** The keys are those of a state the protocol can reach. */
    ghost predicate Valid()
      reads this
    {
      && Reachable(cfg, sys)
      && now == sys.now && used == sys.used && issued == sys.issued && whitelist == sys.whitelist
      && trail == sys.trail && revoked == sys.revoked && cutoffs == sys.cutoffs
    }

    ghost predicate At(t: Call, pc: PC)
      reads this
    {
      t in sys.pcs && sys.pcs[t] == pc
    }

    constructor (cfg: Config)
      ensures Valid() && this.cfg == cfg && sys == INITIAL
    {
      this.cfg := cfg;
      now, used, issued := 0, {}, {};
      whitelist, trail, revoked, cutoffs := map[], map[], map[], map[];
      sys := INITIAL;
      new;
      Stay(cfg, INITIAL);
    }

    method Elapse(d: nat)
      requires Valid()
      modifies this`now, this`sys
      ensures Valid() && sys == old(sys).(now := old(sys).now + d)
    {
      now := now + d;
      sys := Go(cfg, INITIAL, sys, Tick(d));
    }

    /** The clock and signature checks. */
    method ValidateToken(token: Token, kind: Kind) returns (ok: bool)
      requires Valid()
      ensures ok <==> Validates(cfg, sys, token, kind)
    {
      ok := token in issued && token.kind == kind
            && now < token.claims.exp * SECOND + cfg.leeway && now + cfg.leeway >= token.claims.iat * SECOND;
    }

    // ------------------------------------------------------------ one access each

    method CheckSession(t: Call, c: Claims, kind: Kind) returns (yes: bool)
      requires Valid() && At(t, CheckSid(c, kind))
      modifies this`sys
      ensures Valid() && yes == SidRevoked(old(sys), c.sid)
      ensures sys == Goto(old(sys), t, if yes then Refused(Revoked) else CheckCutoff(c, kind))
    {
      yes := c.sid in revoked && now < revoked[c.sid];
      Along(cfg, sys, t, Id(0), Id(0), Id(0));
      sys := Goto(sys, t, if yes then Refused(Revoked) else CheckCutoff(c, kind));
    }

    method CheckUserCutoff(t: Call, c: Claims, kind: Kind) returns (yes: bool)
      requires Valid() && At(t, CheckCutoff(c, kind))
      modifies this`sys
      ensures Valid() && yes == IsCutOff(old(sys), c)
      ensures sys == Goto(old(sys), t,
                          if yes then Refused(Revoked) else if kind.Refresh? then Rotate(c) else PC.Valid(c))
    {
      yes := c.who.user in cutoffs && now < cutoffs[c.who.user].until && c.iat <= cutoffs[c.who.user].second;
      Along(cfg, sys, t, Id(0), Id(0), Id(0));
      sys := Goto(sys, t, if yes then Refused(Revoked) else if kind.Refresh? then Rotate(c) else PC.Valid(c));
    }

    /** The Redis script: replay, unknown id, or a swap of the two ids. */
    method RotateScript(t: Call, c: Claims, newJti: Id) returns (o: Rotation)
      requires Valid() && At(t, Rotate(c)) && newJti !in used
      modifies this`trail, this`whitelist, this`used, this`sys
      ensures Valid()
      ensures o == if Trailed(old(sys), c.jti) then Replayed else if !Listed(old(sys), c.jti) then Unknown else Swapped
      ensures sys == match o
                     case Replayed => Goto(old(sys), t, RevokeReplayed(c))
                     case Unknown => Goto(old(sys), t, Refused(Invalid))
                     case Swapped =>
                       Goto(Rotated(cfg, old(sys), t, c, newJti), t, SignAccess(c.(jti := newJti), newJti, Some(c)))
    {
      Along(cfg, sys, t, newJti, newJti, newJti);
      if c.jti in trail && now < trail[c.jti] {
        sys := Goto(sys, t, RevokeReplayed(c));
        return Replayed;
      }
      if !(c.jti in whitelist && now < whitelist[c.jti].until) {
        sys := Goto(sys, t, Refused(Invalid));
        return Unknown;
      }
      Swap(t, c, newJti);
      o := Swapped;
    }

    method Swap(t: Call, c: Claims, newJti: Id)
      requires Valid() && At(t, Rotate(c)) && newJti !in used && Rotates(sys, c)
      modifies this`trail, this`whitelist, this`used, this`sys
      ensures Valid()
      ensures sys == Goto(Rotated(cfg, old(sys), t, c, newJti), t, SignAccess(c.(jti := newJti), newJti, Some(c)))
    {
      AlongRotate(cfg, sys, t, c, newJti);
      var until := now + cfg.storeTTL / SECOND * SECOND;
      trail := trail[c.jti := until];
      whitelist := (whitelist - {c.jti})[newJti := Entry(RecordOf(c), until)];
      used := used + {newJti};
      sys := Goto(Rotated(cfg, sys, t, c, newJti), t, SignAccess(c.(jti := newJti), newJti, Some(c)));
    }

    method IssueAccess(t: Call, base: Claims, accessJti: Id, from: Option<Claims>) returns (token: Token)
      requires Valid() && At(t, SignAccess(base, accessJti, from))
      modifies this`issued, this`sys
      ensures Valid() && token == AccessToken(cfg, old(sys), base, accessJti)
      ensures sys == Goto(Signed(old(sys), token), t, SignRefresh(base, token, from))
    {
      Along(cfg, sys, t, Id(0), Id(0), Id(0));
      token := Token(Access, Stamp(base.(jti := accessJti), now, cfg.accessTTL));
      issued := issued + {token};
      sys := Goto(Signed(sys, token), t, SignRefresh(base, token, from));
    }

    method IssueRefresh(t: Call, base: Claims, access: Token, from: Option<Claims>) returns (token: Token)
      requires Valid() && At(t, SignRefresh(base, access, from))
      modifies this`issued, this`sys
      ensures Valid() && token == RefreshToken(cfg, old(sys), base)
      ensures sys == Goto(Signed(old(sys), token), t,
                          if from.Some? then Refreshed(from.value, access, token) else SavePair(access, token))
    {
      Along(cfg, sys, t, Id(0), Id(0), Id(0));
      token := Token(Refresh, Stamp(base, now, cfg.refreshTTL));
      issued := issued + {token};
      sys := Goto(Signed(sys, token), t,
                  if from.Some? then Refreshed(from.value, access, token) else SavePair(access, token));
    }

    method Save(t: Call, access: Token, refresh: Token)
      requires Valid() && At(t, SavePair(access, refresh))
      modifies this`whitelist, this`sys
      ensures Valid() && sys == Goto(Saved(cfg, old(sys), refresh.claims), t, LoggedIn(access, refresh))
    {
      Along(cfg, sys, t, Id(0), Id(0), Id(0));
      whitelist := whitelist[refresh.claims.jti := Entry(RecordOf(refresh.claims), now + cfg.storeTTL)];
      sys := Goto(Saved(cfg, sys, refresh.claims), t, LoggedIn(access, refresh));
    }

    method Delete(t: Call, c: Claims)
      requires Valid() && At(t, DropRefresh(c))
      modifies this`whitelist, this`sys
      ensures Valid() && sys == Goto(Dropped(old(sys), c.jti), t, RevokeLogout(c))
    {
      Along(cfg, sys, t, Id(0), Id(0), Id(0));
      whitelist := whitelist - {c.jti};
      sys := Goto(Dropped(sys, c.jti), t, RevokeLogout(c));
    }

    method RevokeSession(t: Call, c: Claims)
      requires Valid() && (At(t, RevokeReplayed(c)) || At(t, RevokeLogout(c)))
      modifies this`revoked, this`sys
      ensures Valid() && JustRevoked(cfg, sys, c.sid)
      ensures sys == Goto(SidKilled(cfg, old(sys), c.sid), t,
                          if old(At(t, RevokeReplayed(c))) then Refused(Replay) else LoggedOut)
    {
      Along(cfg, sys, t, Id(0), Id(0), Id(0));
      revoked := revoked[c.sid := now + cfg.revokeTTL];
      sys := Goto(SidKilled(cfg, sys, c.sid), t, if At(t, RevokeReplayed(c)) then Refused(Replay) else LoggedOut);
    }

    method ReadSecond(t: Call, user: User) returns (second: nat)
      requires Valid() && At(t, CutUser(user))
      modifies this`sys
      ensures Valid() && second == now / SECOND && sys == Goto(old(sys), t, CutWrite(user, second))
    {
      Along(cfg, sys, t, Id(0), Id(0), Id(0));
      second := now / SECOND;
      sys := Goto(sys, t, CutWrite(user, second));
    }

    method WriteCutoff(t: Call, user: User, second: nat)
      requires Valid() && At(t, CutWrite(user, second))
      modifies this`cutoffs, this`sys
      ensures Valid() && sys == Goto(UserKilled(cfg, old(sys), user, second), t, UserCut)
    {
      Along(cfg, sys, t, Id(0), Id(0), Id(0));
      cutoffs := cutoffs[user := Cutoff(second, now + cfg.cutoffTTL)];
      sys := Goto(UserKilled(cfg, sys, user, second), t, UserCut);
    }

    /** The call's next access fails and has no effect. */
    ghost method Fail(t: Call, pc: PC)
      requires Valid() && At(t, pc) && !Returned(pc)
      modifies this`sys
      ensures Valid() && sys == Goto(old(sys), t, FaultPc(pc))
    {
      sys := Go(cfg, INITIAL, sys, Fault(t));
    }

    ghost method Begin(t: Call, op: Op)
      requires Valid() && t !in sys.pcs
      modifies this`sys
      ensures Valid() && sys == Goto(old(sys), t, FirstPc(cfg, old(sys), op))
    {
      Began(cfg, sys, t, op);
      sys := Goto(sys, t, FirstPc(cfg, sys, op));
    }

    // --------------------------------------------------------------- whole calls

    /** The two revocation checks; a failing one fails the call. None when neither objects. */
    method CheckRevoked(t: Call, c: Claims, kind: Kind, f: Faults) returns (refused: Option<Reason>)
      requires Valid() && At(t, CheckSid(c, kind))
      modifies this`sys
      ensures Valid() && sys == old(sys).(pcs := sys.pcs)
      ensures At(t, if refused.Some? then Refused(refused.value) else if kind.Refresh? then Rotate(c) else PC.Valid(c))
      ensures refused == if f.session then Some(Failed)
                         else if SidRevoked(old(sys), c.sid) then Some(Revoked)
                         else if f.cutoff then Some(Failed)
                         else if IsCutOff(old(sys), c) then Some(Revoked)
                         else None
    {
      if f.session {
        Fail(t, CheckSid(c, kind));
        return Some(Failed);
      }
      var yes := CheckSession(t, c, kind);
      if yes {
        return Some(Revoked);
      }
      if f.cutoff {
        Fail(t, CheckCutoff(c, kind));
        return Some(Failed);
      }
      yes := CheckUserCutoff(t, c, kind);
      refused := if yes then Some(Revoked) else None;
    }

    /** Accepted exactly when the token validates, both checks answer, and neither revokes it. */
    method ValidateAccessToken(t: Call, token: Token, f: Faults) returns (r: PC)
      requires Valid() && t !in sys.pcs
      modifies this`sys
      ensures Valid() && At(t, r)
      ensures r == PC.Valid(token.claims) <==>
                && Validates(cfg, old(sys), token, Access) && !f.session && !f.cutoff
                && !SidRevoked(old(sys), token.claims.sid) && !IsCutOff(old(sys), token.claims)
      ensures r != PC.Valid(token.claims) ==> r.Refused?
    {
      Begin(t, Validate(token));
      var ok := ValidateToken(token, Access);
      if !ok {
        return Refused(Invalid);
      }
      var refused := CheckRevoked(t, token.claims, Access, f);
      r := if refused.Some? then Refused(refused.value) else PC.Valid(token.claims);
    }

    method RefreshChecks(t: Call, token: Token, f: Faults) returns (refused: Option<Reason>)
      requires Valid() && t !in sys.pcs
      modifies this`sys
      ensures Valid() && sys == old(sys).(pcs := sys.pcs)
      ensures At(t, if refused.Some? then Refused(refused.value) else Rotate(token.claims))
      ensures refused.None? <==>
                && Validates(cfg, old(sys), token, Refresh) && !f.session && !f.cutoff
                && !SidRevoked(old(sys), token.claims.sid) && !IsCutOff(old(sys), token.claims)
      ensures refused != Some(Replay)
    {
      Begin(t, RefreshPair(token));
      var ok := ValidateToken(token, Refresh);
      if !ok {
        return Some(Invalid);
      }
      refused := CheckRevoked(t, token.claims, Refresh, f);
    }

    /** Sign the pair for a rotated id. */
    method SignRotated(t: Call, c: Claims, newJti: Id, f: Faults) returns (r: PC)
      requires Valid() && At(t, SignAccess(c.(jti := newJti), newJti, Some(c))) && newJti != c.jti
      modifies this`issued, this`sys
      ensures Valid() && At(t, r)
      ensures r.Refreshed? <==> !f.access && !f.refresh
      ensures r.Refreshed? ==> r.prior == c && Continues(c, r.access.claims) && Continues(c, r.refresh.claims)
                               && r.refresh.claims.jti == newJti
      ensures !r.Refreshed? ==> r == Refused(Failed)
    {
      var base := c.(jti := newJti);
      if f.access {
        Fail(t, SignAccess(base, newJti, Some(c)));
        return Refused(Failed);
      }
      var access := IssueAccess(t, base, newJti, Some(c));
      if f.refresh {
        Fail(t, SignRefresh(base, access, Some(c)));
        return Refused(Failed);
      }
      var refresh := IssueRefresh(t, base, access, Some(c));
      r := Refreshed(c, access, refresh);
    }

    /** Rotate, then sign the new pair; a replay revokes the session instead. */
    method RotateAndIssue(t: Call, c: Claims, newJti: Id, f: Faults) returns (r: PC)
      requires Valid() && At(t, Rotate(c)) && newJti !in used && newJti != c.jti
      modifies this
      ensures Valid() && At(t, r)
      ensures r.Refreshed? <==> Rotates(old(sys), c) && !f.rotate && !f.access && !f.refresh
      ensures r.Refreshed? ==> r.prior == c && Continues(c, r.access.claims) && Continues(c, r.refresh.claims)
      ensures r == Refused(Replay) <==> Trailed(old(sys), c.jti) && !f.rotate
      ensures r == Refused(Replay) && !f.revoke ==> JustRevoked(cfg, sys, c.sid)
    {
      if f.rotate {
        Fail(t, Rotate(c));
        return Refused(Failed);
      }
      var o := RotateScript(t, c, newJti);
      match o {
        case Replayed =>
          if f.revoke { Fail(t, RevokeReplayed(c)); } else { RevokeSession(t, c); }
          r := Refused(Replay);
        case Unknown =>
          r := Refused(Invalid);
        case Swapped =>
          r := SignRotated(t, c, newJti, f);
      }
    }

    /** Succeeds exactly when the token validates, nothing revokes it, its id is listed and not rotated before,
        and no access fails. */
    method RefreshTokens(t: Call, token: Token, newJti: Id, f: Faults) returns (r: PC)
      requires Valid() && t !in sys.pcs && newJti !in used
      modifies this
      ensures Valid() && At(t, r)
      ensures r.Refreshed? <==>
                && Validates(cfg, old(sys), token, Refresh) && !SidRevoked(old(sys), token.claims.sid)
                && !IsCutOff(old(sys), token.claims) && Rotates(old(sys), token.claims)
                && !f.session && !f.cutoff && !f.rotate && !f.access && !f.refresh
      ensures r.Refreshed? ==> r.prior == token.claims && Continues(token.claims, r.access.claims)
                               && Continues(token.claims, r.refresh.claims)
      ensures r == Refused(Replay) && !f.revoke ==> JustRevoked(cfg, sys, token.claims.sid)
    {
      if token in issued { IssuedKnown(token); }
      var refused := RefreshChecks(t, token, f);
      if refused.Some? {
        return Refused(refused.value);
      }
      r := RotateAndIssue(t, token.claims, newJti, f);
    }

    /** The ids of a signed token have been drawn. */
    lemma IssuedKnown(token: Token)
      requires Valid() && token in issued
      ensures token.claims.jti in used
    {
      ReachesTimed(cfg, INITIAL, sys);
    }

    /** An invalid token is accepted silently; a valid one is dropped, if the store lets it, and its session revoked,
        which alone can fail the call. */
    method LogoutSession(t: Call, token: Token, f: Faults) returns (r: PC)
      requires Valid() && t !in sys.pcs
      modifies this
      ensures Valid() && At(t, r)
      ensures r == if Validates(cfg, old(sys), token, Refresh) && f.revoke then Refused(Failed) else LoggedOut
      ensures Validates(cfg, old(sys), token, Refresh) && !f.delete ==> token.claims.jti !in whitelist
      ensures Validates(cfg, old(sys), token, Refresh) && !f.revoke ==> JustRevoked(cfg, sys, token.claims.sid)
    {
      Begin(t, Logout(token));
      var ok := ValidateToken(token, Refresh);
      if !ok {
        return LoggedOut;
      }
      r := DropAndRevoke(t, token.claims, f);
    }

    method DropAndRevoke(t: Call, c: Claims, f: Faults) returns (r: PC)
      requires Valid() && At(t, DropRefresh(c))
      modifies this`whitelist, this`revoked, this`sys
      ensures Valid() && At(t, r) && r == if f.revoke then Refused(Failed) else LoggedOut
      ensures !f.delete ==> c.jti !in whitelist
      ensures !f.revoke ==> JustRevoked(cfg, sys, c.sid)
    {
      if f.delete { Fail(t, DropRefresh(c)); } else { Delete(t, c); }
      if f.revoke {
        Fail(t, RevokeLogout(c));
        return Refused(Failed);
      }
      RevokeSession(t, c);
      r := LoggedOut;
    }

    /** The cutoff becomes the second the call read. */
    method RevokeAllForUser(t: Call, user: User, f: Faults) returns (r: PC)
      requires Valid() && t !in sys.pcs
      modifies this`cutoffs, this`sys
      ensures Valid() && At(t, r) && r == if f.revoke then Refused(Failed) else UserCut
      ensures f.revoke ==> cutoffs == old(cutoffs)
      ensures !f.revoke ==> JustCut(cfg, sys, user) && cutoffs[user].second == now / SECOND
    {
      Begin(t, RevokeAll(user));
      var second := ReadSecond(t, user);
      if f.revoke {
        Fail(t, CutWrite(user, second));
        return Refused(Failed);
      }
      WriteCutoff(t, user, second);
      r := UserCut;
    }

    /** A full pair for a fresh login, or in the session of a partial token; handed out exactly when it is listed. */
    method IssueFullPair(t: Call, who: Identity, sid: Option<Id>, accessJti: Id, refreshJti: Id, newSid: Id, f: Faults)
      returns (r: PC)
      requires Valid() && At(t, MintPair(who, sid)) && Fresh(sys, accessJti, refreshJti, newSid)
      modifies this
      ensures Valid() && At(t, r)
      ensures r.LoggedIn? <==> !f.access && !f.refresh && !f.save
      ensures !r.LoggedIn? ==> r == Refused(Failed) && whitelist == old(whitelist)
      ensures r.LoggedIn? ==>
                && r.refresh.claims.who == who && r.refresh.claims.totpDone && r.refresh.claims.jti == refreshJti
                && r.access.claims.sid == r.refresh.claims.sid == (if sid.Some? then sid.value else newSid)
                && refreshJti in whitelist
    {
      var base := Claims(who, if sid.Some? then sid.value else newSid, refreshJti, true, 0, 0);
      Draw(t, who, sid, accessJti, refreshJti, newSid);
      r := SignAndSave(t, base, accessJti, f);
    }

    method SignAndSave(t: Call, base: Claims, accessJti: Id, f: Faults) returns (r: PC)
      requires Valid() && At(t, SignAccess(base, accessJti, None))
      modifies this`issued, this`whitelist, this`sys
      ensures Valid() && At(t, r)
      ensures r.LoggedIn? <==> !f.access && !f.refresh && !f.save
      ensures !r.LoggedIn? ==> r == Refused(Failed) && whitelist == old(whitelist)
      ensures r.LoggedIn? ==> base.jti in whitelist && r.access.claims.sid == base.sid
                              && r.refresh.claims == base.(iat := r.refresh.claims.iat, exp := r.refresh.claims.exp)
    {
      if f.access {
        Fail(t, SignAccess(base, accessJti, None));
        return Refused(Failed);
      }
      var access := IssueAccess(t, base, accessJti, None);
      if f.refresh {
        Fail(t, SignRefresh(base, access, None));
        return Refused(Failed);
      }
      var refresh := IssueRefresh(t, base, access, None);
      if f.save {
        Fail(t, SavePair(access, refresh));
        return Refused(Failed);
      }
      Save(t, access, refresh);
      r := LoggedIn(access, refresh);
    }

    method Draw(t: Call, who: Identity, sid: Option<Id>, accessJti: Id, refreshJti: Id, newSid: Id)
      requires Valid() && At(t, MintPair(who, sid)) && Fresh(sys, accessJti, refreshJti, newSid)
      modifies this`used, this`sys
      ensures Valid() && used == old(used) + {accessJti, refreshJti, newSid}
      ensures At(t, SignAccess(Claims(who, if sid.Some? then sid.value else newSid, refreshJti, true, 0, 0),
                accessJti, None))
    {
      Along(cfg, sys, t, accessJti, refreshJti, newSid);
      used := used + {accessJti, refreshJti, newSid};
      var base := Claims(who, if sid.Some? then sid.value else newSid, refreshJti, true, 0, 0);
      sys := Goto(Drawn(sys, {accessJti, refreshJti, newSid}), t, SignAccess(base, accessJti, None));
    }
  }
}
