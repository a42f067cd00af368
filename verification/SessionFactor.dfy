/**
  A second factor that is still due when its session is revoked or its user cut off:
  the call that completes it asks for neither.
 */
module SessionFactor {
  import opened Basics
  import opened Session
  import opened SessionSafety
  import opened SessionRevocation
  import opened SessionExpiry

  /** A pair is signed after a wait of `x`. */
  function Minted(cfg: Config, s: Sys, x: nat, base: Claims, accessJti: Id): (Token, Token) {
    var later := s.(now := s.now + x);
    (AccessToken(cfg, later, base, accessJti), RefreshToken(cfg, later, base))
  }

  lemma MintAfter(cfg: Config, s: Sys, m: Sys, x: nat, t: Call, base: Claims, accessJti: Id) returns (u: Sys)
    requires Reaches(cfg, s, m) && t in m.pcs && m.pcs[t] == SignAccess(base, accessJti, None)
    ensures var (access, refresh) := Minted(cfg, m, x, base, accessJti);
            && Reaches(cfg, s, u) && u.pcs == m.pcs[t := SavePair(access, refresh)] && access in u.issued
            && u.now == m.now + x && u.cutoffs == m.cutoffs && u.revoked == m.revoked
  {
    u := Go(cfg, s, m, Tick(x));
    u := Mint(cfg, s, u, t, base, accessJti);
  }

  lemma Mint(cfg: Config, s: Sys, m: Sys, t: Call, base: Claims, accessJti: Id) returns (u: Sys)
    requires Reaches(cfg, s, m) && t in m.pcs && m.pcs[t] == SignAccess(base, accessJti, None)
    ensures var access, refresh := AccessToken(cfg, m, base, accessJti), RefreshToken(cfg, m, base);
            && Reaches(cfg, s, u) && u.pcs == m.pcs[t := SavePair(access, refresh)] && access in u.issued
            && u.now == m.now && u.cutoffs == m.cutoffs && u.revoked == m.revoked
  {
    var access, refresh := AccessToken(cfg, m, base, accessJti), RefreshToken(cfg, m, base);
    SignFirst(cfg, s, m, t, base, accessJti);
    u := Goto(Signed(m, access), t, SignRefresh(base, access, None));
    SignSecond(cfg, s, u, t, base, access);
    u := Goto(Signed(u, refresh), t, SavePair(access, refresh));
  }

  function Begun(s: Sys, t: Call, token: Token, who: Identity, a: Id, b: Id, c: Id): Sys {
    Goto(Drawn(s, {a, b, c}), t, SignAccess(Claims(who, token.claims.sid, b, true, 0, 0), a, None))
  }

  lemma ReachBegun(cfg: Config, s: Sys, t: Call, token: Token, who: Identity, a: Id, b: Id, c: Id)
    requires t !in s.pcs && Fresh(s, a, b, c)
    requires Validates(cfg, s, token, Access) && !token.claims.totpDone && who.user == token.claims.who.user
    ensures Reaches(cfg, s, Begun(s, t, token, who, a, b, c))
  {
    Stay(cfg, s);
    var u := Go(cfg, s, s, Start(t, LoginTotp(token, true, who)));
    u := Go(cfg, s, u, Act(t, a, b, c));
    assert u.pcs == Begun(s, t, token, who, a, b, c).pcs;
  }

  /** A token signed under a cutoff is under it if and only if it is signed in the second the cutoff read. */
  lemma SignedUnderCutoff(cfg: Config, s: Sys, u: Sys, c: Claims)
    requires KeyTimes(cfg, s) && s.now <= u.now && u.cutoffs == s.cutoffs && c.iat == u.now / SECOND
    requires c.who.user in s.cutoffs && u.now < s.cutoffs[c.who.user].until
    ensures IsCutOff(u, c) <==> u.now / SECOND == s.cutoffs[c.who.user].second
  {}

  /** Wherever a partial token validates and the code is right, the call can end with a full pair in the
      token's session. Neither key stops it. While the keys live, the new access token is under the user's
      cutoff if and only if it is signed within the very second the cutoff read, and its session is revoked
      if and only if it was. */
  lemma SecondFactorCompletes(
    cfg: Config, s: Sys, t: Call, token: Token, who: Identity, a: Id, b: Id, c: Id, x: nat)
    returns (u: Sys, access: Token, refresh: Token)
    requires Reachable(cfg, s) && t !in s.pcs && Fresh(s, a, b, c)
    requires Validates(cfg, s, token, Access) && !token.claims.totpDone && who.user == token.claims.who.user
    ensures Reaches(cfg, s, u) && u.pcs == s.pcs[t := LoggedIn(access, refresh)] && u.now == s.now + x
    ensures access in u.issued && access.kind.Access? && access.claims.totpDone && access.claims.who == who
    ensures access.claims.sid == token.claims.sid && access.claims == Stamp(access.claims, u.now, cfg.accessTTL)
    ensures who.user in s.cutoffs && u.now < s.cutoffs[who.user].until ==>
              (IsCutOff(u, access.claims) <==> u.now / SECOND == s.cutoffs[who.user].second)
    ensures SidRevoked(u, access.claims.sid) <==> token.claims.sid in s.revoked && u.now < s.revoked[token.claims.sid]
  {
    ReachBegun(cfg, s, t, token, who, a, b, c);
    u := Begun(s, t, token, who, a, b, c);
    var base := u.pcs[t].base;
    var pair := Minted(cfg, u, x, base, a);
    access, refresh := pair.0, pair.1;
    u := MintAfter(cfg, s, u, x, t, base, a);
    SaveLast(cfg, s, u, t, access, refresh);
    u := Goto(Saved(cfg, u, refresh.claims), t, LoggedIn(access, refresh));
    if who.user in s.cutoffs && u.now < s.cutoffs[who.user].until {
      KeysInTime(cfg, s);
      SignedUnderCutoff(cfg, s, u, access.claims);
    }
  }

  lemma KeysInTime(cfg: Config, s: Sys)
    requires Reachable(cfg, s)
    ensures KeyTimes(cfg, s)
  {
    ReachesTimed(cfg, INITIAL, s);
  }

  // ------------------------------------------------------------------------ a run

  /** A login whose second factor is due, and a forced logout in the same instant. */
  function CutWhileDue(cfg: Config): Sys {
    var partial := PartialToken(cfg, INITIAL, WHO, Id(0), Id(2));
    var first := INITIAL.(used := {Id(0), Id(2)}, issued := {partial}, pcs := map[Call(0) := PartialIssued(partial)]);
    Cut(cfg, first, Call(1), WHO.user)
  }

  lemma ReachCutWhileDue(cfg: Config)
    ensures Reachable(cfg, CutWhileDue(cfg))
  {
    Stay(cfg, INITIAL);
    var s := Go(cfg, INITIAL, INITIAL, Start(Call(0), LoginFirst(WHO)));
    s := Go(cfg, INITIAL, s, Act(Call(0), Id(0), Id(1), Id(2)));
    var partial := PartialToken(cfg, INITIAL, WHO, Id(0), Id(2));
    assert s.used == {Id(0), Id(2)} && s.issued == {partial} && s.pcs == map[Call(0) := PartialIssued(partial)];
    CutNow(cfg, s, Call(1), WHO.user);
  }

  lemma PartialStillValid(cfg: Config)
    requires cfg.partialTTL >= SECOND
    ensures var s, partial := CutWhileDue(cfg), PartialToken(cfg, INITIAL, WHO, Id(0), Id(2));
            && Validates(cfg, s, partial, Access) && Fresh(s, Id(3), Id(4), Id(5))
            && Covered(s, WHO.user, partial.claims.iat) && JustCut(cfg, s, WHO.user)
  {
    FloorBelow(cfg.partialTTL);
    assert !StaleCut(CutWhileDue(cfg), WHO.user, 0);
  }

  /** The forced logout covers the partial token, with no earlier reading still to be written and its key still
      alive, yet the second factor completes a second later and its access token is let in. */
  lemma FactorOutlivesCut(cfg: Config) returns (s: Sys, partial: Token, m: Sys, access: Token, refresh: Token, u: Sys)
    requires cfg.partialTTL >= SECOND && cfg.accessTTL >= SECOND && cfg.cutoffTTL > SECOND
    ensures Reachable(cfg, s) && partial in s.issued && JustCut(cfg, s, partial.claims.who.user)
    ensures Covered(s, partial.claims.who.user, partial.claims.iat)
    ensures Reaches(cfg, s, m) && Call(2) !in s.pcs && Call(2) in m.pcs && m.pcs[Call(2)] == LoggedIn(access, refresh)
    ensures access.claims.who.user == partial.claims.who.user && access.claims.sid == partial.claims.sid
    ensures LetIn(cfg, m, m, u, Call(3), access, 0) && u.now < s.cutoffs[partial.claims.who.user].until
  {
    ReachCutWhileDue(cfg);
    s := CutWhileDue(cfg);
    partial := PartialToken(cfg, INITIAL, WHO, Id(0), Id(2));
    PartialStillValid(cfg);
    m, access, refresh := SecondFactorCompletes(cfg, s, Call(2), partial, WHO, Id(3), Id(4), Id(5), SECOND);
    u := LetInAtOnce(cfg, m, access);
  }

  lemma LetInAtOnce(cfg: Config, m: Sys, access: Token) returns (u: Sys)
    requires Call(3) !in m.pcs && access in m.issued && access.kind.Access? && cfg.accessTTL >= SECOND
    requires access.claims == Stamp(access.claims, m.now, cfg.accessTTL)
    requires !SidRevoked(m, access.claims.sid) && !IsCutOff(m, access.claims)
    ensures LetIn(cfg, m, m, u, Call(3), access, 0) && u.now == m.now
  {
    FloorBelow(m.now + cfg.accessTTL);
    FloorBelow(m.now);
    var first, last := ValidateAfter(cfg, m, 0, 0, Call(3), access);
    u := last;
    LaterNow(cfg, Goto(m, Call(3), FirstPc(cfg, m, Validate(access))), u);
  }
}
