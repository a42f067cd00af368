/** Replay detection over runs: a rotated id presented again ends its session. */
module SessionReplay {
  import opened Basics
  import opened Session
  import opened SessionSafety
  import opened SessionRevocation

  /** A step of call t fails after step i and before state j. */
  predicate FaultIn(steps: seq<Step>, t: Call, i: nat, j: nat)
    requires j <= |steps|
    decreases j
  {
    i + 1 < j && (FaultIn(steps, t, i, j - 1) || steps[j - 1] == Fault(t))
  }

  /** The session is revoked, for the whole lifetime of the key, in some state after i up to j. */
  predicate RevokedIn(cfg: Config, states: seq<Sys>, sid: Id, i: nat, j: nat)
    requires j < |states|
    decreases j
  {
    i < j && (RevokedIn(cfg, states, sid, i, j - 1) || JustRevoked(cfg, states[j], sid))
  }

  lemma {:induction false} RevokedAt(cfg: Config, states: seq<Sys>, sid: Id, i: nat, j: nat) returns (k: nat)
    requires j < |states| && RevokedIn(cfg, states, sid, i, j)
    ensures i < k <= j && JustRevoked(cfg, states[k], sid)
  {
    if JustRevoked(cfg, states[j], sid) { k := j; } else { k := RevokedAt(cfg, states, sid, i, j - 1); }
  }

  /** What becomes of a call that was told of a replay: it is to revoke, has revoked, or has failed. */
  ghost predicate Replaying(cfg: Config, states: seq<Sys>, steps: seq<Step>, i: nat, j: nat, t: Call, c: Claims)
    requires j <= |steps| < |states|
  {
    && t in states[j].pcs
    && (states[j].pcs[t] == RevokeReplayed(c)
        || (Returned(states[j].pcs[t]) && FaultIn(steps, t, i, j))
        || (states[j].pcs[t] == Refused(Replay) && RevokedIn(cfg, states, c.sid, i, j)))
  }

  /** One step of a call that is to revoke. */
  lemma RevokeReplayedStep(cfg: Config, s: Sys, step: Step, t: Call, c: Claims)
    requires Enabled(s, step) && t in s.pcs && s.pcs[t] == RevokeReplayed(c)
    ensures var u := Apply(cfg, s, step);
            t in u.pcs && (if step.Act? && step.t == t then u.pcs[t] == Refused(Replay) && JustRevoked(cfg, u, c.sid)
                           else if step == Fault(t) then u.pcs[t] == Refused(Replay)
                           else u.pcs[t] == RevokeReplayed(c))
  {
    if step.Act? && step.t == t { RevokingStep(cfg, s, step); }
  }

  lemma RotateTrailed(cfg: Config, s: Sys, step: Step, c: Claims)
    requires Enabled(s, step) && step.Act? && s.pcs[step.t] == Rotate(c) && Trailed(s, c.jti)
    ensures Apply(cfg, s, step).pcs[step.t] == RevokeReplayed(c)
  {}

  lemma {:induction false} ReplayRun(
    cfg: Config, states: seq<Sys>, steps: seq<Step>, i: nat, j: nat, t: Call, c: Claims)
    requires IsRun(cfg, states, steps) && i < j <= |steps| && steps[i].Act? && steps[i].t == t
    requires t in states[i].pcs && states[i].pcs[t] == Rotate(c) && Trailed(states[i], c.jti)
    ensures Replaying(cfg, states, steps, i, j, t, c)
  {
    if j == i + 1 {
      RotateTrailed(cfg, states[i], steps[i], c);
    } else {
      ReplayRun(cfg, states, steps, i, j - 1, t, c);
      var s, step := states[j - 1], steps[j - 1];
      if s.pcs[t] == RevokeReplayed(c) {
        RevokeReplayedStep(cfg, s, step, t, c);
      } else {
        ReturnedStays(cfg, s, step, t);
      }
    }
  }

  /** A call that presents a rotated id while its trail lasts, and returns without a failed access, reports the
      replay and has revoked the session. */
  lemma ReplayRevokes(cfg: Config, states: seq<Sys>, steps: seq<Step>, i: nat, j: nat, t: Call, c: Claims)
    requires IsRun(cfg, states, steps) && i < j <= |steps| && steps[i].Act? && steps[i].t == t
    requires t in states[i].pcs && states[i].pcs[t] == Rotate(c) && Trailed(states[i], c.jti)
    requires t in states[j].pcs && Returned(states[j].pcs[t])
    ensures FaultIn(steps, t, i, j) || (states[j].pcs[t] == Refused(Replay) && RevokedIn(cfg, states, c.sid, i, j))
  {
    ReplayRun(cfg, states, steps, i, j, t, c);
  }

  // -------------------------------------------------------------- two presenters

  function TrailEnd(cfg: Config, s: Sys): nat {
    s.now + cfg.storeTTL / SECOND * SECOND
  }

  lemma TrailEffect(cfg: Config, s: Sys, t: Call, a: Id, b: Id, c: Id, jti: Id)
    requires t in s.pcs && jti in s.trail
               && !(s.pcs[t].Rotate? && s.pcs[t].claims.jti == jti && Rotates(s, s.pcs[t].claims))
    ensures var u := Effect(cfg, s, t, a, b, c); jti in u.trail && u.trail[jti] == s.trail[jti]
  {}

  predicate Rotating(s: Sys, step: Step, jti: Id) {
    step.Act? && step.t in s.pcs && s.pcs[step.t].Rotate? && s.pcs[step.t].claims.jti == jti
      && Rotates(s, s.pcs[step.t].claims)
  }

  lemma TrailStep(cfg: Config, s: Sys, step: Step, jti: Id)
    requires Enabled(s, step) && jti in s.trail && !Rotating(s, step, jti)
    ensures jti in Apply(cfg, s, step).trail && Apply(cfg, s, step).trail[jti] == s.trail[jti]
  {
    if step.Act? { TrailEffect(cfg, s, step.t, step.a, step.b, step.c, jti); }
    if step.Lost? { TrailEffect(cfg, s, step.t, NO_ID, NO_ID, NO_ID, jti); }
  }

  lemma TrailWritten(cfg: Config, s: Sys, step: Step, c: Claims)
    requires Enabled(s, step) && IsRotation(s, step, c)
    ensures c.jti in Apply(cfg, s, step).trail && Apply(cfg, s, step).trail[c.jti] == TrailEnd(cfg, s)
  {}

  /** The trail of an id is written once. */
  lemma {:induction false} TrailStays(cfg: Config, states: seq<Sys>, steps: seq<Step>, i: nat, j: nat, c: Claims)
    requires IsRun(cfg, states, steps) && i < j <= |steps| && IsRotation(states[i], steps[i], c)
    ensures c.jti in states[j].trail && states[j].trail[c.jti] == TrailEnd(cfg, states[i])
  {
    var s, step := states[j - 1], steps[j - 1];
    if i + 1 == j {
      TrailWritten(cfg, s, step, c);
    } else {
      TrailStays(cfg, states, steps, i, j - 1, c);
      if Rotating(s, step, c.jti) {
        RotatedAtMostOnce(cfg, states, steps, i, j - 1, c, s.pcs[step.t].claims);
      }
      TrailStep(cfg, s, step, c.jti);
    }
  }

  lemma RunTimed(cfg: Config, states: seq<Sys>, steps: seq<Step>, k: nat)
    requires IsRun(cfg, states, steps) && k <= |steps|
    ensures TimedInv(cfg, states[k]) && IsPath(cfg, states[k..], steps[k..])
  {
    PathTimed(cfg, states, steps, k);
  }

  /** `RevokedIsRefused` from the middle of a run. */
  lemma RevokedFrom(cfg: Config, states: seq<Sys>, steps: seq<Step>, k: nat, n: nat, t: Call, c: Claims)
    requires IsRun(cfg, states, steps) && k <= n <= |steps| && JustRevoked(cfg, states[k], c.sid)
    requires states[n].now < states[k].now + cfg.revokeTTL && t !in states[k].pcs && t in states[n].pcs
    ensures PassedSid(states[n].pcs[t]) != Some(c)
  {
    RunTimed(cfg, states, steps, k);
    RevokedIsRefused(cfg, states[k..], steps[k..], n - k, t, c);
  }

  /** From state k on, while its revocation key lasts, no call that starts later takes a token of the session
      past the session check. */
  ghost predicate Barred(cfg: Config, states: seq<Sys>, k: nat, sid: Id)
    requires k < |states|
  {
    forall n: nat, u, d: Claims :: BarredAt(cfg, states, k, sid, n, u, d) ==> PassedSid(states[n].pcs[u]) != Some(d)
  }

  predicate BarredAt(cfg: Config, states: seq<Sys>, k: nat, sid: Id, n: nat, u: Call, d: Claims)
    requires k < |states|
  {
    && k <= n < |states| && states[n].now < states[k].now + cfg.revokeTTL
    && d.sid == sid && u !in states[k].pcs && u in states[n].pcs
  }

  /** One call rotates an id, another presents it again while the trail lasts and returns without a failed access:
      it reports the replay, and from some state in between the session is barred. */
  lemma ReplayEndsSession(cfg: Config, states: seq<Sys>, steps: seq<Step>, i: nat, j: nat, m: nat, t: Call, c: Claims,
                          d: Claims) returns (k: nat)
    requires IsRun(cfg, states, steps) && i < j < m <= |steps| && IsRotation(states[i], steps[i], c)
    requires steps[j].Act? && steps[j].t == t && t in states[j].pcs && states[j].pcs[t] == Rotate(d) && d.jti == c.jti
    requires states[j].now < TrailEnd(cfg, states[i])
    requires t in states[m].pcs && Returned(states[m].pcs[t]) && !FaultIn(steps, t, j, m)
    ensures states[m].pcs[t] == Refused(Replay)
    ensures j < k <= m && JustRevoked(cfg, states[k], d.sid) && Barred(cfg, states, k, d.sid)
  {
    TrailStays(cfg, states, steps, i, j, c);
    ReplayRevokes(cfg, states, steps, j, m, t, d);
    k := RevokedAt(cfg, states, d.sid, j, m);
    forall n: nat, u, x: Claims | BarredAt(cfg, states, k, d.sid, n, u, x)
        ensures PassedSid(states[n].pcs[u]) != Some(x) {
      RevokedFrom(cfg, states, steps, k, n, u, x);
    }
  }
}
