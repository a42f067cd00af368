/**
  The lockout of one account under concurrent calls: each Redis command and each
  reading of the clock is one step, so calls interleave between any two of them.

  `place` is the number a failure drew with INCR, in which streak of the counter.
  A streak ends when the counter is deleted or has expired.
 */
module LockoutSteps {
  import opened Basics
  import opened Lockout

  datatype Place = Place(streak: nat, n: nat)

  datatype Op = Register | Reset | Check

  datatype PC =
    | Incr | Expire(place: Place) | ReadClock(place: Place) | SetUntil(place: Place, second: nat)
    | Registered(place: Place, locked: bool)
    | Del | WasReset
    | Get | Compare(second: nat) | Checked(locked: bool)
    | StoreFailed

  datatype Sys = Sys(
    now: nat,
    fails: Option<Counter>,
    until: Option<Until>,
    streak: nat,                             // of the counter
    drew: map<Place, Call>,                  // who drew which number
    pcs: map<Call, PC>)

  const INITIAL := Sys(0, None, None, 0, map[], map[])

  /** `Fault`: the command fails. `Lost`: it runs and its reply is lost. */
  datatype Step = Tick(n: nat) | Start(t: Call, op: Op) | Act(t: Call) | Fault(t: Call) | Lost(t: Call)

  predicate Returned(pc: PC) {
    pc.Registered? || pc.WasReset? || pc.Checked? || pc.StoreFailed?
  }

  predicate Enabled(s: Sys, step: Step) {
    match step
    case Tick(_) => true
    case Start(t, _) => t !in s.pcs
    case Act(t) => t in s.pcs && !Returned(s.pcs[t])
    case Fault(t) => t in s.pcs && !Returned(s.pcs[t])
    case Lost(t) => t in s.pcs && !Returned(s.pcs[t])
  }

  function FirstPc(op: Op): PC {
    match op
    case Register => Incr
    case Reset => Del
    case Check => Get
  }

  /** The number the next INCR draws. */
  function NextPlace(s: Sys): Place {
    var n := Incremented(s.fails, s.now).n;
    Place(if n == 1 then s.streak + 1 else s.streak, n)
  }

  function Effect(rule: Rule, s: Sys, t: Call): (u: Sys)
    requires t in s.pcs
    ensures u.pcs == s.pcs && u.now == s.now
  {
    match s.pcs[t]
    case Incr =>
      var place := NextPlace(s);
      s.(fails := Some(Incremented(s.fails, s.now)), streak := place.streak, drew := s.drew[place := t])
    case Expire(_) =>
      if s.fails.None? then s else s.(fails := Some(s.fails.value.(until := Some(s.now + 2 * rule.duration))))
    case SetUntil(_, second) => s.(until := Some(Until(second, s.now + rule.duration)))
    case Del => s.(fails := None, until := None, streak := s.streak + 1)
    case _ => s
  }

  /** Past the counter: a failure below the threshold is done. */
  function AfterCount(rule: Rule, place: Place): PC {
    if place.n < rule.threshold then Registered(place, false) else ReadClock(place)
  }

  function NextPc(rule: Rule, s: Sys, t: Call): PC
    requires t in s.pcs
  {
    match s.pcs[t]
    case Incr => if NextPlace(s).n == 1 then Expire(NextPlace(s)) else AfterCount(rule, NextPlace(s))
    case Expire(place) => AfterCount(rule, place)
    case ReadClock(place) => SetUntil(place, (s.now + rule.duration) / SECOND)
    case SetUntil(place, _) => Registered(place, true)
    case Del => WasReset
    case Get => if s.until.Some? && s.now < s.until.value.expires then Compare(s.until.value.second) else Checked(false)
    case Compare(second) => Checked(s.now / SECOND < second)
    case pc => pc
  }

  function Goto(s: Sys, t: Call, pc: PC): Sys {
    s.(pcs := s.pcs[t := pc])
  }

  function Apply(rule: Rule, s: Sys, step: Step): Sys
    requires Enabled(s, step)
  {
    match step
    case Tick(n) => s.(now := s.now + n)
    case Start(t, op) => Goto(s, t, FirstPc(op))
    case Act(t) => Goto(Effect(rule, s, t), t, NextPc(rule, s, t))
    case Fault(t) => Goto(s, t, StoreFailed)
    case Lost(t) => Goto(Effect(rule, s, t), t, StoreFailed)
  }

  ghost predicate IsPath(rule: Rule, states: seq<Sys>, steps: seq<Step>) {
    && |states| == |steps| + 1
    && forall i :: 0 <= i < |steps| ==>
         Enabled(states[i], steps[i]) && states[i + 1] == Apply(rule, states[i], steps[i])
  }

  predicate Acts(s: Sys, step: Step, pc: PC) {
    (step.Act? || step.Lost?) && step.t in s.pcs && s.pcs[step.t] == pc
  }

  /** No step of the path is a command `pc` taking effect. */
  ghost predicate Never(states: seq<Sys>, steps: seq<Step>, pc: PC)
    requires |states| == |steps| + 1
  {
    forall i :: 0 <= i < |steps| ==> !Acts(states[i], steps[i], pc)
  }

  ghost predicate Reachable(rule: Rule, s: Sys) {
    exists states, steps :: IsPath(rule, states, steps) && states[0] == INITIAL && states[|steps|] == s
  }

  /** `u` follows `s` on a path on which `pc` never takes effect. */
  ghost predicate ReachesWithout(rule: Rule, s: Sys, u: Sys, pc: PC) {
    exists states, steps :: IsPath(rule, states, steps) && Never(states, steps, pc) && states[0] == s
             && states[|steps|] == u
  }

  // -------------------------------------------------------------------- the times

  /** A lock runs out, by its key's expiry, no earlier than the second it names. */
  ghost predicate Times(rule: Rule, s: Sys) {
    && (s.until.Some? ==> s.until.value.second * SECOND <= s.until.value.expires <= s.now + rule.duration)
    && (forall t :: t in s.pcs && s.pcs[t].SetUntil? ==> s.pcs[t].second * SECOND <= s.now + rule.duration)
  }

  lemma TimesAct(rule: Rule, s: Sys, t: Call)
    requires Times(rule, s) && t in s.pcs
    ensures Times(rule, Goto(Effect(rule, s, t), t, NextPc(rule, s, t)))
  {
    assert (s.now + rule.duration) / SECOND * SECOND <= s.now + rule.duration;
  }

  // ------------------------------------------------------------------- the numbers

  predicate HasPlace(pc: PC, place: Place) {
    (pc.Expire? || pc.ReadClock? || pc.SetUntil? || pc.Registered?) && pc.place == place
  }

  /** Where a failure that drew `place` can be. */
  predicate PlaceAgrees(rule: Rule, pc: PC, place: Place) {
    && HasPlace(pc, place)
    && (pc.ReadClock? || pc.SetUntil? ==> place.n >= rule.threshold)
    && (pc.Registered? ==> (pc.locked <==> place.n >= rule.threshold))
  }

  ghost predicate Counting(s: Sys) {
    s.fails.Some? ==> forall i :: 1 <= i <= s.fails.value.n ==> Place(s.streak, i) in s.drew
  }

  ghost predicate Bounded(s: Sys) {
    forall place :: place in s.drew ==>
      place.streak <= s.streak && (place.streak == s.streak ==> s.fails.Some? && place.n <= s.fails.value.n)
  }

  ghost predicate Drew(rule: Rule, s: Sys) {
    && (forall t, place :: t in s.pcs && HasPlace(s.pcs[t], place) ==> place in s.drew && s.drew[place] == t)
    && (forall place :: place in s.drew ==>
          s.drew[place] in s.pcs
            && (s.pcs[s.drew[place]].StoreFailed? || PlaceAgrees(rule, s.pcs[s.drew[place]], place)))
  }

  ghost predicate Inv(rule: Rule, s: Sys) {
    Times(rule, s) && Counting(s) && Bounded(s) && Drew(rule, s)
  }

  lemma NextPlaceIsNew(s: Sys)
    requires Bounded(s)
    ensures NextPlace(s) !in s.drew
  {}

  lemma CountingAct(rule: Rule, s: Sys, t: Call)
    requires Counting(s) && Bounded(s) && t in s.pcs
    ensures Counting(Effect(rule, s, t)) && Bounded(Effect(rule, s, t))
  {}

  lemma DrewAct(rule: Rule, s: Sys, t: Call)
    requires Bounded(s) && Drew(rule, s) && t in s.pcs && !Returned(s.pcs[t])
    ensures Drew(rule, Goto(Effect(rule, s, t), t, NextPc(rule, s, t)))
  {
    if s.pcs[t].Incr? { DrewIncr(rule, s, t); } else { DrewMove(rule, s, t); }
  }

  lemma DrewIncr(rule: Rule, s: Sys, t: Call)
    requires Bounded(s) && Drew(rule, s) && t in s.pcs && s.pcs[t].Incr?
    ensures Drew(rule, Goto(Effect(rule, s, t), t, NextPc(rule, s, t)))
  {
    NextPlaceIsNew(s);
  }

  /** A call keeps its number. */
  lemma DrewMove(rule: Rule, s: Sys, t: Call)
    requires Drew(rule, s) && t in s.pcs && !Returned(s.pcs[t]) && !s.pcs[t].Incr?
    ensures Drew(rule, Goto(Effect(rule, s, t), t, NextPc(rule, s, t)))
  {
    var pc, next := s.pcs[t], NextPc(rule, s, t);
    assert forall place :: HasPlace(next, place) <==> HasPlace(pc, place);
    assert forall place :: PlaceAgrees(rule, pc, place) ==> PlaceAgrees(rule, next, place);
  }

  /** A number whose reply was lost is drawn all the same. */
  lemma InvLost(rule: Rule, s: Sys, t: Call)
    requires Inv(rule, s) && Enabled(s, Lost(t))
    ensures Inv(rule, Apply(rule, s, Lost(t)))
  {
    TimesAct(rule, s, t);
    CountingAct(rule, s, t);
    NextPlaceIsNew(s);
  }

  lemma InvStep(rule: Rule, s: Sys, step: Step)
    requires Inv(rule, s) && Enabled(s, step)
    ensures Inv(rule, Apply(rule, s, step))
  {
    if step.Act? {
      TimesAct(rule, s, step.t);
      CountingAct(rule, s, step.t);
      DrewAct(rule, s, step.t);
    } else if step.Lost? {
      InvLost(rule, s, step.t);
    }
  }

  lemma {:induction false} PathInv(rule: Rule, states: seq<Sys>, steps: seq<Step>, n: nat)
    requires IsPath(rule, states, steps) && n <= |steps| && Inv(rule, states[0])
    ensures Inv(rule, states[n])
  {
    if n > 0 {
      PathInv(rule, states, steps, n - 1);
      InvStep(rule, states[n - 1], steps[n - 1]);
    }
  }

  lemma ReachableInv(rule: Rule, s: Sys)
    requires Reachable(rule, s)
    ensures Inv(rule, s)
  {
    var states, steps :| IsPath(rule, states, steps) && states[0] == INITIAL && states[|steps|] == s;
    PathInv(rule, states, steps, |steps|);
  }

  /** However failures interleave, when a streak has reached the threshold exactly one of its calls drew
      that number; it has reported the lock, is on its way to set it, or the store failed it. */
  lemma OneCrosses(rule: Rule, s: Sys) returns (t: Call)
    requires Reachable(rule, s) && s.fails.Some? && 1 <= rule.threshold <= s.fails.value.n
    ensures var place := Place(s.streak, rule.threshold);
            && t in s.pcs
            && (s.pcs[t].StoreFailed? || (HasPlace(s.pcs[t], place) && (s.pcs[t].Registered? ==> s.pcs[t].locked)))
            && (forall u :: u in s.pcs && HasPlace(s.pcs[u], place) ==> u == t)
  {
    ReachableInv(rule, s);
    t := s.drew[Place(s.streak, rule.threshold)];
  }

  // ------------------------------------------------------- the unlock never moves back

  /** A call that read the clock earlier is still to set its unlock second. */
  ghost predicate StaleSet(s: Sys, second: nat) {
    exists t :: t in s.pcs && s.pcs[t].SetUntil? && s.pcs[t].second < second
  }

  /** Locked at least until `second`, and no call under way is going to take that back. */
  ghost predicate Held(s: Sys, second: nat) {
    s.until.Some? && second <= s.until.value.second && !StaleSet(s, second)
  }

  lemma HeldStep(rule: Rule, s: Sys, step: Step, second: nat)
    requires Times(rule, s) && Held(s, second) && Enabled(s, step) && !Acts(s, step, Del)
    requires second <= (s.now + rule.duration) / SECOND
    ensures Held(Apply(rule, s, step), second) && second <= (Apply(rule, s, step).now + rule.duration) / SECOND
  {
    if step.Tick? {
      assert (s.now + rule.duration) / SECOND <= (s.now + step.n + rule.duration) / SECOND;
    }
  }

  lemma {:induction false} PathHeld(rule: Rule, states: seq<Sys>, steps: seq<Step>, n: nat, second: nat)
    requires IsPath(rule, states, steps) && Never(states, steps, Del) && n <= |steps|
    requires Inv(rule, states[0]) && Held(states[0], second) && second <= (states[0].now + rule.duration) / SECOND
    ensures Held(states[n], second) && second <= (states[n].now + rule.duration) / SECOND
  {
    if n > 0 {
      PathHeld(rule, states, steps, n - 1, second);
      PathInv(rule, states, steps, n - 1);
      HeldStep(rule, states[n - 1], steps[n - 1], second);
    }
  }

  /** Without a reset, the unlock moves to an earlier second. */
  ghost predicate MovesEarlier(rule: Rule, s: Sys)
    requires s.until.Some?
  {
    exists u :: ReachesWithout(rule, s, u, Del) && (u.until.None? || u.until.value.second < s.until.value.second)
  }

  /** That can happen if and only if a call that read an earlier clock is still to set its second. */
  lemma MovesEarlierIff(rule: Rule, s: Sys)
    requires Reachable(rule, s) && s.until.Some?
    ensures MovesEarlier(rule, s) <==> StaleSet(s, s.until.value.second)
  {
    ReachableInv(rule, s);
    var second := s.until.value.second;
    if StaleSet(s, second) {
      var t :| t in s.pcs && s.pcs[t].SetUntil? && s.pcs[t].second < second;
      var u := Apply(rule, s, Act(t));
      OneStep(rule, s, Act(t), Del);
      assert u.until.value.second < second;
    } else {
      SecondReached(rule, s);
      forall u | ReachesWithout(rule, s, u, Del) ensures u.until.Some? && second <= u.until.value.second {
        var states, steps :|
          IsPath(rule, states, steps) && Never(states, steps, Del) && states[0] == s && states[|steps|] == u;
        PathHeld(rule, states, steps, |steps|, second);
      }
    }
  }

  lemma OneStep(rule: Rule, s: Sys, step: Step, pc: PC)
    requires Enabled(s, step) && !Acts(s, step, pc)
    ensures ReachesWithout(rule, s, Apply(rule, s, step), pc)
  {
    var states, steps := [s, Apply(rule, s, step)], [step];
    assert IsPath(rule, states, steps) && Never(states, steps, pc);
  }

  lemma SecondReached(rule: Rule, s: Sys)
    requires Times(rule, s) && s.until.Some?
    ensures s.until.value.second <= (s.now + rule.duration) / SECOND
  {}

  // --------------------------------------------------------------------- the check

  ghost predicate Sees(s: Sys, t: Call, second: nat) {
    t in s.pcs ==>
      && (s.pcs[t].Compare? ==> second <= s.pcs[t].second)
      && (s.pcs[t] == Checked(false) ==> second <= s.now / SECOND)
  }

  lemma SeesStep(rule: Rule, s: Sys, step: Step, t: Call, second: nat)
    requires Times(rule, s) && Held(s, second) && Sees(s, t, second) && Enabled(s, step)
    ensures Sees(Apply(rule, s, step), t, second)
  {
    if step.Tick? {
      assert s.now / SECOND <= (s.now + step.n) / SECOND;
    } else if step.Act? && step.t == t && s.pcs[t].Get? && s.now >= s.until.value.expires {
      assert second * SECOND <= s.now;
    }
  }

  /** A check that begins while the account is locked until `second`, with no earlier reading still to be
      set, and is not overtaken by a reset, says unlocked only once that second has come. */
  lemma {:induction false} CheckIsRight(rule: Rule, states: seq<Sys>, steps: seq<Step>, n: nat, t: Call, second: nat)
    requires IsPath(rule, states, steps) && Never(states, steps, Del) && n <= |steps|
    requires Inv(rule, states[0]) && Held(states[0], second) && t !in states[0].pcs
    ensures Sees(states[n], t, second)
  {
    if n > 0 {
      CheckIsRight(rule, states, steps, n - 1, t, second);
      SecondReached(rule, states[0]);
      PathHeld(rule, states, steps, n - 1, second);
      PathInv(rule, states, steps, n - 1);
      SeesStep(rule, states[n - 1], steps[n - 1], t, second);
    }
  }

  // ----------------------------------------------------------------- after a reset

  /** A check made in this very instant says locked. */
  predicate LockedNow(s: Sys) {
    s.until.Some? && s.now < s.until.value.expires && s.now / SECOND < s.until.value.second
  }

  /** A failure that drew a number at the threshold or above and can still lock: it has the clock still to read,
      or has read a second that has not come yet. */
  predicate Arriving(rule: Rule, s: Sys, pc: PC) {
    || (pc.Expire? && pc.place.n >= rule.threshold && rule.duration > 0)
    || (pc.ReadClock? && rule.duration > 0)
    || (pc.SetUntil? && s.now / SECOND < pc.second)
  }

  ghost predicate OnItsWay(rule: Rule, s: Sys) {
    exists t :: t in s.pcs && Arriving(rule, s, s.pcs[t])
  }

  /** A check that begins now or later says locked though nobody fails any more. */
  ghost predicate LocksUnprovoked(rule: Rule, s: Sys, check: Call) {
    exists u :: ReachesWithout(rule, s, u, Incr) && check in u.pcs && u.pcs[check] == Checked(true)
  }

  /** Nothing locks, nothing is on its way, and the check has not seen a lock that lasts. */
  ghost predicate Clear(rule: Rule, s: Sys, check: Call) {
    && (s.until.Some? ==> s.until.value.second <= s.now / SECOND) && !OnItsWay(rule, s)
    && (check in s.pcs ==> s.pcs[check] != Checked(true))
    && (check in s.pcs && s.pcs[check].Compare? ==> s.pcs[check].second <= s.now / SECOND)
  }

  lemma ClearStep(rule: Rule, s: Sys, step: Step, check: Call)
    requires Clear(rule, s, check) && Enabled(s, step) && !Acts(s, step, Incr)
    ensures Clear(rule, Apply(rule, s, step), check)
  {
    if step.Tick? {
      assert s.now / SECOND <= (s.now + step.n) / SECOND;
    }
  }

  lemma {:induction false} StaysClear(rule: Rule, states: seq<Sys>, steps: seq<Step>, n: nat, check: Call)
    requires IsPath(rule, states, steps) && Never(states, steps, Incr) && n <= |steps| && Clear(rule, states[0], check)
    ensures Clear(rule, states[n], check)
  {
    if n > 0 {
      StaysClear(rule, states, steps, n - 1, check);
      ClearStep(rule, states[n - 1], steps[n - 1], check);
    }
  }

  lemma ReachesOn(rule: Rule, s: Sys, m: Sys, step: Step, pc: PC)
    requires ReachesWithout(rule, s, m, pc) && Enabled(m, step) && !Acts(m, step, pc)
    ensures ReachesWithout(rule, s, Apply(rule, m, step), pc)
  {
    var states, steps :| IsPath(rule, states, steps) && Never(states, steps, pc) && states[0] == s
      && states[|steps|] == m;
    var longer, more := states + [Apply(rule, m, step)], steps + [step];
    forall i | 0 <= i < |more|
      ensures Enabled(longer[i], more[i]) && longer[i + 1] == Apply(rule, longer[i], more[i])
                && !Acts(longer[i], more[i], pc)
    {
      if i < |steps| { assert longer[i] == states[i] && longer[i + 1] == states[i + 1] && more[i] == steps[i]; }
    }
    assert IsPath(rule, longer, more) && Never(longer, more, pc);
  }

  lemma ReachesSelf(rule: Rule, s: Sys, pc: PC)
    ensures ReachesWithout(rule, s, s, pc)
  {
    assert IsPath(rule, [s], []) && Never([s], [], pc);
  }

  /** A check that begins while the account is locked says so at once. */
  lemma CheckSaysLocked(rule: Rule, s: Sys, m: Sys, check: Call) returns (u: Sys)
    requires ReachesWithout(rule, s, m, Incr) && LockedNow(m) && check !in m.pcs
    ensures ReachesWithout(rule, s, u, Incr) && check in u.pcs && u.pcs[check] == Checked(true)
  {
    ReachesOn(rule, s, m, Start(check, Check), Incr);
    u := Goto(m, check, Get);
    ReachesOn(rule, s, u, Act(check), Incr);
    u := Apply(rule, u, Act(check));
    ReachesOn(rule, s, u, Act(check), Incr);
    u := Apply(rule, u, Act(check));
  }

  /** How long to wait for the last instant of the current second. */
  function ToLastInstant(now: nat): (d: nat)
    ensures (now + d + 1) / SECOND == now / SECOND + 1 && (now + d) / SECOND == now / SECOND
  {
    SECOND - 1 - now % SECOND
  }

  /** The SET of a second that has not come yet locks. */
  lemma SetLocks(rule: Rule, s: Sys, m: Sys, t: Call) returns (u: Sys)
    requires ReachesWithout(rule, s, m, Incr) && t in m.pcs && m.pcs[t].SetUntil? && m.now / SECOND < m.pcs[t].second
    requires rule.duration > 0
    ensures ReachesWithout(rule, s, u, Incr) && LockedNow(u) && u.pcs.Keys == m.pcs.Keys
  {
    ReachesOn(rule, s, m, Act(t), Incr);
    u := Apply(rule, m, Act(t));
  }

  /** A clock read in the last instant of a second gives a later one. */
  lemma ReadLocks(rule: Rule, s: Sys, m: Sys, t: Call) returns (u: Sys)
    requires ReachesWithout(rule, s, m, Incr) && t in m.pcs && m.pcs[t].ReadClock? && rule.duration > 0
    ensures ReachesWithout(rule, s, u, Incr) && LockedNow(u) && u.pcs.Keys == m.pcs.Keys
  {
    var d := ToLastInstant(m.now);
    ReachesOn(rule, s, m, Tick(d), Incr);
    u := m.(now := m.now + d);
    ReachesOn(rule, s, u, Act(t), Incr);
    assert (u.now + 1) / SECOND <= (u.now + rule.duration) / SECOND;
    u := Apply(rule, u, Act(t));
    u := SetLocks(rule, s, u, t);
  }

  /** A call on its way locks on its own. */
  lemma Finishes(rule: Rule, s: Sys, t: Call) returns (u: Sys)
    requires Times(rule, s) && t in s.pcs && Arriving(rule, s, s.pcs[t])
    ensures ReachesWithout(rule, s, u, Incr) && LockedNow(u) && u.pcs.Keys == s.pcs.Keys
  {
    ReachesSelf(rule, s, Incr);
    match s.pcs[t]
    case SetUntil(_, second) =>
      assert second * SECOND <= s.now + rule.duration;
      u := SetLocks(rule, s, s, t);
    case ReadClock(_) =>
      u := ReadLocks(rule, s, s, t);
    case Expire(_) =>
      ReachesOn(rule, s, s, Act(t), Incr);
      u := ReadLocks(rule, s, Apply(rule, s, Act(t)), t);
  }

  /** An account that is not locked, after a reset or because its lock has run out, is found locked by a later check
      without a further failure if and only if a failure that can still lock is on its way. */
  lemma LocksUnprovokedIff(rule: Rule, s: Sys, check: Call)
    requires Reachable(rule, s) && !LockedNow(s) && check !in s.pcs
    ensures LocksUnprovoked(rule, s, check) <==> OnItsWay(rule, s)
  {
    ReachableInv(rule, s);
    if OnItsWay(rule, s) {
      var t :| t in s.pcs && Arriving(rule, s, s.pcs[t]);
      var m := Finishes(rule, s, t);
      var u := CheckSaysLocked(rule, s, m, check);
    } else if u :| ReachesWithout(rule, s, u, Incr) && check in u.pcs && u.pcs[check] == Checked(true) {
      var states, steps :|
        IsPath(rule, states, steps) && Never(states, steps, Incr) && states[0] == s && states[|steps|] == u;
      StaysClear(rule, states, steps, |steps|, check);
    }
  }

  // ---------------------------------------------------------------------- two runs

  lemma Go(rule: Rule, s: Sys, step: Step) returns (u: Sys)
    requires Reachable(rule, s) && Enabled(s, step)
    ensures Reachable(rule, u) && u == Apply(rule, s, step)
  {
    u := Apply(rule, s, step);
    var states, steps :| IsPath(rule, states, steps) && states[0] == INITIAL && states[|steps|] == s;
    var longer, more := states + [u], steps + [step];
    forall i | 0 <= i < |more| ensures Enabled(longer[i], more[i]) && longer[i + 1] == Apply(rule, longer[i], more[i]) {
      if i < |steps| { assert longer[i] == states[i] && longer[i + 1] == states[i + 1] && more[i] == steps[i]; }
    }
    assert IsPath(rule, longer, more);
  }

  /** A state at time 0 in which k failures have been counted and no lock was ever set. */
  ghost predicate Counted(rule: Rule, s: Sys, k: nat) {
    && Reachable(rule, s) && s.now == 0 && s.until.None?
    && (if k == 0 then s.fails.None? else s.fails == Some(Counter(k, Some(2 * rule.duration))))
    && forall i :: i >= k ==> Call(i) !in s.pcs
  }

  lemma ReachStart(rule: Rule)
    ensures Reachable(rule, INITIAL)
  {
    assert IsPath(rule, [INITIAL], []);
  }

  /** The next failure draws its number, and the counter its expiry. */
  lemma CountOne(rule: Rule, s: Sys, k: nat) returns (u: Sys)
    requires Counted(rule, s, k) && rule.duration > 0
    ensures Counted(rule, u, k + 1)
    ensures u.pcs == s.pcs[Call(k) := AfterCount(rule, NextPlace(s))] && NextPlace(s).n == k + 1
  {
    var t := Call(k);
    u := Go(rule, s, Start(t, Register));
    u := Go(rule, u, Act(t));
    if k == 0 { u := Go(rule, u, Act(t)); }
    assert u.pcs == s.pcs[t := AfterCount(rule, NextPlace(s))];
  }

  lemma {:induction false} ReachCounted(rule: Rule, k: nat) returns (s: Sys)
    requires rule.duration > 0
    ensures Counted(rule, s, k)
  {
    if k == 0 {
      ReachStart(rule);
      s := INITIAL;
    } else {
      s := ReachCounted(rule, k - 1);
      s := CountOne(rule, s, k - 1);
    }
  }

  /** One call has reached the threshold and read the clock at time 0. */
  lemma ReachCrossed(rule: Rule) returns (s: Sys)
    requires rule.threshold > 0 && rule.duration > 0
    ensures Reachable(rule, s) && s.now == 0 && s.until.None? && forall i :: i > rule.threshold ==> Call(i) !in s.pcs
    ensures var a, b := Call(rule.threshold - 1), Call(rule.threshold);
            && a in s.pcs && s.pcs[a].SetUntil? && s.pcs[a].second == rule.duration / SECOND
            && b in s.pcs && s.pcs[b].ReadClock?
  {
    var k := rule.threshold - 1;
    var first := ReachCounted(rule, k);
    var one := CountOne(rule, first, k);
    s := CountOne(rule, one, k + 1);
    s := Go(rule, s, Act(Call(k)));
  }

  /** The unlock moves a second earlier when the reading taken first is set last. */
  lemma UnlockMovesEarlier(rule: Rule) returns (s: Sys, u: Sys)
    requires rule.threshold > 0 && rule.duration > 0
    ensures Reachable(rule, s) && Reachable(rule, u) && ReachesWithout(rule, s, u, Del)
    ensures s.until.Some? && u.until.Some? && u.until.value.second + 1 == s.until.value.second
  {
    var a, b := Call(rule.threshold - 1), Call(rule.threshold);
    s := ReachCrossed(rule);
    s := Go(rule, s, Tick(SECOND));
    s := Go(rule, s, Act(b));
    s := Go(rule, s, Act(b));
    OneStep(rule, s, Act(a), Del);
    u := Go(rule, s, Act(a));
    assert (SECOND + rule.duration) / SECOND == rule.duration / SECOND + 1;
  }

  /** A reset has returned, yet the next check says locked: a failure counted before it set its lock after it. */
  lemma ResetThenLocked(rule: Rule) returns (cleared: Sys, s: Sys)
    requires rule.threshold > 0 && rule.duration >= SECOND
    ensures var reset, check := Call(rule.threshold + 1), Call(rule.threshold + 2);
            && Reachable(rule, cleared) && cleared.until.None? && cleared.fails.None?
            && reset in cleared.pcs && cleared.pcs[reset].WasReset? && check !in cleared.pcs
            && Reachable(rule, s) && check in s.pcs && s.pcs[check] == Checked(true)
  {
    var a, reset, check := Call(rule.threshold - 1), Call(rule.threshold + 1), Call(rule.threshold + 2);
    s := ReachCrossed(rule);
    s := Go(rule, s, Start(reset, Reset));
    s := Go(rule, s, Act(reset));
    cleared := s;
    s := Go(rule, s, Act(a));
    s := Go(rule, s, Start(check, Check));
    s := Go(rule, s, Act(check));
    s := Go(rule, s, Act(check));
  }
}
