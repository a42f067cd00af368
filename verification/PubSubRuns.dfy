/** Runs of the fan-out: closing, delivery, and the two ways `Close` returns early. */
module PubSubRuns {
  import opened Basics
  import opened PubSub
  import opened PubSubSafety

  ghost predicate IsPath(v: Variant, states: seq<Sys>, steps: seq<Step>) {
    && |states| == |steps| + 1
    && forall i :: 0 <= i < |steps| ==>
         Enabled(v, states[i], steps[i]) && states[i + 1] == Apply(v, states[i], steps[i])
  }

  ghost predicate IsRun(v: Variant, states: seq<Sys>, steps: seq<Step>) {
    IsPath(v, states, steps) && states[0] == INITIAL
  }

  ghost predicate Reachable(v: Variant, s: Sys) {
    exists states, steps :: IsRun(v, states, steps) && states[|steps|] == s
  }

  lemma {:induction false} RunInv(v: Variant, states: seq<Sys>, steps: seq<Step>, n: nat)
    requires IsRun(v, states, steps) && n <= |steps|
    ensures Inv(states[n])
  {
    if n > 0 {
      RunInv(v, states, steps, n - 1);
      InvStep(v, states[n - 1], steps[n - 1]);
    }
  }

  lemma ReachableInv(v: Variant, s: Sys)
    requires Reachable(v, s)
    ensures Inv(s)
  {
    var states, steps :| IsRun(v, states, steps) && states[|steps|] == s;
    RunInv(v, states, steps, |steps|);
  }

  lemma ReachInitial(v: Variant)
    ensures Reachable(v, INITIAL)
  {
    assert IsRun(v, [INITIAL], []);
  }

  lemma ReachStep(v: Variant, s: Sys, step: Step)
    requires Reachable(v, s) && Enabled(v, s, step)
    ensures Reachable(v, Apply(v, s, step))
  {
    var states, steps :| IsRun(v, states, steps) && states[|steps|] == s;
    assert IsRun(v, states + [Apply(v, s, step)], steps + [step]);
  }

  /** No panic escapes, and no call is about to raise one. */
  lemma NeverPanics(v: Variant, s: Sys, t: Call)
    requires Reachable(v, s)
    ensures !s.panicked && (t in s.pcs ==> !Panics(s, t))
  {
    ReachableInv(v, s);
    if t in s.pcs { NoPanic(s, t); }
  }

  // --------------------------------------------------------------------- the lock

  /** The write lock excludes other writers and the readers. */
  ghost predicate Exclusion(v: Variant, s: Sys) {
    forall t, u :: t in s.pcs && u in s.pcs && t != u && Writes(v, s.pcs[t]) ==>
      !Writes(v, s.pcs[u]) && !s.pcs[u].PubHold?
  }

  /** Whoever moves into the lock found it free. */
  lemma ExclusionMove(v: Variant, s: Sys, t: Call, newSub: SubId, order: seq<SubId>)
    requires Enabled(v, s, Act(t, newSub, order)) && !Panics(s, t)
    ensures var pc := NextPc(s, t, newSub, order);
            (Writes(v, pc) ==> Writes(v, s.pcs[t]) || (NoWriter(v, s) && NoReader(s))) &&
            (pc.PubHold? ==> NoWriter(v, s))
  {}

  lemma ExclusionStep(v: Variant, s: Sys, step: Step)
    requires Exclusion(v, s) && Enabled(v, s, step)
    ensures Exclusion(v, Apply(v, s, step))
  {
    if step.Act? && !Panics(s, step.t) {
      ExclusionMove(v, s, step.t, step.newSub, step.order);
      EffectKeepsPcs(s, step.t, step.newSub);
    }
  }

  lemma EffectKeepsPcs(s: Sys, t: Call, newSub: SubId)
    requires t in s.pcs && !Panics(s, t)
    ensures Effect(s, t, newSub).pcs == s.pcs
  {}

  lemma {:induction false} RunExclusion(v: Variant, states: seq<Sys>, steps: seq<Step>, n: nat)
    requires IsRun(v, states, steps) && n <= |steps|
    ensures Exclusion(v, states[n])
  {
    if n > 0 {
      RunExclusion(v, states, steps, n - 1);
      ExclusionStep(v, states[n - 1], steps[n - 1]);
    }
  }

  // ---------------------------------------------------------------------- closing

  /** The step that closes the channel of `sub`. */
  predicate Closes(s: Sys, step: Step, sub: SubId) {
    && step.Act? && step.t in s.pcs
    && (s.pcs[step.t] == CancelClose(sub) || (s.pcs[step.t].CloseChan? && s.pcs[step.t].sub == sub))
  }

  lemma ClosedEffect(s: Sys, t: Call, newSub: SubId, sub: SubId)
    requires t in s.pcs && !Panics(s, t) && sub in s.chans && (s.pcs[t].SubHold? ==> newSub !in s.chans)
    ensures var u := Effect(s, t, newSub);
            sub in u.chans && u.chans[sub].key == s.chans[sub].key &&
            (u.chans[sub].closed <==> s.chans[sub].closed || Closes(s, Act(t, newSub, []), sub))
  {}

  /** Nothing else closes a channel, and nothing reopens one. */
  lemma ClosedStep(v: Variant, s: Sys, step: Step, sub: SubId)
    requires Inv(s) && Enabled(v, s, step) && sub in s.chans
    ensures var u := Apply(v, s, step);
            sub in u.chans && u.chans[sub].key == s.chans[sub].key &&
            (u.chans[sub].closed <==> s.chans[sub].closed || Closes(s, step, sub))
  {
    if step.Act? {
      NoPanic(s, step.t);
      ClosedEffect(s, step.t, step.newSub, sub);
    }
  }

  lemma ClosesOpen(s: Sys, step: Step, sub: SubId)
    requires Inv(s) && Closes(s, step, sub)
    ensures sub in s.chans && !s.chans[sub].closed
  {
    assert InOnce(s.pcs[step.t]) == Some(sub);
  }

  lemma {:induction false} StaysClosed(v: Variant, states: seq<Sys>, steps: seq<Step>, i: nat, j: nat, sub: SubId)
    requires IsRun(v, states, steps) && i <= j <= |steps| && sub in states[i].chans && states[i].chans[sub].closed
    ensures sub in states[j].chans && states[j].chans[sub].closed
  {
    if i < j {
      StaysClosed(v, states, steps, i, j - 1, sub);
      RunInv(v, states, steps, j - 1);
      ClosedStep(v, states[j - 1], steps[j - 1], sub);
    }
  }

  /** Each channel is closed at most once. */
  lemma ClosedAtMostOnce(v: Variant, states: seq<Sys>, steps: seq<Step>, i: nat, j: nat, sub: SubId)
    requires IsRun(v, states, steps) && i < j < |steps| && Closes(states[i], steps[i], sub)
    ensures !Closes(states[j], steps[j], sub)
  {
    RunInv(v, states, steps, i);
    ClosesOpen(states[i], steps[i], sub);
    ClosedStep(v, states[i], steps[i], sub);
    StaysClosed(v, states, steps, i + 1, j, sub);
    if Closes(states[j], steps[j], sub) {
      RunInv(v, states, steps, j);
      ClosesOpen(states[j], steps[j], sub);
    }
  }

  /** When `cancel` has returned, its channel is closed. */
  lemma CancelReturned(v: Variant, s: Sys, t: Call)
    requires Reachable(v, s) && t in s.pcs && s.pcs[t].Canceled?
    ensures s.pcs[t].sub in s.chans && s.chans[s.pcs[t].sub].closed
  {
    ReachableInv(v, s);
    assert PcInv(s, s.pcs[t]);
  }

  /** When the `Close` that did the closing has returned, a channel is open exactly when
      its `cancel` has unlinked it and not yet closed it. */
  lemma CloseReturned(v: Variant, s: Sys, t: Call, sub: SubId)
    requires Reachable(v, s) && t in s.pcs && s.pcs[t] == Closed(false) && sub in s.chans
    ensures s.chans[sub].closed <==> !Leaving(s, sub)
  {
    ReachableInv(v, s);
    assert TakenCare(s, sub);
    if Leaving(s, sub) {
      var u :| u in s.pcs && s.pcs[u] == CancelClose(sub);
      assert InOnce(s.pcs[u]) == Some(sub);
    }
  }

  /** A Close that found the flag set returns whatever state the closing call is in: each channel is closed, about
      to be closed by its `cancel`, or still on the closing call's list. Once the closing call has returned too,
      the early one is no worse. */
  lemma EarlyCloseReturned(v: Variant, s: Sys, t: Call, sub: SubId)
    requires Reachable(v, s) && t in s.pcs && s.pcs[t] == Closed(true) && sub in s.chans
    ensures s.closer.Some? && s.closer.value in s.pcs
    ensures var closing := s.pcs[s.closer.value];
            && (s.chans[sub].closed || Leaving(s, sub) || sub in Remaining(closing))
            && (closing == Closed(false) ==> (s.chans[sub].closed <==> !Leaving(s, sub)))
            && (closing != Closed(false) ==> InClose(closing))
  {
    EarlyMeansFlag(v, s, t);
    ReachableInv(v, s);
    assert TakenCare(s, sub);
    if s.pcs[s.closer.value] == Closed(false) { CloseReturned(v, s, s.closer.value, sub); }
  }

  /** Nobody returns early before the flag is set. */
  ghost predicate EarlyIsFlagged(s: Sys) {
    (exists t :: t in s.pcs && s.pcs[t] == Closed(true)) ==> s.closed
  }

  lemma EarlyIsFlaggedAct(s: Sys, t: Call, newSub: SubId, order: seq<SubId>)
    requires EarlyIsFlagged(s) && t in s.pcs && !Returned(s.pcs[t]) && !Panics(s, t)
    ensures EarlyIsFlagged(Goto(Effect(s, t, newSub), t, NextPc(s, t, newSub, order)))
  {
    EffectKeepsPcs(s, t, newSub);
    if NextPc(s, t, newSub, order) == Closed(true) { EarlyFrom(s, t, newSub, order); }
    if s.closed { FlagStays(s, t, newSub); }
  }

  lemma FlagStays(s: Sys, t: Call, newSub: SubId)
    requires t in s.pcs && !Panics(s, t) && s.closed
    ensures Effect(s, t, newSub).closed
  {}

  lemma {:induction false} RunEarlyIsFlagged(v: Variant, states: seq<Sys>, steps: seq<Step>, n: nat)
    requires IsRun(v, states, steps) && n <= |steps|
    ensures EarlyIsFlagged(states[n])
  {
    if n > 0 {
      RunEarlyIsFlagged(v, states, steps, n - 1);
      RunInv(v, states, steps, n - 1);
      var s := states[n - 1];
      match steps[n - 1]
      case Act(t, newSub, order) =>
        NoPanic(s, t);
        EarlyIsFlaggedAct(s, t, newSub, order);
      case Start(t, op) =>
      case Receive(_) =>
    }
  }

  lemma EarlyMeansFlag(v: Variant, s: Sys, t: Call)
    requires Reachable(v, s) && t in s.pcs && s.pcs[t] == Closed(true)
    ensures s.closed
  {
    var states, steps :| IsRun(v, states, steps) && states[|steps|] == s;
    RunEarlyIsFlagged(v, states, steps, |steps|);
  }

  /** The NATS variant holds the lock throughout: a Stop that finds the flag set finds the work done. */
  ghost predicate EarlyIsLate(s: Sys) {
    (exists t :: t in s.pcs && s.pcs[t] == Closed(true)) ==>
      s.closer.Some? && s.closer.value in s.pcs && s.pcs[s.closer.value] == Closed(false)
  }

  /** Under the exclusive lock, a set flag means a finished Stop. */
  lemma FlagMeansFinished(s: Sys, t: Call)
    requires Inv(s) && Exclusion(Nats, s) && t in s.pcs && s.pcs[t].CloseHold? && s.closed
    ensures s.closer.Some? && s.closer.value in s.pcs && s.pcs[s.closer.value] == Closed(false)
  {
    assert Writes(Nats, s.pcs[t]);
  }

  lemma EarlyFrom(s: Sys, t: Call, newSub: SubId, order: seq<SubId>)
    requires t in s.pcs && !Panics(s, t) && !Returned(s.pcs[t]) && NextPc(s, t, newSub, order) == Closed(true)
    ensures s.pcs[t].CloseHold? && s.closed
  {}

  lemma CloserStays(s: Sys, t: Call, newSub: SubId)
    requires t in s.pcs && !Panics(s, t) && s.closed
    ensures Effect(s, t, newSub).closer == s.closer && Effect(s, t, newSub).pcs == s.pcs
  {}

  lemma EarlyIsLateAct(s: Sys, t: Call, newSub: SubId, order: seq<SubId>)
    requires Inv(s) && Exclusion(Nats, s) && EarlyIsLate(s) && t in s.pcs && !Returned(s.pcs[t]) && !Panics(s, t)
    ensures EarlyIsLate(Goto(Effect(s, t, newSub), t, NextPc(s, t, newSub, order)))
  {
    EffectKeepsPcs(s, t, newSub);
    var pcs := s.pcs[t := NextPc(s, t, newSub, order)];
    if c :| c in pcs && pcs[c] == Closed(true) {
      if c == t {
        EarlyFrom(s, c, newSub, order);
        FlagMeansFinished(s, c);
      } else {
        assert s.pcs[c] == Closed(true);
      }
      CloserStays(s, t, newSub);
    }
  }

  lemma EarlyIsLateStart(s: Sys, t: Call, op: Op)
    requires EarlyIsLate(s) && t !in s.pcs
    ensures EarlyIsLate(Goto(s, t, FirstPc(t, op)))
  {
    var u := Goto(s, t, FirstPc(t, op));
    assert forall c :: c in u.pcs && u.pcs[c] == Closed(true) ==> c in s.pcs && s.pcs[c] == Closed(true);
  }

  lemma {:induction false} RunEarlyIsLate(states: seq<Sys>, steps: seq<Step>, n: nat)
    requires IsRun(Nats, states, steps) && n <= |steps|
    ensures EarlyIsLate(states[n])
  {
    if n > 0 {
      RunEarlyIsLate(states, steps, n - 1);
      RunInv(Nats, states, steps, n - 1);
      RunExclusion(Nats, states, steps, n - 1);
      var s := states[n - 1];
      match steps[n - 1]
      case Act(t, newSub, order) =>
        NoPanic(s, t);
        EarlyIsLateAct(s, t, newSub, order);
      case Start(t, op) => EarlyIsLateStart(s, t, op);
      case Receive(_) =>
    }
  }

  /** When any Stop has returned, a channel is open exactly when its `cancel` is about to close it. */
  lemma StopReturned(states: seq<Sys>, steps: seq<Step>, n: nat, t: Call, sub: SubId)
    requires IsRun(Nats, states, steps) && n <= |steps| && t in states[n].pcs && states[n].pcs[t].Closed?
    requires sub in states[n].chans
    ensures states[n].chans[sub].closed <==> !Leaving(states[n], sub)
  {
    RunEarlyIsLate(states, steps, n);
    assert Reachable(Nats, states[n]) by {
      assert IsRun(Nats, states[..n + 1], steps[..n]);
    }
    if states[n].pcs[t].early { assert states[n].pcs[t] == Closed(true); }
    CloseReturned(Nats, states[n], if states[n].pcs[t].early then states[n].closer.value else t, sub);
  }

  // --------------------------------------------------------------------- delivery

  /** Everything the subscriber was handed, read or not. */
  function Contents(s: Sys, sub: SubId): seq<Snapshot> {
    if sub in s.chans then s.chans[sub].got + s.chans[sub].buf else []
  }

  predicate Sends(s: Sys, step: Step, sub: SubId) {
    && step.Act? && step.t in s.pcs && s.pcs[step.t].PubSend?
    && s.pcs[step.t].todo != [] && s.pcs[step.t].todo[0] == sub
  }

  /** The send finds the channel closed or its buffer full, and is dropped. */
  predicate Dropped(s: Sys, sub: SubId) {
    sub in s.chans && (s.chans[sub].closed || |s.chans[sub].buf| >= BUFFER_SIZE)
  }

  lemma ContentsEffect(s: Sys, t: Call, newSub: SubId, sub: SubId)
    requires t in s.pcs && !Panics(s, t) && (s.pcs[t].SubHold? ==> newSub !in s.chans)
    ensures Contents(Effect(s, t, newSub), sub) ==
            Contents(s, sub) + (if Sends(s, Act(t, newSub, []), sub) && !Dropped(s, sub) then [s.pcs[t].snap] else [])
  {}

  /** One channel's contents change only by a send to that channel that is not dropped. */
  lemma ContentsStep(v: Variant, s: Sys, step: Step, sub: SubId)
    requires Inv(s) && Enabled(v, s, step)
    ensures Contents(Apply(v, s, step), sub) ==
            Contents(s, sub) + (if Sends(s, step, sub) && !Dropped(s, sub) then [s.pcs[step.t].snap] else [])
  {
    match step
    case Start(_, _) =>
    case Act(t, newSub, order) =>
      NoPanic(s, t);
      ContentsEffect(s, t, newSub, sub);
    case Receive(x) => ContentsTaken(s, x, sub);
  }

  /** Reading moves a snapshot from the buffer to the reader. */
  lemma ContentsTaken(s: Sys, x: SubId, sub: SubId)
    requires x in s.chans && s.chans[x].buf != []
    ensures Contents(Taken(s, x), sub) == Contents(s, sub)
  {
    var ch := s.chans[x];
    assert ch.buf == [ch.buf[0]] + ch.buf[1..];
    assert (ch.got + [ch.buf[0]]) + ch.buf[1..] == ch.got + ch.buf;
  }

  /** Each subscriber gets each publish at most once, and only of its own tenant and operator. */
  lemma DeliveredAtMostOnce(v: Variant, s: Sys, sub: SubId)
    requires Reachable(v, s) && sub in s.chans
    ensures Distinct(Contents(s, sub)) && |s.chans[sub].buf| <= BUFFER_SIZE
    ensures forall snap :: snap in Contents(s, sub) ==> snap.key == s.chans[sub].key
  {
    ReachableInv(v, s);
    assert ChanDelivery(s, s.chans[sub]);
  }

  function Todo(pc: PC): seq<SubId> {
    if pc.PubSend? then pc.todo else []
  }

  /** Call t is past its reading of the map, and `sub` is still due or was served unless `lost`. */
  ghost predicate Fanned(s: Sys, t: Call, snap: Snapshot, sub: SubId, target: bool, lost: bool) {
    && t in s.pcs && snap.call == t && (s.pcs[t].Published? || (s.pcs[t].PubSend? && s.pcs[t].snap == snap))
    && (sub in Todo(s.pcs[t]) ==> target && !lost && snap !in Contents(s, sub))
    && (sub !in Todo(s.pcs[t]) ==> (snap in Contents(s, sub) <==> target && !lost))
  }

  predicate Loses(s: Sys, step: Step, t: Call, sub: SubId) {
    Sends(s, step, sub) && step.t == t && Dropped(s, sub)
  }

  lemma FannedOther(v: Variant, s: Sys, step: Step, t: Call, snap: Snapshot, sub: SubId, target: bool, lost: bool)
    requires Inv(s) && Enabled(v, s, step) && Fanned(s, t, snap, sub, target, lost) && (step.Act? ==> step.t != t)
    ensures Fanned(Apply(v, s, step), t, snap, sub, target, lost)
  {
    ContentsStep(v, s, step, sub);
    if step.Act? {
      NoPanic(s, step.t);
      EffectKeepsPcs(s, step.t, step.newSub);
      assert SenderInv(s, step.t, s.pcs[step.t]);
    }
  }

  /** One send: the head of the list is served, or loses the snapshot. */
  lemma FannedSend(s: Sys, t: Call, snap: Snapshot, todo: seq<SubId>, sub: SubId, target: bool, lost: bool)
    requires Fanned(s, t, snap, sub, target, lost) && s.pcs[t] == PubSend(snap, todo)
    requires todo != [] && Distinct(todo) && todo[0] in s.chans
    ensures Fanned(Goto(SentTo(s, todo[0], snap), t, PubSend(snap, todo[1..])), t, snap, sub, target,
                   lost || (sub == todo[0] && Dropped(s, sub)))
  {
    assert todo == [todo[0]] + todo[1..] && todo[0] !in todo[1..];
    var u := Goto(SentTo(s, todo[0], snap), t, PubSend(snap, todo[1..]));
    assert Contents(u, sub) == Contents(s, sub) + (if sub == todo[0] && !Dropped(s, sub) then [snap] else []);
  }

  lemma FannedOwn(v: Variant, s: Sys, step: Step, t: Call, snap: Snapshot, sub: SubId, target: bool, lost: bool)
    requires Inv(s) && Enabled(v, s, step) && Fanned(s, t, snap, sub, target, lost) && step.Act? && step.t == t
    ensures Fanned(Apply(v, s, step), t, snap, sub, target, lost || Loses(s, step, t, sub))
  {
    NoPanic(s, t);
    assert SenderInv(s, t, s.pcs[t]);
    var todo := s.pcs[t].todo;
    if todo == [] {
      assert Apply(v, s, step) == Goto(s, t, Published);
    } else {
      FannedSend(s, t, snap, todo, sub, target, lost);
    }
  }

  /** Call t lost the snapshot for `sub` at one of the steps from i up to j. */
  predicate Lost(states: seq<Sys>, steps: seq<Step>, i: nat, j: nat, t: Call, sub: SubId)
    requires j <= |steps| <= |states|
    decreases j
  {
    i < j && (Lost(states, steps, i, j - 1, t, sub) || Loses(states[j - 1], steps[j - 1], t, sub))
  }

  lemma FannedStep(v: Variant, s: Sys, step: Step, t: Call, snap: Snapshot, sub: SubId, target: bool, lost: bool)
    requires Inv(s) && Enabled(v, s, step) && Fanned(s, t, snap, sub, target, lost)
    ensures Fanned(Apply(v, s, step), t, snap, sub, target, lost || Loses(s, step, t, sub))
  {
    if step.Act? && step.t == t {
      FannedOwn(v, s, step, t, snap, sub, target, lost);
    } else {
      FannedOther(v, s, step, t, snap, sub, target, lost);
    }
  }

  lemma FannedRunStep(v: Variant, states: seq<Sys>, steps: seq<Step>, n: nat, t: Call, snap: Snapshot, sub: SubId,
                      target: bool, lost: bool, after: bool)
    requires IsRun(v, states, steps) && n < |steps| && Fanned(states[n], t, snap, sub, target, lost)
    requires after == (lost || Loses(states[n], steps[n], t, sub))
    ensures Fanned(states[n + 1], t, snap, sub, target, after)
  {
    RunInv(v, states, steps, n);
    FannedStep(v, states[n], steps[n], t, snap, sub, target, lost);
  }

  lemma {:induction false} FannedRun(v: Variant, states: seq<Sys>, steps: seq<Step>, i: nat, j: nat, t: Call,
                                     snap: Snapshot, sub: SubId, target: bool, lost: bool)
    requires IsRun(v, states, steps) && i <= j <= |steps| && Fanned(states[i], t, snap, sub, target, false)
    requires lost == Lost(states, steps, i, j, t, sub)
    ensures Fanned(states[j], t, snap, sub, target, lost)
    decreases j
  {
    if i < j {
      var before := Lost(states, steps, i, j - 1, t, sub);
      FannedRun(v, states, steps, i, j - 1, t, snap, sub, target, before);
      FannedRunStep(v, states, steps, j - 1, t, snap, sub, target, before, lost);
    }
  }

  /** A `Publish` that has returned reached exactly the subscribers its key had when it read the
      map, but for those whose own channel was closed or full when their turn came. */
  lemma PublishReaches(v: Variant, states: seq<Sys>, steps: seq<Step>, i: nat, j: nat, t: Call, sub: SubId)
    requires IsRun(v, states, steps) && i < j <= |steps|
    requires t in states[i].pcs && states[i].pcs[t].PubHold? && steps[i].Act? && steps[i].t == t
    requires t in states[j].pcs && states[j].pcs[t].Published?
    ensures var snap := states[i].pcs[t].snap;
            snap in Contents(states[j], sub) <==>
            sub in Slot(states[i], snap.key) && !Lost(states, steps, i + 1, j, t, sub)
  {
    var s, step := states[i], steps[i];
    var snap := s.pcs[t].snap;
    RunInv(v, states, steps, i);
    assert SenderInv(s, t, s.pcs[t]);
    ContentsStep(v, s, step, sub);
    if sub in s.chans { assert ChanDelivery(s, s.chans[sub]); }
    FannedRun(v, states, steps, i + 1, j, t, snap, sub, sub in Slot(s, snap.key),
      Lost(states, steps, i + 1, j, t, sub));
  }

  // ------------------------------------------------- Close returning too early

  /** One subscription, nothing else. */
  function OneSubscriber(): Sys {
    Sys(false, Some(map[Key(0, 0) := [SubId(0)]]), map[SubId(0) := Chan(Key(0, 0), [], [], false, false)], None, false,
        map[Call(0) := Subscribed(SubId(0))])
  }

  /** Call t takes its next step. */
  lemma Go(v: Variant, s: Sys, t: Call, order: seq<SubId>) returns (u: Sys)
    requires Reachable(v, s) && CanAct(v, s, t) && (s.pcs[t].CloseHold? && !s.closed ==> RangeOrder(s, order))
    requires SubId(0) !in s.chans || !s.pcs[t].SubHold?
    ensures u == Acted(s, t, SubId(0), order) && Reachable(v, u)
  {
    u := Acted(s, t, SubId(0), order);
    ReachStep(v, s, Act(t, SubId(0), order));
  }

  lemma Begin(v: Variant, s: Sys, t: Call, op: Op) returns (u: Sys)
    requires Reachable(v, s) && t !in s.pcs && (op.Cancel? ==> op.sub in s.chans)
    ensures u == Goto(s, t, FirstPc(t, op)) && Reachable(v, u)
  {
    u := Goto(s, t, FirstPc(t, op));
    ReachStep(v, s, Start(t, op));
  }

  ghost predicate LockFree(v: Variant, s: Sys) {
    NoWriter(v, s) && NoReader(s)
  }

  lemma ReachOneSubscriber(v: Variant)
    ensures Reachable(v, OneSubscriber())
  {
    ReachInitial(v);
    var s := Begin(v, INITIAL, Call(0), Subscribe(Key(0, 0)));
    s := Go(v, s, Call(0), []);
    assert Slot(s, Key(0, 0)) + [SubId(0)] == [SubId(0)];
    s := Go(v, s, Call(0), []);
    assert s.pcs == OneSubscriber().pcs;
  }

  /** A cancel enters its `once` and waits for the lock. */
  lemma ReachCancelWait(v: Variant, s: Sys, t: Call, sub: SubId)
    requires Reachable(v, s) && t !in s.pcs && sub in s.chans && !s.chans[sub].done && OnceFree(s, sub)
    ensures Reachable(v, Goto(s, t, CancelWait(sub)))
  {
    var u := Begin(v, s, t, Cancel(sub));
    u := Go(v, u, t, []);
    assert u == Goto(s, t, CancelWait(sub));
  }

  /** A cancel takes the lock and unlinks its subscription. */
  lemma ReachUnlinked(v: Variant, s: Sys, t: Call, sub: SubId)
    requires Reachable(v, s) && t in s.pcs && s.pcs[t] == CancelWait(sub) && LockFree(v, s)
    requires !s.closed && s.subs.Some? && sub in s.chans
    ensures Reachable(v, Goto(Unlinked(s, sub), t, CancelClose(sub)))
  {
    var u := Go(v, s, t, []);
    u := Go(v, u, t, []);
    assert u == Goto(Unlinked(s, sub), t, CancelClose(sub));
  }

  lemma ReachCloseHold(v: Variant, s: Sys, t: Call)
    requires Reachable(v, s) && t !in s.pcs && LockFree(v, s)
    ensures Reachable(v, Goto(s, t, CloseHold))
  {
    var u := Begin(v, s, t, Close);
    u := Go(v, u, t, []);
    assert u == Goto(s, t, CloseHold);
  }

  /** A Close finds the lock free and flips the flag. */
  lemma ReachFlipped(v: Variant, s: Sys, t: Call, order: seq<SubId>)
    requires Reachable(v, s) && t !in s.pcs && LockFree(v, s) && !s.closed && RangeOrder(s, order)
    ensures Reachable(v, Goto(Flipped(s, t), t, CloseLoop(order)))
  {
    ReachCloseHold(v, s, t);
    var u := Go(v, Goto(s, t, CloseHold), t, order);
    assert u == Goto(Flipped(s, t), t, CloseLoop(order));
  }

  /** A Close that finds the flag set returns at once, whatever is still open. */
  lemma EarlyClose(v: Variant, s: Sys, t: Call)
    requires Reachable(v, s) && t !in s.pcs && LockFree(v, s) && s.closed
    ensures Reachable(v, Goto(s, t, Closed(true)))
  {
    ReachCloseHold(v, s, t);
    var u := Go(v, Goto(s, t, CloseHold), t, []);
    assert u == Goto(s, t, Closed(true));
  }

  /** The state after a cancel has unlinked the one subscription. */
  function Unlinking(): Sys {
    OneSubscriber().(subs := Some(map[]), pcs := map[Call(0) := Subscribed(SubId(0)), Call(1) := CancelClose(SubId(0))])
  }

  lemma ReachUnlinking(v: Variant)
    ensures Reachable(v, Unlinking())
  {
    var s := OneSubscriber();
    ReachOneSubscriber(v);
    ReachCancelWait(v, s, Call(1), SubId(0));
    s := Goto(s, Call(1), CancelWait(SubId(0)));
    ReachUnlinked(v, s, Call(1), SubId(0));
    s := Goto(Unlinked(s, SubId(0)), Call(1), CancelClose(SubId(0)));
    assert s.subs.value == map[];
    assert s == Unlinking();
  }

  /** Close and the last part of a cancel may overlap: Close is back, the channel is open. */
  lemma CloseBeforeCancelEnds(v: Variant) returns (s: Sys)
    ensures Reachable(v, s) && Call(2) in s.pcs && s.pcs[Call(2)] == Closed(false) && s.closer == Some(Call(2))
    ensures SubId(0) in s.chans && !s.chans[SubId(0)].closed
  {
    ReachUnlinking(v);
    ReachFlipped(v, Unlinking(), Call(2), []);
    s := Goto(Flipped(Unlinking(), Call(2)), Call(2), CloseLoop([]));
    s := Go(v, s, Call(2), []);
  }

  /** The state after a Close has flipped the flag, with the one channel still to be closed. */
  function Closing(): Sys {
    Flipped(OneSubscriber(), Call(1)).(pcs := map[Call(0) := Subscribed(SubId(0)), Call(1) := CloseLoop([SubId(0)])])
  }

  lemma ReachClosing(v: Variant)
    ensures Reachable(v, Closing())
  {
    ReachOneSubscriber(v);
    ReachFlipped(v, OneSubscriber(), Call(1), [SubId(0)]);
    assert Goto(Flipped(OneSubscriber(), Call(1)), Call(1), CloseLoop([SubId(0)])) == Closing();
  }

  /** Of two racing calls of Close, the one that finds the flag set is back before any channel is closed. */
  lemma SecondCloseReturnsEarly() returns (s: Sys)
    ensures Reachable(InMemory, s) && Call(2) in s.pcs && s.pcs[Call(2)] == Closed(true)
    ensures SubId(0) in s.chans && !s.chans[SubId(0)].closed && !Leaving(s, SubId(0))
  {
    ReachClosing(InMemory);
    EarlyClose(InMemory, Closing(), Call(2));
    s := Goto(Closing(), Call(2), Closed(true));
  }
}
