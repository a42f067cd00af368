/** No call of the in-memory fan-out is ever stuck; `Stop` of the NATS one and a `cancel` can be. */
module PubSubProgress {
  import opened Basics
  import opened PubSub
  import opened PubSubSafety
  import opened PubSubRuns

  /** t can take its next step even though a reader yields to every waiting writer. */
  ghost predicate CanProceed(v: Variant, s: Sys, t: Call) {
    CanAct(v, s, t) && (s.pcs[t].PubWait? ==> forall u :: u in s.pcs ==> !WantsWrite(s.pcs[u]))
  }

  /** Stop holds the lock and wants the `once` of a subscription; its cancel is in that `once` and wants the lock. */
  ghost predicate DeadPair(s: Sys, t: Call, u: Call) {
    && t in s.pcs && u in s.pcs && s.pcs[t].CloseLoop? && s.pcs[t].todo != []
    && s.pcs[u] == CancelWait(s.pcs[t].todo[0])
  }

  /** Calls at these points wait for nobody. */
  predicate NeverWaits(pc: PC) {
    pc.SubHold? || pc.CancelHold? || pc.CancelClose? || pc.PubHold? || pc.PubSend? || pc.CloseHold? || pc.CloseChan?
  }

  /** Nobody holds a lock or a `once`: a writer goes first, and without writers everybody can go. */
  lemma FreeProceeds(v: Variant, s: Sys, t: Call) returns (u: Call)
    requires t in s.pcs && !Returned(s.pcs[t]) && NoWriter(v, s)
    requires forall x :: x in s.pcs ==> !NeverWaits(s.pcs[x])
    ensures CanProceed(v, s, u)
  {
    if x :| x in s.pcs && WantsWrite(s.pcs[x]) {
      u := x;
    } else {
      u := t;
      assert forall x :: x in s.pcs ==> InOnce(s.pcs[x]).None?;
    }
  }

  /** As long as a call has not returned, some call can take a step, unless Stop and a cancel block each other. */
  lemma SomeCallProceeds(v: Variant, s: Sys, t: Call) returns (u: Call)
    requires t in s.pcs && !Returned(s.pcs[t])
    requires v.InMemory? || forall x, y :: !DeadPair(s, x, y)
    ensures CanProceed(v, s, u)
  {
    if x :| x in s.pcs && NeverWaits(s.pcs[x]) {
      u := x;
    } else if x :| x in s.pcs && Writes(v, s.pcs[x]) {
      u := x;
      if s.pcs[x].todo != [] && !OnceFree(s, s.pcs[x].todo[0]) {
        var y :| y in s.pcs && InOnce(s.pcs[y]) == Some(s.pcs[x].todo[0]);
        assert DeadPair(s, x, y);
      }
    } else {
      u := FreeProceeds(v, s, t);
    }
  }

  lemma {:induction false} FreshSub(ids: set<SubId>) returns (id: SubId)
    ensures forall x :: x in ids ==> x.n < id.n
    decreases |ids|
  {
    if ids == {} {
      id := SubId(0);
    } else {
      var x := Pick(ids);
      var y := FreshSub(ids - {x});
      id := if x.n < y.n then y else SubId(x.n + 1);
    }
  }

  /** A call that can act has a step to take: a fresh subscription and an order of the map exist. */
  lemma ActIsEnabled(v: Variant, s: Sys, t: Call) returns (newSub: SubId, order: seq<SubId>)
    requires CanAct(v, s, t)
    ensures Enabled(v, s, Act(t, newSub, order))
  {
    newSub := FreshSub(s.chans.Keys);
    order := SetToSeq(set sub | sub in s.chans && sub in Slot(s, s.chans[sub].key));
  }

  /** In memory, no reachable state with an unfinished call is stuck. */
  lemma InMemoryNeverStuck(s: Sys, t: Call) returns (step: Step)
    requires Reachable(InMemory, s) && t in s.pcs && !Returned(s.pcs[t])
    ensures step.Act? && CanProceed(InMemory, s, step.t) && Enabled(InMemory, s, step)
    ensures Reachable(InMemory, Apply(InMemory, s, step))
  {
    var u := SomeCallProceeds(InMemory, s, t);
    var newSub, order := ActIsEnabled(InMemory, s, u);
    step := Act(u, newSub, order);
    ReachStep(InMemory, s, step);
  }

  // --------------------------------------------------------------- the stuck pair

  /** Nothing any call does ends the standoff. */
  lemma DeadPairStays(s: Sys, step: Step, t: Call, u: Call)
    requires DeadPair(s, t, u) && Enabled(Nats, s, step)
    ensures DeadPair(Apply(Nats, s, step), t, u)
    ensures step.Act? ==> !WantsWrite(s.pcs[step.t]) && !s.pcs[step.t].PubWait?
  {
    assert Writes(Nats, s.pcs[t]) && InOnce(s.pcs[u]) == Some(s.pcs[t].todo[0]);
    if step.Act? && !Panics(s, step.t) { EffectKeepsPcs(s, step.t, step.newSub); }
  }

  /** From then on neither call returns, and nobody else gets the lock. */
  lemma {:induction false} DeadPairForever(states: seq<Sys>, steps: seq<Step>, t: Call, u: Call, n: nat)
    requires IsPath(Nats, states, steps) && DeadPair(states[0], t, u) && n <= |steps|
    ensures DeadPair(states[n], t, u)
    ensures forall c :: c in states[0].pcs && (WantsWrite(states[0].pcs[c]) || states[0].pcs[c].PubWait?) ==>
              c in states[n].pcs && states[n].pcs[c] == states[0].pcs[c]
  {
    if n > 0 {
      DeadPairForever(states, steps, t, u, n - 1);
      var s, step := states[n - 1], steps[n - 1];
      DeadPairStays(s, step, t, u);
      if step.Act? && !Panics(s, step.t) { EffectKeepsPcs(s, step.t, step.newSub); }
    }
  }

  /** Wherever a cancel waits for the lock,
      a Stop that starts now and visits its subscription first is stuck with it. */
  lemma StopMeetsCancel(s: Sys, t: Call, u: Call, order: seq<SubId>) returns (dead: Sys)
    requires Reachable(Nats, s) && t !in s.pcs && LockFree(Nats, s) && !s.closed && RangeOrder(s, order) && order != []
    requires u in s.pcs && s.pcs[u] == CancelWait(order[0])
    ensures Reachable(Nats, dead) && DeadPair(dead, t, u) && !CanAct(Nats, dead, t) && !CanAct(Nats, dead, u)
  {
    ReachFlipped(Nats, s, t, order);
    dead := Goto(Flipped(s, t), t, CloseLoop(order));
    assert InOnce(dead.pcs[u]) == Some(order[0]) && Writes(Nats, dead.pcs[t]);
  }

  /** One subscriber, its cancel and a Stop are enough. */
  lemma StopCancelDeadlock() returns (s: Sys)
    ensures Reachable(Nats, s) && DeadPair(s, Call(2), Call(1)) && !CanAct(Nats, s, Call(2))
              && !CanAct(Nats, s, Call(1))
  {
    ReachOneSubscriber(Nats);
    ReachCancelWait(Nats, OneSubscriber(), Call(1), SubId(0));
    var m := Goto(OneSubscriber(), Call(1), CancelWait(SubId(0)));
    assert m.pcs == map[Call(0) := Subscribed(SubId(0)), Call(1) := CancelWait(SubId(0))];
    s := StopMeetsCancel(m, Call(2), Call(1), [SubId(0)]);
  }
}
