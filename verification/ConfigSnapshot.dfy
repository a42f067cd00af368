/**
  The snapshot as the program runs it: value, listeners and one-slot channels are fields,
  `Replace` loops over the listeners, and `HandleReloadEvent` decides whether to replace.
  Every access is one step of the broadcast, which `sys` follows.
 */
module ConfigSnapshot {
  import opened Basics
  import opened ConfigBroadcast

  ghost predicate Reachable(valid: Config -> bool, s: Sys) {
    exists states, steps :: IsRun(valid, states, steps) && states[|steps|] == s
  }

  lemma ReachableInv(valid: Config -> bool, s: Sys)
    requires Reachable(valid, s)
    ensures Inv(valid, s)
  {
    var states, steps :| IsRun(valid, states, steps) && states[|steps|] == s;
    RunInv(valid, states, steps, |steps|);
  }

  lemma ReachStep(valid: Config -> bool, s: Sys, step: Step)
    requires Reachable(valid, s) && Enabled(s, step) && (step.Producer? ==> |s.log| > 0)
    ensures Reachable(valid, Apply(valid, s, step))
  {
    var states, steps :| IsRun(valid, states, steps) && states[|steps|] == s;
    assert IsRun(valid, states + [Apply(valid, s, step)], steps + [step]);
  }

  /** What waits in the slot of a channel. */
  function Waiting(s: Sys, c: Chan): Option<Config> {
    if c.slot.Some? && c.slot.value < |s.log| then Some(s.log[c.slot.value]) else None
  }

  /** `u` is `s` with another value waiting for one listener, and another program counter. */
  ghost predicate Refilled(s: Sys, u: Sys, l: Listener, waiting: Option<Config>, pc: PC)
    requires l in s.chans
  {
    && u.pc == pc && u.value == s.value && u.listeners == s.listeners && u.chans.Keys == s.chans.Keys
    && Waiting(u, u.chans[l]) == waiting
    && forall x :: x in s.chans && x != l ==> Waiting(u, u.chans[x]) == Waiting(s, s.chans[x])
  }

  lemma SlotKnown(valid: Config -> bool, s: Sys, l: Listener)
    requires Reachable(valid, s) && l in s.chans
    ensures Waiting(s, s.chans[l]).None? <==> s.chans[l].slot.None?
  {
    ReachableInv(valid, s);
    assert ChanInv(s, l, s.chans[l]);
  }

  /** The non-blocking send of the value last stored. */
  lemma SentStep(valid: Config -> bool, s: Sys, l: Listener, todo: seq<Listener>) returns (u: Sys)
    requires Reachable(valid, s) && s.pc == Sending(todo) && todo != [] && todo[0] == l && l in s.chans
    ensures Reachable(valid, u)
    ensures if Waiting(s, s.chans[l]).None? then Refilled(s, u, l, Some(s.value), Sending(todo[1..]))
            else Refilled(s, u, l, Waiting(s, s.chans[l]), Draining(todo))
  {
    SlotKnown(valid, s, l);
    ReachableInv(valid, s);
    ReachStep(valid, s, Producer);
    u := Produced(s);
  }

  lemma DrainedStep(valid: Config -> bool, s: Sys, l: Listener, todo: seq<Listener>) returns (u: Sys)
    requires Reachable(valid, s) && s.pc == Draining(todo) && todo != [] && todo[0] == l && l in s.chans
    ensures Reachable(valid, u) && Refilled(s, u, l, None, Resending(todo))
  {
    ReachableInv(valid, s);
    ReachStep(valid, s, Producer);
    u := Produced(s);
  }

  lemma ResendReady(valid: Config -> bool, s: Sys, l: Listener)
    requires Reachable(valid, s) && s.pc.Resending? && s.pc.todo != [] && s.pc.todo[0] == l && l in s.chans
    ensures Enabled(s, Producer) && |s.log| > 0 && s.log[|s.log| - 1] == s.value
  {
    ReachableInv(valid, s);
    assert ChanInv(s, l, s.chans[l]);
  }

  /** The blocking send, which finds the slot empty. */
  lemma ResendStep(valid: Config -> bool, s: Sys, l: Listener, todo: seq<Listener>) returns (u: Sys)
    requires Reachable(valid, s) && s.pc == Resending(todo) && todo != [] && todo[0] == l && l in s.chans
    ensures Reachable(valid, u) && Refilled(s, u, l, Some(s.value), Sending(todo[1..]))
  {
    ResendReady(valid, s, l);
    ReachStep(valid, s, Producer);
    u := Produced(s);
  }

  ghost predicate Known(listeners: seq<Listener>, keys: set<Listener>) {
    forall l :: l in listeners <==> l in keys
  }

  /** `c` waits for each of the first n listeners. */
  ghost predicate Filled(listeners: seq<Listener>, n: nat, slots: map<Listener, Option<Config>>, c: Config)
    requires n <= |listeners|
  {
    forall k :: 0 <= k < n ==> listeners[k] in slots && slots[listeners[k]] == Some(c)
  }

  lemma FilledMore(listeners: seq<Listener>, n: nat, slots: map<Listener, Option<Config>>, c: Config)
    requires n < |listeners| && Filled(listeners, n, slots, c)
    ensures Filled(listeners, n + 1, slots[listeners[n] := Some(c)], c)
  {}

  class Snapshot {
    ghost const valid: Config -> bool
    var value: Config
    var listeners: seq<Listener>
    var slots: map<Listener, Option<Config>>
    ghost var sys: Sys

    ghost predicate Valid()
      reads this
    {
      && Reachable(valid, sys) && value == sys.value && listeners == sys.listeners && slots.Keys == sys.chans.Keys
      && forall l :: l in slots ==> slots[l] == Waiting(sys, sys.chans[l])
    }

    /** Built by Load: the first config is validated. */
    constructor (config: Config, ghost valid: Config -> bool)
      requires valid(config)
      ensures Valid() && value == config && this.valid == valid && listeners == [] && sys.pc.Idle?
    {
      this.valid := valid;
      value, listeners, slots := config, [], map[];
      sys := Sys(config, [], [], map[], Idle);
      new;
      assert IsRun(valid, [sys], []);
    }

    method Get() returns (c: Config)
      requires Valid()
      ensures c == value && valid(c)
    {
      ReachableInv(valid, sys);
      c := value;
    }

    method Subscribe(l: Listener)
      requires Valid() && sys.pc.Idle? && l !in slots
      modifies this`listeners, this`slots, this`sys
      ensures Valid() && sys.pc.Idle? && listeners == old(listeners) + [l] && slots == old(slots)[l := None]
    {
      ReachStep(valid, sys, Step.Subscribe(l));
      sys := Apply(valid, sys, Step.Subscribe(l));
      listeners := listeners + [l];
      slots := slots[l := None];
    }

    /** A listener takes what waits for it. */
    method Receive(l: Listener) returns (c: Config)
      requires Valid() && l in slots && slots[l].Some?
      modifies this`slots, this`sys
      ensures Valid() && sys.pc == old(sys).pc && Some(c) == old(slots)[l] && slots == old(slots)[l := None]
    {
      ReachStep(valid, sys, Step.Receive(l));
      c := slots[l].value;
      sys := Apply(valid, sys, Step.Receive(l));
      slots := slots[l := None];
    }

    /** The non-blocking send; false if the slot is full. */
    method TrySend(l: Listener, c: Config, ghost todo: seq<Listener>) returns (sent: bool)
      requires Valid() && sys.pc == Sending(todo) && todo != [] && todo[0] == l && c == value && l in slots
      modifies this`slots, this`sys
      ensures Valid() && sent == old(slots)[l].None? && sys.pc == if sent then Sending(todo[1..]) else Draining(todo)
      ensures slots == if sent then old(slots)[l := Some(c)] else old(slots)
    {
      sys := SentStep(valid, sys, l, todo);
      sent := slots[l].None?;
      if sent {
        slots := slots[l := Some(c)];
      }
    }

    method Drain(l: Listener, ghost todo: seq<Listener>)
      requires Valid() && sys.pc == Draining(todo) && todo != [] && todo[0] == l && l in slots
      modifies this`slots, this`sys
      ensures Valid() && sys.pc == Resending(todo) && slots == old(slots)[l := None]
    {
      sys := DrainedStep(valid, sys, l, todo);
      slots := slots[l := None];
    }

    /** The blocking send; it never waits. */
    method Resend(l: Listener, c: Config, ghost todo: seq<Listener>)
      requires Valid() && sys.pc == Resending(todo) && todo != [] && todo[0] == l && c == value && l in slots
      modifies this`slots, this`sys
      ensures Valid() && sys.pc == Sending(todo[1..]) && slots == old(slots)[l := Some(c)]
    {
      sys := ResendStep(valid, sys, l, todo);
      slots := slots[l := Some(c)];
    }

    /** Swap the value, then give every listener the new config, dropping what a slow one left. */
    method Replace(c: Config)
      requires Valid() && sys.pc.Idle? && valid(c)
      modifies this
      ensures Valid() && sys.pc.Idle? && value == c && listeners == old(listeners) && slots.Keys == old(slots).Keys
      ensures forall l :: l in slots ==> slots[l] == Some(c)
    {
      ReachableInv(valid, sys);
      Store(c);
      SendToAll(c);
    }

    method Store(c: Config)
      requires Valid() && sys.pc.Idle? && valid(c)
      modifies this`value, this`sys
      ensures Valid() && value == c && sys.pc == Sending(listeners)
    {
      ghost var ev := Reload(true, true, Some(c));
      ReachableInv(valid, sys);
      ReachStep(valid, sys, Event(ev));
      sys := Apply(valid, sys, Event(ev));
      ReachableInv(valid, sys);
      value := c;
      ReachStep(valid, sys, Producer);
      sys := Produced(sys);
    }

    /** The registered listeners are those with a channel. */
    lemma ListenersKnown()
      requires Valid()
      ensures Known(listeners, slots.Keys)
    {
      ReachableInv(valid, sys);
    }

    /** One listener: send, or drop the oldest and send. */
    method SendOne(l: Listener, c: Config, ghost todo: seq<Listener>)
      requires Valid() && sys.pc == Sending(todo) && todo != [] && todo[0] == l && c == value && l in slots
      modifies this`slots, this`sys
      ensures Valid() && sys.pc == Sending(todo[1..]) && slots == old(slots)[l := Some(c)]
    {
      var sent := TrySend(l, c, todo);
      if !sent {
        Drain(l, todo);
        Resend(l, c, todo);
      }
    }

    ghost method Return()
      requires Valid() && sys.pc == Sending([])
      modifies this`sys
      ensures Valid() && sys.pc.Idle?
    {
      ReachableInv(valid, sys);
      ReachStep(valid, sys, Producer);
      sys := Produced(sys);
    }

    /** The i-th listener of the loop. */
    method SendNext(c: Config, i: nat)
      requires Valid() && i < |listeners| && sys.pc == Sending(listeners[i..]) && value == c && listeners[i] in slots
      modifies this`slots, this`sys
      ensures Valid() && sys.pc == Sending(listeners[i + 1..]) && slots == old(slots)[listeners[i] := Some(c)]
    {
      assert listeners[i..][0] == listeners[i] && listeners[i..][1..] == listeners[i + 1..];
      SendOne(listeners[i], c, listeners[i..]);
    }

    method SendLoop(c: Config)
      requires Valid() && sys.pc == Sending(listeners) && value == c && Known(listeners, slots.Keys)
      modifies this`slots, this`sys
      ensures Valid() && sys.pc == Sending([]) && slots.Keys == old(slots).Keys
                && Filled(listeners, |listeners|, slots, c)
    {
      var i := 0;
      assert listeners[0..] == listeners && listeners[|listeners|..] == [];
      while i < |listeners|
        invariant 0 <= i <= |listeners| && Valid() && sys.pc == Sending(listeners[i..]) && slots.Keys == old(slots).Keys
        invariant Filled(listeners, i, slots, c)
      {
        FilledMore(listeners, i, slots, c);
        SendNext(c, i);
        i := i + 1;
      }
    }

    method SendToAll(c: Config)
      requires Valid() && sys.pc == Sending(listeners) && value == c
      modifies this`slots, this`sys
      ensures Valid() && sys.pc.Idle? && slots.Keys == old(slots).Keys
      ensures forall l :: l in slots ==> slots[l] == Some(c)
    {
      ListenersKnown();
      SendLoop(c);
      Return();
    }

    /** Only a write or creation of the config file that parses and validates replaces anything. */
    method HandleReloadEvent(ev: Reload, validates: bool)
      requires Valid() && sys.pc.Idle? && (ev.config.Some? ==> validates == valid(ev.config.value))
      modifies this
      ensures Valid() && sys.pc.Idle?
      ensures Accepted(ev, valid) ==> value == ev.config.value && forall l :: l in slots ==>
                slots[l] == Some(ev.config.value)
      ensures !Accepted(ev, valid) ==> value == old(value) && slots == old(slots)
    {
      if !ev.writeOrCreate || !ev.isConfigFile || ev.config.None? || !validates {
        return;
      }
      Replace(ev.config.value);
    }
  }
}
