/**
  The in-memory fan-out as the program runs it, one call after the other: the map, the
  flag and the channels are fields the methods change in place. Every access is one step
  of the step-by-step model and every call a run of it, which `sys` follows.
 */
module PubSubCalls {
  import opened Basics
  import opened PubSub
  import opened PubSubSafety
  import opened PubSubRuns

  /** No call but t is under way. */
  ghost predicate Alone(s: Sys, t: Call) {
    forall u :: u in s.pcs && u != t ==> Returned(s.pcs[u])
  }

  /** A call takes its next step. */
  lemma Along(s: Sys, t: Call, newSub: SubId, order: seq<SubId>)
    requires Reachable(InMemory, s) && Enabled(InMemory, s, Act(t, newSub, order))
    ensures !Panics(s, t) && Reachable(InMemory, Goto(Effect(s, t, newSub), t, NextPc(s, t, newSub, order)))
  {
    NeverPanics(InMemory, s, t);
    ReachStep(InMemory, s, Act(t, newSub, order));
  }

  /** With nobody else under way, t finds every lock and every other `once` free. */
  lemma AloneCanAct(s: Sys, t: Call)
    requires Alone(s, t) && t in s.pcs && !Returned(s.pcs[t])
    ensures CanAct(InMemory, s, t)
  {}

  /** The first n copies have been offered, and no other channel was touched. */
  ghost predicate OfferedUpTo(was: map<SubId, Chan>, now: map<SubId, Chan>, snap: Snapshot, copies: seq<SubId>, n: nat)
    requires n <= |copies|
  {
    now.Keys == was.Keys && forall sub :: sub in was ==>
      now[sub] == if sub in Prefix(copies, n) then Offered(was[sub], snap) else was[sub]
  }

  lemma OfferedMore(was: map<SubId, Chan>, now: map<SubId, Chan>, snap: Snapshot, copies: seq<SubId>, n: nat)
    requires n < |copies| && Distinct(copies) && copies[n] in was && OfferedUpTo(was, now, snap, copies, n)
    ensures OfferedUpTo(was, now[copies[n] := Offered(now[copies[n]], snap)], snap, copies, n + 1)
  {
    assert copies[n] !in Prefix(copies, n) && Prefix(copies, n + 1) == Prefix(copies, n) + {copies[n]};
  }

  lemma OfferedToAll(was: map<SubId, Chan>, now: map<SubId, Chan>, snap: Snapshot, copies: seq<SubId>)
    requires OfferedUpTo(was, now, snap, copies, |copies|)
    ensures forall sub :: sub in now ==> now[sub] == if sub in copies then Offered(was[sub], snap) else was[sub]
  {
    assert Prefix(copies, |copies|) == Elements(copies);
  }

  class Hub {
    var closed: bool
    var subs: Option<map<Key, seq<SubId>>>
    var chans: map<SubId, Chan>
    ghost var sys: Sys

    ghost predicate Valid()
      reads this
    {
      Reachable(InMemory, sys) && closed == sys.closed && subs == sys.subs && chans == sys.chans
    }

    ghost predicate At(t: Call, pc: PC)
      reads this
    {
      t in sys.pcs && sys.pcs[t] == pc && Alone(sys, t)
    }

    ghost predicate Quiet()
      reads this
    {
      forall t :: t in sys.pcs ==> Returned(sys.pcs[t])
    }

    constructor ()
      ensures Valid() && Quiet() && sys == INITIAL
    {
      closed, subs, chans, sys := false, Some(map[]), map[], INITIAL;
      new;
      ReachInitial(InMemory);
    }

    /** A call starts: the ghost run gains its first program counter. */
    ghost method Enter(t: Call, op: Op)
      requires Valid() && Quiet() && t !in sys.pcs && (op.Cancel? ==> op.sub in chans)
      modifies this`sys
      ensures Valid() && At(t, FirstPc(t, op)) && sys == Goto(old(sys), t, FirstPc(t, op))
    {
      sys := Begin(InMemory, sys, t, op);
    }

    /** A step that only moves the call: taking a lock or a `once`. */
    ghost method Move(t: Call, pc: PC, next: PC)
      requires Valid() && At(t, pc)
                 && (pc.SubWait? || pc.CancelStart? || pc.CancelWait? || pc.PubWait? || pc.CloseWait? || pc.CloseLoop?)
      requires pc.CancelStart? ==> pc.sub in chans
      requires pc.CloseLoop? && pc.todo != [] ==> pc.todo[0] in chans
      requires next == match pc
                       case SubWait(key) => SubHold(key)
                       case CancelStart(sub) => (if chans[sub].done then Canceled(sub) else CancelWait(sub))
                       case CancelWait(sub) => CancelHold(sub)
                       case PubWait(snap) => PubHold(snap)
                       case CloseWait => CloseHold
                       case CloseLoop(todo) =>
                         (if todo == [] then Closed(false)
                          else if chans[todo[0]].done then CloseLoop(todo[1..])
                          else CloseChan(todo[0], todo[1..]))
                       case _ => pc
      modifies this`sys
      ensures Valid() && At(t, next) && sys == Goto(old(sys), t, next)
    {
      AloneCanAct(sys, t);
      Along(sys, t, SubId(0), []);
      sys := Goto(sys, t, next);
    }

    /** Under the write lock: attach the channel, or refuse after Close. */
    method Attach(t: Call, key: Key, newSub: SubId) returns (r: PC)
      requires Valid() && At(t, SubHold(key)) && newSub !in chans
      modifies this`subs, this`chans, this`sys
      ensures Valid() && At(t, r) && r == if closed then Refused else Subscribed(newSub)
      ensures closed ==> subs == old(subs) && chans == old(chans)
      ensures !closed ==> chans == old(chans)[newSub := Chan(key, [], [], false, false)]
      ensures !closed ==> forall k :: Slot(sys, k) == old(Slot(sys, k)) + (if k == key then [newSub] else [])
    {
      AloneCanAct(sys, t);
      Along(sys, t, newSub, []);
      if closed {
        sys := Goto(sys, t, Refused);
        return Refused;
      }
      var slot := if key in subs.value then subs.value[key] else [];
      subs := Some(subs.value[key := slot + [newSub]]);
      chans := chans[newSub := Chan(key, [], [], false, false)];
      sys := Goto(Linked(sys, newSub, key), t, Subscribed(newSub));
      r := Subscribed(newSub);
    }

    /** The returned channel is open and registered, or closed after Close. */
    method Subscribe(t: Call, key: Key, newSub: SubId) returns (r: PC)
      requires Valid() && Quiet() && t !in sys.pcs && newSub !in chans
      modifies this`subs, this`chans, this`sys
      ensures Valid() && Quiet() && r == if closed then Refused else Subscribed(newSub)
      ensures closed ==> subs == old(subs) && chans == old(chans)
      ensures !closed ==> chans == old(chans)[newSub := Chan(key, [], [], false, false)]
      ensures !closed ==> forall k :: Slot(sys, k) == old(Slot(sys, k)) + (if k == key then [newSub] else [])
    {
      Enter(t, Op.Subscribe(key));
      Move(t, SubWait(key), SubHold(key));
      r := Attach(t, key, newSub);
    }
  
    // ---------------------------------------------------------------------- cancel

    /** The in-place filter of a slot. */
    method Filter(slot: seq<SubId>, sub: SubId) returns (out: seq<SubId>)
      ensures out == Without(slot, sub, |slot|)
    {
      out := [];
      for i := 0 to |slot|
        invariant out == Without(slot, sub, i)
      {
        if slot[i] != sub {
          out := out + [slot[i]];
        }
      }
    }

    /** Under the write lock: take the subscription out of the map, unless Close has taken the map. */
    method Detach(t: Call, sub: SubId)
      requires Valid() && At(t, CancelHold(sub)) && sub in chans
      modifies this`subs, this`sys
      ensures Valid() && At(t, CancelClose(sub)) && chans == old(chans)
      ensures !closed ==> subs.Some? && old(subs).Some? && subs == Unlinked(old(sys), sub).subs
      ensures closed ==> subs == old(subs)
    {
      AloneCanAct(sys, t);
      Along(sys, t, sub, []);
      if !closed {
        var key := chans[sub].key;
        var out := Filter(if key in subs.value then subs.value[key] else [], sub);
        subs := Some(if out == [] then subs.value - {key} else subs.value[key := out]);
        sys := Goto(Unlinked(sys, sub), t, CancelClose(sub));
      } else {
        sys := Goto(sys, t, CancelClose(sub));
      }
    }

    /** close(ch), and the `once` is done. */
    method CloseChannel(t: Call, sub: SubId, pc: PC, next: PC)
      requires Valid() && At(t, pc) && sub in chans
      requires (pc == CancelClose(sub) && next == Canceled(sub))
               || (pc.CloseChan? && pc.sub == sub && next == CloseLoop(pc.todo))
      modifies this`chans, this`sys
      ensures Valid() && At(t, next) && chans == old(chans)[sub := old(chans)[sub].(closed := true, done := true)]
    {
      AloneCanAct(sys, t);
      Along(sys, t, sub, []);
      chans := chans[sub := chans[sub].(closed := true, done := true)];
      sys := Goto(CloseOf(sys, sub), t, next);
    }

    /** After cancel the channel is closed; a second cancel changes nothing. */
    method Cancel(t: Call, sub: SubId)
      requires Valid() && Quiet() && t !in sys.pcs && sub in chans
      modifies this`subs, this`chans, this`sys
      ensures Valid() && Quiet()
      ensures old(chans)[sub].done ==> chans == old(chans) && subs == old(subs)
      ensures sub in chans && chans[sub].closed && chans.Keys == old(chans).Keys
      ensures forall x :: x in chans && x != sub ==> chans[x] == old(chans)[x]
      ensures forall x, key :: x in Slot(sys, key) <==> x in Slot(old(sys), key) && x != sub
    {
      QuietSlots();
      Enter(t, Op.Cancel(sub));
      ghost var next := if chans[sub].done then Canceled(sub) else CancelWait(sub);
      Move(t, CancelStart(sub), next);
      if chans[sub].done {
        CanceledIsClosed(t);
        assert forall key :: Slot(sys, key) == Slot(old(sys), key);
        assert forall key :: !Holds(sub, key);
        return;
      }
      CancelOnce(t, sub);
      QuietSlots();
      assert forall x, key :: Holds(x, key) <==> old(Holds(x, key)) && x != sub;
    }

    /** With no call under way, the map holds exactly the open channels, each under its key. */
    lemma QuietSlots()
      requires Valid() && Quiet()
      ensures forall x, key :: x in Slot(sys, key) <==> Holds(x, key)
    {
      ReachableInv(InMemory, sys);
    }

    ghost predicate Holds(x: SubId, key: Key)
      reads this
    {
      x in chans && chans[x].key == key && !chans[x].done && !closed
    }

    /** Inside the `once`. */
    method CancelOnce(t: Call, sub: SubId)
      requires Valid() && At(t, CancelWait(sub)) && sub in chans
      modifies this`subs, this`chans, this`sys
      ensures Valid() && At(t, Canceled(sub))
      ensures chans == old(chans)[sub := old(chans)[sub].(closed := true, done := true)]
    {
      Move(t, CancelWait(sub), CancelHold(sub));
      Detach(t, sub);
      CloseChannel(t, sub, CancelClose(sub), Canceled(sub));
    }

    lemma CanceledIsClosed(t: Call)
      requires Valid() && t in sys.pcs && sys.pcs[t].Canceled?
      ensures sys.pcs[t].sub in chans && chans[sys.pcs[t].sub].closed
    {
      CancelReturned(InMemory, sys, t);
    }

    // --------------------------------------------------------------------- Publish

    /** Under the read lock: copy the slot of the key. */
    method CopySlot(t: Call, snap: Snapshot) returns (copies: seq<SubId>)
      requires Valid() && At(t, PubHold(snap))
      modifies this`sys
      ensures Valid() && copies == Slot(old(sys), snap.key) && Distinct(copies)
      ensures forall sub :: sub in copies ==> sub in chans && chans[sub].key == snap.key
      ensures At(t, if copies == [] then Published else PubSend(snap, copies)) && sys == old(sys).(pcs := sys.pcs)
    {
      AloneCanAct(sys, t);
      Along(sys, t, SubId(0), []);
      ReachableInv(InMemory, sys);
      copies := if !closed && snap.key in subs.value then subs.value[snap.key] else [];
      sys := Goto(sys, t, if copies == [] then Published else PubSend(snap, copies));
    }

    /** Non-blocking: dropped on a full buffer, absorbed on a closed channel. */
    method SafeSend(t: Call, snap: Snapshot, ghost todo: seq<SubId>, sub: SubId)
      requires Valid() && At(t, PubSend(snap, todo)) && todo != [] && todo[0] == sub && sub in chans
      modifies this`chans, this`sys
      ensures Valid() && At(t, PubSend(snap, todo[1..])) && chans == old(chans)[sub := Offered(old(chans)[sub], snap)]
    {
      AloneCanAct(sys, t);
      Along(sys, t, SubId(0), []);
      if !chans[sub].closed && |chans[sub].buf| < BUFFER_SIZE {
        chans := chans[sub := chans[sub].(buf := chans[sub].buf + [snap])];
      }
      sys := Goto(SentTo(sys, sub, snap), t, PubSend(snap, todo[1..]));
      assert chans == old(chans)[sub := Offered(old(chans)[sub], snap)];
    }

    ghost method Return(t: Call, snap: Snapshot)
      requires Valid() && At(t, PubSend(snap, []))
      modifies this`sys
      ensures Valid() && At(t, Published)
    {
      AloneCanAct(sys, t);
      Along(sys, t, SubId(0), []);
      sys := Goto(sys, t, Published);
    }

    /** Every subscriber of the key is offered the snapshot once; nobody else notices. */
    method Publish(t: Call, key: Key)
      requires Valid() && Quiet() && t !in sys.pcs
      modifies this`chans, this`sys
      ensures Valid() && Quiet() && chans.Keys == old(chans).Keys
      ensures forall sub :: sub in chans ==>
                chans[sub] == if sub in Slot(old(sys), key) then Offered(old(chans)[sub], Snapshot(key, t))
                  else old(chans)[sub]
    {
      var snap := Snapshot(key, t);
      Enter(t, Op.Publish(key));
      Move(t, PubWait(snap), PubHold(snap));
      var copies := CopySlot(t, snap);
      if copies == [] {
        return;
      }
      SendAll(t, snap, copies);
    }

    /** The i-th copy, to a channel no earlier copy went to. */
    method SendNext(t: Call, snap: Snapshot, copies: seq<SubId>, i: nat)
      requires Valid() && i < |copies| && At(t, PubSend(snap, copies[i..])) && copies[i] in chans
      modifies this`chans, this`sys
      ensures Valid() && At(t, PubSend(snap, copies[i + 1..]))
      ensures chans == old(chans)[copies[i] := Offered(old(chans)[copies[i]], snap)]
    {
      assert copies[i..][1..] == copies[i + 1..];
      SafeSend(t, snap, copies[i..], copies[i]);
    }

    method SendAll(t: Call, snap: Snapshot, copies: seq<SubId>)
      requires Valid() && At(t, PubSend(snap, copies)) && Distinct(copies) && forall sub :: sub in copies ==>
                 sub in chans
      modifies this`chans, this`sys
      ensures Valid() && At(t, Published) && chans.Keys == old(chans).Keys
      ensures forall sub :: sub in chans ==> chans[sub] == if sub in copies then Offered(old(chans)[sub], snap)
                else old(chans)[sub]
    {
      var i := 0;
      assert copies[0..] == copies;
      while i < |copies|
        invariant 0 <= i <= |copies| && Valid() && At(t, PubSend(snap, copies[i..]))
        invariant OfferedUpTo(old(chans), chans, snap, copies, i)
      {
        OfferedMore(old(chans), chans, snap, copies, i);
        SendNext(t, snap, copies, i);
        i := i + 1;
      }
      OfferedToAll(old(chans), chans, snap, copies);
      assert copies[i..] == [];
      Return(t, snap);
    }

    // ----------------------------------------------------------------------- Close

    /** The subscribers of the map, key by key in any order. */
    method AllSubscribers() returns (order: seq<SubId>)
      requires Valid() && !closed
      ensures RangeOrder(sys, order)
    {
      ReachableInv(InMemory, sys);
      order := [];
      var left := subs.value.Keys;
      while left != {}
        invariant left <= subs.value.Keys && Distinct(order)
        invariant forall sub :: sub in order <==>
                    sub in chans && sub in Slot(sys, chans[sub].key) && chans[sub].key !in left
        decreases |left|
      {
        var key := Choose(left);
        AppendDistinct(order, subs.value[key]);
        order := order + subs.value[key];
        left := left - {key};
      }
    }

    lemma AppendDistinct(a: seq<SubId>, b: seq<SubId>)
      requires Distinct(a) && Distinct(b) && forall x :: x in b ==> x !in a
      ensures Distinct(a + b)
    {
      var c := a + b;
      forall i, j | 0 <= i < j < |c| ensures c[i] != c[j] {
        if i < |a| <= j { assert b[j - |a|] in b && a[i] in a; }
        else if |a| <= i { assert c[i] == b[i - |a|] && c[j] == b[j - |a|]; }
      }
    }

    /** Flip the flag and take the map; false if another Close did. */
    method TakeMap(t: Call, order: seq<SubId>) returns (mine: bool)
      requires Valid() && At(t, CloseHold) && (!closed ==> RangeOrder(sys, order))
      modifies this`closed, this`subs, this`sys
      ensures Valid() && mine == !old(closed) && closed && (mine ==> subs == None)
      ensures At(t, if mine then CloseLoop(order) else Closed(true)) && chans == old(chans)
    {
      AloneCanAct(sys, t);
      Along(sys, t, SubId(0), order);
      mine := !closed;
      if mine {
        closed, subs := true, None;
        sys := Goto(Flipped(sys, t), t, CloseLoop(order));
      } else {
        sys := Goto(sys, t, Closed(true));
      }
    }

    /** The i-th channel: skipped if its cancel was first. */
    method CloseNext(t: Call, order: seq<SubId>, i: nat)
      requires Valid() && i < |order| && At(t, CloseLoop(order[i..])) && order[i] in chans
      modifies this`chans, this`sys
      ensures Valid() && At(t, CloseLoop(order[i + 1..])) && chans.Keys == old(chans).Keys
      ensures chans[order[i]].done && forall sub :: sub in chans && old(chans)[sub].done ==> chans[sub].done
    {
      var sub := order[i];
      assert order[i..][0] == sub && order[i..][1..] == order[i + 1..];
      if chans[sub].done {
        Move(t, CloseLoop(order[i..]), CloseLoop(order[i + 1..]));
      } else {
        Move(t, CloseLoop(order[i..]), CloseChan(sub, order[i + 1..]));
        CloseChannel(t, sub, CloseChan(sub, order[i + 1..]), CloseLoop(order[i + 1..]));
      }
    }

    /** Close every channel of the list through its `once`. */
    method CloseAll(t: Call, order: seq<SubId>)
      requires Valid() && At(t, CloseLoop(order)) && forall sub :: sub in order ==> sub in chans
      modifies this`chans, this`sys
      ensures Valid() && At(t, Closed(false)) && chans.Keys == old(chans).Keys
      ensures forall sub :: sub in order ==> chans[sub].done
    {
      var i := 0;
      assert order[0..] == order;
      while i < |order|
        invariant 0 <= i <= |order| && Valid() && At(t, CloseLoop(order[i..])) && chans.Keys == old(chans).Keys
        invariant forall k :: 0 <= k < i ==> order[k] in chans && chans[order[k]].done
      {
        CloseNext(t, order, i);
        i := i + 1;
      }
      assert order[i..] == [];
      Move(t, CloseLoop([]), Closed(false));
    }

    /** After Close every channel ever handed out is closed, and stays so. */
    method Close(t: Call)
      requires Valid() && Quiet() && t !in sys.pcs
      modifies this
      ensures Valid() && Quiet() && closed && chans.Keys == old(chans).Keys
      ensures forall sub :: sub in chans ==> chans[sub].closed
    {
      Enter(t, Op.Close);
      Move(t, CloseWait, CloseHold);
      var order := [];
      if !closed {
        order := AllSubscribers();
      }
      var mine := TakeMap(t, order);
      if mine {
        CloseAll(t, order);
      }
      AllClosed();
    }

    /** With no call under way and the flag set, no channel is open. */
    lemma AllClosed()
      requires Valid() && Quiet() && closed
      ensures forall sub :: sub in chans ==> chans[sub].closed
    {
      ReachableInv(InMemory, sys);
      forall sub | sub in chans ensures chans[sub].closed {
        assert TakenCare(sys, sub);
      }
    }
  }
}
