/** What holds in every reachable state of the fan-out, whatever the schedule. */
module PubSubSafety {
  import opened Basics
  import opened PubSub

  // ------------------------------------------------------------------ invariant

  /** A `once` is entered by one call at a time, and not after it is done. */
  ghost predicate OnceInv(s: Sys) {
    && (forall t :: t in s.pcs && InOnce(s.pcs[t]).Some? ==>
          InOnce(s.pcs[t]).value in s.chans && !s.chans[InOnce(s.pcs[t]).value].done)
    && (forall t, u :: t in s.pcs && u in s.pcs && t != u && InOnce(s.pcs[t]).Some? ==>
          InOnce(s.pcs[t]) != InOnce(s.pcs[u]))
  }

  ghost predicate PcInv(s: Sys, pc: PC) {
    match pc
    case CancelStart(sub) => sub in s.chans
    case CloseLoop(todo) => Distinct(todo) && forall sub :: sub in todo ==> sub in s.chans
    case CloseChan(sub, todo) => Distinct(todo) && sub !in todo && forall x :: x in todo ==> x in s.chans
    case Canceled(sub) => sub in s.chans && s.chans[sub].done
    case Subscribed(sub) => sub in s.chans
    case _ => true
  }

  ghost predicate PcsInv(s: Sys) {
    forall t :: t in s.pcs ==> PcInv(s, s.pcs[t])
  }

  /** A channel is closed when, and only when, its `once` is done. */
  ghost predicate ClosedInv(s: Sys) {
    forall sub :: sub in s.chans ==> (s.chans[sub].closed <==> s.chans[sub].done)
  }

  /** A cancel has taken the subscription out of the map and will close its channel. */
  ghost predicate Leaving(s: Sys, sub: SubId) {
    exists t :: t in s.pcs && s.pcs[t] == CancelClose(sub)
  }

  ghost predicate MapInv(s: Sys) {
    && (s.closed <==> s.subs.None?)
    && (s.subs.Some? ==>
          && (forall key :: key in s.subs.value ==> Distinct(s.subs.value[key]))
          && (forall key, sub :: key in s.subs.value && sub in s.subs.value[key] ==>
                sub in s.chans && s.chans[sub].key == key)
          && (forall sub :: sub in s.chans ==>
                (sub in Slot(s, s.chans[sub].key) <==> !s.chans[sub].done && !Leaving(s, sub))))
  }

  /** What the closing call has still to visit. */
  function Remaining(pc: PC): seq<SubId> {
    match pc
    case CloseLoop(todo) => todo
    case CloseChan(sub, todo) => [sub] + todo
    case _ => []
  }

  predicate InClose(pc: PC) {
    pc.CloseLoop? || pc.CloseChan?
  }

  /** The channel is closed, about to be closed by its cancel, or still on the closing call's list. */
  ghost predicate TakenCare(s: Sys, sub: SubId)
    requires sub in s.chans && s.closer.Some? && s.closer.value in s.pcs
  {
    s.chans[sub].done || Leaving(s, sub) || sub in Remaining(s.pcs[s.closer.value])
  }

  ghost predicate CloserInv(s: Sys) {
    && (s.closed <==> s.closer.Some?)
    && (forall t :: t in s.pcs && (InClose(s.pcs[t]) || s.pcs[t] == Closed(false)) ==> s.closer == Some(t))
    && (s.closer.Some? ==>
          && s.closer.value in s.pcs
          && (InClose(s.pcs[s.closer.value]) || s.pcs[s.closer.value] == Closed(false))
          && forall sub :: sub in s.chans ==> TakenCare(s, sub))
  }

  /** Each subscriber gets a snapshot at most once, and only of its own key. */
  ghost predicate ChanDelivery(s: Sys, ch: Chan) {
    && |ch.buf| <= BUFFER_SIZE
    && Distinct(ch.got + ch.buf)
    && forall snap :: snap in ch.got + ch.buf ==>
         snap.key == ch.key && snap.call in s.pcs && (s.pcs[snap.call].PubSend? || s.pcs[snap.call].Published?)
  }

  ghost predicate SenderInv(s: Sys, t: Call, pc: PC) {
    match pc
    case PubWait(snap) => snap.call == t
    case PubHold(snap) => snap.call == t
    case PubSend(snap, todo) =>
      && snap.call == t && Distinct(todo)
      && forall sub :: sub in todo ==>
           sub in s.chans && s.chans[sub].key == snap.key && snap !in s.chans[sub].got + s.chans[sub].buf
    case _ => true
  }

  ghost predicate DeliveryInv(s: Sys) {
    && (forall sub :: sub in s.chans ==> ChanDelivery(s, s.chans[sub]))
    && (forall t :: t in s.pcs ==> SenderInv(s, t, s.pcs[t]))
  }

  ghost predicate Inv(s: Sys) {
    !s.panicked && OnceInv(s) && PcsInv(s) && ClosedInv(s) && MapInv(s) && CloserInv(s) && DeliveryInv(s)
  }

  lemma NoPanic(s: Sys, t: Call)
    requires Inv(s) && t in s.pcs
    ensures !Panics(s, t)
  {
    assert PcInv(s, s.pcs[t]) && SenderInv(s, t, s.pcs[t]);
  }

  // --------------------------------------------- a call moves, nothing else changes

  lemma OnceMove(s: Sys, t: Call, pc: PC)
    requires OnceInv(s)
    requires InOnce(pc).None? || (t in s.pcs && InOnce(pc) == InOnce(s.pcs[t]))
          || (OnceFree(s, InOnce(pc).value) && InOnce(pc).value in s.chans && !s.chans[InOnce(pc).value].done)
    ensures OnceInv(Goto(s, t, pc))
  {}

  lemma PcsMove(s: Sys, t: Call, pc: PC)
    requires PcsInv(s) && PcInv(s, pc)
    ensures PcsInv(Goto(s, t, pc))
  {
    var u := Goto(s, t, pc);
    forall x | x in u.pcs ensures PcInv(u, u.pcs[x]) {
      if x != t { assert PcInv(s, s.pcs[x]); }
      assert forall q :: PcInv(u, q) <==> PcInv(s, q);
    }
  }

  lemma LeavingMove(s: Sys, t: Call, pc: PC)
    requires !pc.CancelClose? && (t in s.pcs ==> !s.pcs[t].CancelClose?)
    ensures forall sub :: Leaving(Goto(s, t, pc), sub) <==> Leaving(s, sub)
  {
    var u := Goto(s, t, pc);
    forall sub | Leaving(s, sub) ensures Leaving(u, sub) {
      var x :| x in s.pcs && s.pcs[x] == CancelClose(sub);
      assert u.pcs[x] == CancelClose(sub);
    }
    forall sub | Leaving(u, sub) ensures Leaving(s, sub) {
      var x :| x in u.pcs && u.pcs[x] == CancelClose(sub);
      assert s.pcs[x] == CancelClose(sub);
    }
  }

  lemma MapMove(s: Sys, t: Call, pc: PC)
    requires MapInv(s) && !pc.CancelClose? && (t in s.pcs ==> !s.pcs[t].CancelClose?)
    ensures MapInv(Goto(s, t, pc))
  {
    LeavingMove(s, t, pc);
  }

  lemma CloserMove(s: Sys, t: Call, pc: PC)
    requires CloserInv(s) && !pc.CancelClose? && (t in s.pcs ==> !s.pcs[t].CancelClose?)
    requires !InClose(pc) && pc != Closed(false) && s.closer != Some(t)
    ensures CloserInv(Goto(s, t, pc))
  {
    LeavingMove(s, t, pc);
    var u := Goto(s, t, pc);
    if s.closer.Some? {
      forall sub | sub in u.chans ensures TakenCare(u, sub) {
        assert TakenCare(s, sub);
      }
    }
  }

  /** A call that has sent something keeps being a publisher. */
  predicate SenderStays(s: Sys, t: Call, pc: PC) {
    t in s.pcs && (s.pcs[t].PubSend? || s.pcs[t].Published?) ==> pc.PubSend? || pc.Published?
  }

  lemma DeliveryMove(s: Sys, t: Call, pc: PC)
    requires DeliveryInv(s) && SenderStays(s, t, pc) && SenderInv(s, t, pc)
    ensures DeliveryInv(Goto(s, t, pc))
  {
    var u := Goto(s, t, pc);
    forall sub | sub in u.chans ensures ChanDelivery(u, u.chans[sub]) {
      assert ChanDelivery(s, s.chans[sub]);
    }
    forall x | x in u.pcs ensures SenderInv(u, x, u.pcs[x]) {
      if x != t { assert SenderInv(s, x, s.pcs[x]); }
    }
  }

  /** The steps that move one call and change nothing shared. */
  lemma Move(s: Sys, t: Call, pc: PC)
    requires Inv(s) && PcInv(s, pc) && SenderInv(s, t, pc) && SenderStays(s, t, pc)
    requires InOnce(pc).None? || (t in s.pcs && InOnce(pc) == InOnce(s.pcs[t]))
          || (OnceFree(s, InOnce(pc).value) && InOnce(pc).value in s.chans && !s.chans[InOnce(pc).value].done)
    requires !pc.CancelClose? && (t in s.pcs ==> !s.pcs[t].CancelClose?)
    requires !InClose(pc) && pc != Closed(false) && s.closer != Some(t)
    ensures Inv(Goto(s, t, pc))
  {
    OnceMove(s, t, pc);
    PcsMove(s, t, pc);
    MapMove(s, t, pc);
    CloserMove(s, t, pc);
    DeliveryMove(s, t, pc);
  }

  /** What the calls and channels owe each other does not depend on the map or the flag. */
  lemma SameChans(s: Sys, m: Sys)
    requires OnceInv(s) && PcsInv(s) && ClosedInv(s) && DeliveryInv(s) && m.chans == s.chans && m.pcs == s.pcs
    ensures OnceInv(m) && PcsInv(m) && ClosedInv(m) && DeliveryInv(m)
  {
    forall x | x in m.pcs ensures PcInv(m, m.pcs[x]) && SenderInv(m, x, m.pcs[x]) {
      assert PcInv(s, s.pcs[x]) && SenderInv(s, x, s.pcs[x]);
    }
    forall x | x in m.chans ensures ChanDelivery(m, m.chans[x]) { assert ChanDelivery(s, s.chans[x]); }
  }

  /** `Move` without the parts that involve the map and the closing call. */
  lemma LocalMove(s: Sys, t: Call, pc: PC)
    requires OnceInv(s) && PcsInv(s) && ClosedInv(s) && DeliveryInv(s)
    requires PcInv(s, pc) && SenderInv(s, t, pc) && SenderStays(s, t, pc)
    requires InOnce(pc).None? || (t in s.pcs && InOnce(pc) == InOnce(s.pcs[t]))
          || (OnceFree(s, InOnce(pc).value) && InOnce(pc).value in s.chans && !s.chans[InOnce(pc).value].done)
    ensures var u := Goto(s, t, pc); OnceInv(u) && PcsInv(u) && ClosedInv(u) && DeliveryInv(u)
  {
    OnceMove(s, t, pc);
    PcsMove(s, t, pc);
    DeliveryMove(s, t, pc);
  }

  // ------------------------------------------------------------------- Subscribe

  lemma MapLink(s: Sys, sub: SubId, key: Key)
    requires MapInv(s) && s.subs.Some? && sub !in s.chans && !Leaving(s, sub)
    ensures MapInv(Linked(s, sub, key))
  {
    var u := Linked(s, sub, key);
    assert forall x :: x in Slot(s, key) ==> x in s.chans;
    assert Slot(u, key) == Slot(s, key) + [sub];
    assert forall k :: k != key ==> Slot(u, k) == Slot(s, k);
    assert forall x :: Leaving(u, x) <==> Leaving(s, x);
  }

  lemma DeliveryLink(s: Sys, sub: SubId, key: Key)
    requires DeliveryInv(s) && s.subs.Some? && sub !in s.chans
    ensures DeliveryInv(Linked(s, sub, key))
  {
    var u := Linked(s, sub, key);
    forall x | x in u.chans ensures ChanDelivery(u, u.chans[x]) {
      if x != sub { assert ChanDelivery(s, s.chans[x]); }
    }
    forall x | x in u.pcs ensures SenderInv(u, x, u.pcs[x]) {
      assert SenderInv(s, x, s.pcs[x]);
    }
  }

  lemma StepLink(s: Sys, t: Call, sub: SubId)
    requires Inv(s) && t in s.pcs && s.pcs[t].SubHold? && !s.closed && sub !in s.chans
    ensures s.subs.Some? && Inv(Goto(Linked(s, sub, s.pcs[t].key), t, Subscribed(sub)))
  {
    var u := Linked(s, sub, s.pcs[t].key);
    assert forall x :: x in s.pcs && s.pcs[x].CancelClose? ==> InOnce(s.pcs[x]) == Some(s.pcs[x].sub);
    MapLink(s, sub, s.pcs[t].key);
    DeliveryLink(s, sub, s.pcs[t].key);
    assert PcsInv(u) by {
      forall x | x in u.pcs ensures PcInv(u, u.pcs[x]) { assert PcInv(s, s.pcs[x]); }
    }
    Move(u, t, Subscribed(sub));
  }

  // ---------------------------------------------------------------------- cancel

  lemma MapUnlink(s: Sys, t: Call, sub: SubId)
    requires MapInv(s) && s.subs.Some? && sub in s.chans && !s.chans[sub].done
    requires t in s.pcs && s.pcs[t] == CancelHold(sub)
    ensures MapInv(Goto(Unlinked(s, sub), t, CancelClose(sub)))
  {
    var u := Goto(Unlinked(s, sub), t, CancelClose(sub));
    var key := s.chans[sub].key;
    var slot := Slot(s, key);
    WithoutElements(slot, sub, |slot|);
    assert slot[..|slot|] == slot;
    assert Slot(u, key) == Without(slot, sub, |slot|);
    LeavingMore(s, t, sub, u);
    forall x | x in u.chans ensures x in Slot(u, u.chans[x].key) <==> !u.chans[x].done && !Leaving(u, x) {
      assert x in Slot(s, s.chans[x].key) <==> !s.chans[x].done && !Leaving(s, x);
      if s.chans[x].key != key { assert Slot(u, s.chans[x].key) == Slot(s, s.chans[x].key); }
    }
  }

  lemma LeavingMore(s: Sys, t: Call, sub: SubId, u: Sys)
    requires t in s.pcs && s.pcs[t] == CancelHold(sub) && u.pcs == s.pcs[t := CancelClose(sub)]
    ensures forall x :: Leaving(u, x) <==> Leaving(s, x) || x == sub
  {
    forall x | Leaving(s, x) ensures Leaving(u, x) {
      var c :| c in s.pcs && s.pcs[c] == CancelClose(x);
      assert u.pcs[c] == CancelClose(x);
    }
    assert u.pcs[t] == CancelClose(sub);
    forall x | Leaving(u, x) && x != sub ensures Leaving(s, x) {
      var c :| c in u.pcs && u.pcs[c] == CancelClose(x);
      assert s.pcs[c] == CancelClose(x);
    }
  }

  lemma CloserLeave(s: Sys, t: Call, sub: SubId)
    requires CloserInv(s) && s.closed && t in s.pcs && s.pcs[t] == CancelHold(sub)
    ensures CloserInv(Goto(s, t, CancelClose(sub)))
  {
    var u := Goto(s, t, CancelClose(sub));
    LeavingMore(s, t, sub, u);
    forall x | x in u.chans ensures TakenCare(u, x) { assert TakenCare(s, x); }
  }

  lemma StepUnlink(s: Sys, t: Call)
    requires Inv(s) && t in s.pcs && s.pcs[t].CancelHold?
    requires !s.closed ==> s.subs.Some? && s.pcs[t].sub in s.chans
    ensures Inv(Goto(if s.closed then s else Unlinked(s, s.pcs[t].sub), t, CancelClose(s.pcs[t].sub)))
  {
    if s.closed { UnlinkLate(s, t, s.pcs[t].sub); } else { UnlinkOpen(s, t, s.pcs[t].sub); }
  }

  /** After a Close there is nothing left to unlink. */
  lemma UnlinkLate(s: Sys, t: Call, sub: SubId)
    requires Inv(s) && t in s.pcs && s.pcs[t] == CancelHold(sub) && s.closed
    ensures Inv(Goto(s, t, CancelClose(sub)))
  {
    LocalMove(s, t, CancelClose(sub));
    CloserLeave(s, t, sub);
  }

  lemma UnlinkOpen(s: Sys, t: Call, sub: SubId)
    requires Inv(s) && t in s.pcs && s.pcs[t] == CancelHold(sub) && !s.closed && s.subs.Some? && sub in s.chans
    ensures Inv(Goto(Unlinked(s, sub), t, CancelClose(sub)))
  {
    assert InOnce(s.pcs[t]) == Some(sub);
    SameChans(s, Unlinked(s, sub));
    LocalMove(Unlinked(s, sub), t, CancelClose(sub));
    MapUnlink(s, t, sub);
  }

  // ----------------------------------------------------- the end of a once

  /** Close the channel and leave the `once`. */
  lemma CloseChannel(s: Sys, t: Call, sub: SubId, pc: PC)
    requires OnceInv(s) && PcsInv(s) && ClosedInv(s) && DeliveryInv(s)
    requires t in s.pcs && InOnce(s.pcs[t]) == Some(sub) && InOnce(pc).None? && sub in s.chans
    requires PcInv(CloseOf(s, sub), pc) && !pc.PubWait? && !pc.PubHold? && !pc.PubSend?
    ensures var u := Goto(CloseOf(s, sub), t, pc); OnceInv(u) && PcsInv(u) && ClosedInv(u) && DeliveryInv(u)
  {
    var m := CloseOf(s, sub);
    assert PcsInv(m) && DeliveryInv(m) by {
      forall x | x in m.pcs ensures PcInv(m, m.pcs[x]) { assert PcInv(s, s.pcs[x]); }
      forall x | x in m.chans ensures ChanDelivery(m, m.chans[x]) { assert ChanDelivery(s, s.chans[x]); }
      forall x | x in m.pcs ensures SenderInv(m, x, m.pcs[x]) { assert SenderInv(s, x, s.pcs[x]); }
    }
    PcsMove(m, t, pc);
    DeliveryMove(m, t, pc);
  }

  /** cancel's close takes the subscription from leaving to done. */
  lemma LeavingLess(s: Sys, t: Call, sub: SubId, u: Sys)
    requires OnceInv(s) && t in s.pcs && s.pcs[t] == CancelClose(sub) && t in u.pcs
    requires !u.pcs[t].CancelClose? && u.pcs == s.pcs[t := u.pcs[t]]
    ensures forall x :: Leaving(u, x) <==> Leaving(s, x) && x != sub
  {
    assert InOnce(s.pcs[t]) == Some(sub);
    forall x | Leaving(s, x) && x != sub ensures Leaving(u, x) {
      var c :| c in s.pcs && s.pcs[c] == CancelClose(x);
      assert u.pcs[c] == CancelClose(x);
    }
    forall x | Leaving(u, x) ensures Leaving(s, x) && x != sub {
      var c :| c in u.pcs && u.pcs[c] == CancelClose(x);
      assert c != t && s.pcs[c] == CancelClose(x) && InOnce(s.pcs[c]) == Some(x);
    }
  }

  lemma MapCancelClose(s: Sys, t: Call, sub: SubId)
    requires OnceInv(s) && MapInv(s) && CloserInv(s)
    requires t in s.pcs && s.pcs[t] == CancelClose(sub) && sub in s.chans
    ensures var u := Goto(CloseOf(s, sub), t, Canceled(sub)); MapInv(u) && CloserInv(u)
  {
    var u := Goto(CloseOf(s, sub), t, Canceled(sub));
    LeavingLess(s, t, sub, u);
    assert Leaving(s, sub);
    assert forall k :: Slot(u, k) == Slot(s, k);
    if s.closer.Some? {
      forall x | x in u.chans ensures TakenCare(u, x) { assert TakenCare(s, x); }
    }
  }

  lemma StepCancelClose(s: Sys, t: Call)
    requires Inv(s) && t in s.pcs && s.pcs[t].CancelClose? && s.pcs[t].sub in s.chans
    ensures Inv(Goto(CloseOf(s, s.pcs[t].sub), t, Canceled(s.pcs[t].sub)))
  {
    var sub := s.pcs[t].sub;
    assert InOnce(s.pcs[t]) == Some(sub);
    CloseChannel(s, t, sub, Canceled(sub));
    MapCancelClose(s, t, sub);
  }

  // ----------------------------------------------------------------------- Close

  lemma CloserFlip(s: Sys, t: Call, order: seq<SubId>)
    requires MapInv(s) && CloserInv(s) && t in s.pcs && !s.pcs[t].CancelClose? && !s.closed && RangeOrder(s, order)
    ensures var u := Goto(Flipped(s, t), t, CloseLoop(order)); MapInv(u) && CloserInv(u)
  {
    var u := Goto(Flipped(s, t), t, CloseLoop(order));
    LeavingMove(s, t, CloseLoop(order));
    assert forall x :: Leaving(u, x) <==> Leaving(Goto(s, t, CloseLoop(order)), x);
    forall x | x in u.chans ensures TakenCare(u, x) {
      assert x in Slot(s, s.chans[x].key) <==> !s.chans[x].done && !Leaving(s, x);
    }
  }

  lemma StepFlip(s: Sys, t: Call, order: seq<SubId>)
    requires Inv(s) && t in s.pcs && s.pcs[t].CloseHold? && !s.closed && RangeOrder(s, order)
    ensures Inv(Goto(Flipped(s, t), t, CloseLoop(order)))
  {
    SameChans(s, Flipped(s, t));
    LocalMove(Flipped(s, t), t, CloseLoop(order));
    CloserFlip(s, t, order);
  }

  /** The closing call walks on: past a channel already closed, into a `once`, or out. */
  function Walked(s: Sys, todo: seq<SubId>): PC
    requires todo != [] ==> todo[0] in s.chans
  {
    if todo == [] then Closed(false)
    else if s.chans[todo[0]].done then CloseLoop(todo[1..])
    else CloseChan(todo[0], todo[1..])
  }

  lemma CloserWalk(s: Sys, t: Call)
    requires CloserInv(s) && t in s.pcs && s.pcs[t].CloseLoop?
    requires s.pcs[t].todo != [] ==> s.pcs[t].todo[0] in s.chans
    ensures CloserInv(Goto(s, t, Walked(s, s.pcs[t].todo)))
  {
    var todo := s.pcs[t].todo;
    var u := Goto(s, t, Walked(s, todo));
    assert todo != [] ==> todo == [todo[0]] + todo[1..];
    LeavingMove(s, t, Walked(s, todo));
    forall x | x in u.chans ensures TakenCare(u, x) { assert TakenCare(s, x); }
  }

  lemma WalkedInv(s: Sys, todo: seq<SubId>)
    requires PcInv(s, CloseLoop(todo))
    ensures (todo != [] ==> todo[0] in s.chans) && PcInv(s, Walked(s, todo))
  {
    assert todo != [] ==> todo[0] in todo && todo == [todo[0]] + todo[1..];
  }

  lemma StepCloseLoop(s: Sys, t: Call)
    requires Inv(s) && t in s.pcs && s.pcs[t].CloseLoop?
    requires s.pcs[t].todo != [] ==> s.pcs[t].todo[0] in s.chans && OnceFree(s, s.pcs[t].todo[0])
    ensures Inv(Goto(s, t, Walked(s, s.pcs[t].todo)))
  {
    var todo := s.pcs[t].todo;
    assert PcInv(s, s.pcs[t]);
    WalkedInv(s, todo);
    var pc := Walked(s, todo);
    LocalMove(s, t, pc);
    MapMove(s, t, pc);
    CloserWalk(s, t);
  }

  predicate Sending(pc: PC) {
    pc.PubHold? || pc.PubSend?
  }

  predicate Linking(pc: PC) {
    pc.SubHold? || pc.CancelHold? || pc.CancelClose?
  }

  lemma StepCloseHold(v: Variant, s: Sys, t: Call, newSub: SubId, order: seq<SubId>)
    requires Inv(s) && Enabled(v, s, Act(t, newSub, order)) && s.pcs[t].CloseHold?
    ensures Inv(Acted(s, t, newSub, order))
  {
    NoPanic(s, t);
    if s.closed { Move(s, t, Closed(true)); } else { StepFlip(s, t, order); }
  }

  lemma StepClosing(v: Variant, s: Sys, t: Call, newSub: SubId, order: seq<SubId>)
    requires Inv(s) && Enabled(v, s, Act(t, newSub, order)) && InClose(s.pcs[t])
    ensures Inv(Acted(s, t, newSub, order))
  {
    NoPanic(s, t);
    match s.pcs[t]
    case CloseLoop(_) => StepCloseLoop(s, t);
    case CloseChan(_, _) => StepCloseChan(s, t);
  }

  lemma StepSending(v: Variant, s: Sys, t: Call, newSub: SubId, order: seq<SubId>)
    requires Inv(s) && Enabled(v, s, Act(t, newSub, order)) && Sending(s.pcs[t])
    ensures Inv(Acted(s, t, newSub, order))
  {
    NoPanic(s, t);
    match s.pcs[t]
    case PubHold(_) => StepPubHold(s, t);
    case PubSend(_, todo) => if todo == [] { Move(s, t, Published); } else { StepPubSend(s, t); }
  }

  lemma StepLinking(v: Variant, s: Sys, t: Call, newSub: SubId, order: seq<SubId>)
    requires Inv(s) && Enabled(v, s, Act(t, newSub, order)) && Linking(s.pcs[t])
    ensures Inv(Acted(s, t, newSub, order))
  {
    NoPanic(s, t);
    match s.pcs[t]
    case SubHold(_) => if s.closed { Move(s, t, Refused); } else { StepLink(s, t, newSub); }
    case CancelHold(_) => StepUnlink(s, t);
    case CancelClose(_) => StepCancelClose(s, t);
  }

  lemma CloserCloseChan(s: Sys, t: Call)
    requires MapInv(s) && CloserInv(s) && t in s.pcs && s.pcs[t].CloseChan? && s.pcs[t].sub in s.chans
    ensures var u := Goto(CloseOf(s, s.pcs[t].sub), t, CloseLoop(s.pcs[t].todo)); MapInv(u) && CloserInv(u)
  {
    var sub, todo := s.pcs[t].sub, s.pcs[t].todo;
    var u := Goto(CloseOf(s, sub), t, CloseLoop(todo));
    LeavingMove(CloseOf(s, sub), t, CloseLoop(todo));
    assert forall x :: Leaving(CloseOf(s, sub), x) <==> Leaving(s, x);
    forall x | x in u.chans ensures TakenCare(u, x) { assert TakenCare(s, x); }
  }

  lemma StepCloseChan(s: Sys, t: Call)
    requires Inv(s) && t in s.pcs && s.pcs[t].CloseChan? && s.pcs[t].sub in s.chans
    ensures Inv(Goto(CloseOf(s, s.pcs[t].sub), t, CloseLoop(s.pcs[t].todo)))
  {
    assert PcInv(s, s.pcs[t]) && InOnce(s.pcs[t]) == Some(s.pcs[t].sub);
    CloseChannel(s, t, s.pcs[t].sub, CloseLoop(s.pcs[t].todo));
    CloserCloseChan(s, t);
  }

  // --------------------------------------------------------------------- Publish

  lemma StepPubHold(s: Sys, t: Call)
    requires Inv(s) && t in s.pcs && s.pcs[t].PubHold?
    ensures var snap := s.pcs[t].snap;
            Inv(Goto(s, t, if s.closed || Slot(s, snap.key) == [] then Published else PubSend(snap, Slot(s, snap.key))))
  {
    var snap := s.pcs[t].snap;
    var pc := if s.closed || Slot(s, snap.key) == [] then Published else PubSend(snap, Slot(s, snap.key));
    assert SenderInv(s, t, s.pcs[t]);
    if pc.PubSend? {
      forall sub | sub in pc.todo
        ensures sub in s.chans && s.chans[sub].key == snap.key && snap !in s.chans[sub].got + s.chans[sub].buf
      {
        assert ChanDelivery(s, s.chans[sub]);
      }
    }
    Move(s, t, pc);
  }

  /** A send changes the one channel it is offered to, or none. */
  lemma DeliverySend(s: Sys, t: Call, sub: SubId)
    requires DeliveryInv(s) && t in s.pcs && s.pcs[t].PubSend? && sub in s.chans && sub !in s.pcs[t].todo
    requires s.chans[sub].key == s.pcs[t].snap.key && s.pcs[t].snap !in s.chans[sub].got + s.chans[sub].buf
    ensures DeliveryInv(SentTo(s, sub, s.pcs[t].snap))
  {
    var snap := s.pcs[t].snap;
    var u := SentTo(s, sub, snap);
    assert SenderInv(s, t, s.pcs[t]);
    assert ChanDelivery(s, s.chans[sub]);
    var ch, ch' := s.chans[sub], u.chans[sub];
    assert ch' == ch || ch'.got + ch'.buf == (ch.got + ch.buf) + [snap];
    forall x | x in u.chans ensures ChanDelivery(u, u.chans[x]) {
      if x != sub { assert ChanDelivery(s, s.chans[x]); }
    }
    forall x | x in u.pcs ensures SenderInv(u, x, u.pcs[x]) {
      assert SenderInv(s, x, s.pcs[x]);
    }
  }

  lemma SenderTail(s: Sys, t: Call, snap: Snapshot, todo: seq<SubId>)
    requires SenderInv(s, t, PubSend(snap, todo)) && todo != []
    ensures SenderInv(s, t, PubSend(snap, todo[1..])) && todo[0] !in todo[1..] && todo[0] in s.chans
    ensures s.chans[todo[0]].key == snap.key && snap !in s.chans[todo[0]].got + s.chans[todo[0]].buf
  {
    assert todo == [todo[0]] + todo[1..] && todo[0] in todo;
  }

  lemma StepPubSend(s: Sys, t: Call)
    requires Inv(s) && t in s.pcs && s.pcs[t].PubSend?
    requires s.pcs[t].todo != [] && s.pcs[t].todo[0] in s.chans
    ensures Inv(Goto(SentTo(s, s.pcs[t].todo[0], s.pcs[t].snap), t, PubSend(s.pcs[t].snap, s.pcs[t].todo[1..])))
  {
    var snap, todo := s.pcs[t].snap, s.pcs[t].todo;
    assert SenderInv(s, t, s.pcs[t]);
    SenderTail(s, t, snap, todo);
    var m := Goto(s, t, PubSend(snap, todo[1..]));
    Move(s, t, PubSend(snap, todo[1..]));
    SendKeeps(m, t, todo[0]);
    assert SentTo(m, todo[0], snap) == Goto(SentTo(s, todo[0], snap), t, PubSend(snap, todo[1..]));
  }

  lemma SendKeeps(s: Sys, t: Call, sub: SubId)
    requires Inv(s) && t in s.pcs && s.pcs[t].PubSend? && sub in s.chans && sub !in s.pcs[t].todo
    requires s.chans[sub].key == s.pcs[t].snap.key && s.pcs[t].snap !in s.chans[sub].got + s.chans[sub].buf
    ensures Inv(SentTo(s, sub, s.pcs[t].snap))
  {
    DeliverySend(s, t, sub);
    SameFlags(s, SentTo(s, sub, s.pcs[t].snap));
    SameFlagsClose(s, SentTo(s, sub, s.pcs[t].snap));
  }

  ghost predicate SameKeysAndFlags(s: Sys, u: Sys) {
    && u == s.(chans := u.chans) && u.chans.Keys == s.chans.Keys
    && forall x :: x in s.chans ==>
         u.chans[x].key == s.chans[x].key && u.chans[x].closed == s.chans[x].closed
           && u.chans[x].done == s.chans[x].done
  }

  /** Everything but delivery depends only on the keys and flags of the channels. */
  lemma SameFlags(s: Sys, u: Sys)
    requires OnceInv(s) && PcsInv(s) && ClosedInv(s) && SameKeysAndFlags(s, u)
    ensures OnceInv(u) && PcsInv(u) && ClosedInv(u)
  {
    forall x | x in u.pcs ensures PcInv(u, u.pcs[x]) { assert PcInv(s, s.pcs[x]); }
  }

  lemma SameFlagsClose(s: Sys, u: Sys)
    requires MapInv(s) && CloserInv(s) && SameKeysAndFlags(s, u)
    ensures MapInv(u) && CloserInv(u)
  {
    assert forall x :: Leaving(u, x) <==> Leaving(s, x);
    assert forall k :: Slot(u, k) == Slot(s, k);
    if s.closer.Some? {
      forall x | x in u.chans ensures TakenCare(u, x) { assert TakenCare(s, x); }
    }
  }

  lemma DeliveryReceive(s: Sys, sub: SubId)
    requires DeliveryInv(s) && sub in s.chans && s.chans[sub].buf != []
    ensures DeliveryInv(Taken(s, sub))
  {
    var u := Taken(s, sub);
    var ch, ch' := s.chans[sub], u.chans[sub];
    assert ch'.got + ch'.buf == ch.got + ch.buf;
    forall x | x in u.chans ensures ChanDelivery(u, u.chans[x]) { assert ChanDelivery(s, s.chans[x]); }
    forall x | x in u.pcs ensures SenderInv(u, x, u.pcs[x]) { assert SenderInv(s, x, s.pcs[x]); }
  }

  lemma StepReceive(s: Sys, sub: SubId)
    requires Inv(s) && sub in s.chans && s.chans[sub].buf != []
    ensures Inv(Taken(s, sub))
  {
    DeliveryReceive(s, sub);
    SameFlags(s, Taken(s, sub));
    SameFlagsClose(s, Taken(s, sub));
  }

  // --------------------------------------------------------------------- all steps

  lemma StepMove(s: Sys, t: Call)
    requires Inv(s) && t in s.pcs
    requires match s.pcs[t]
             case CancelStart(sub) => OnceFree(s, sub) && sub in s.chans
             case SubWait(_) => true
             case CancelWait(_) => true
             case PubWait(_) => true
             case CloseWait => true
             case _ => false
    ensures Inv(match s.pcs[t]
                case CancelStart(sub) => Goto(s, t, if s.chans[sub].done then Canceled(sub) else CancelWait(sub))
                case SubWait(key) => Goto(s, t, SubHold(key))
                case CancelWait(sub) => Goto(s, t, CancelHold(sub))
                case PubWait(snap) => Goto(s, t, PubHold(snap))
                case _ => Goto(s, t, CloseHold))
  {
    assert SenderInv(s, t, s.pcs[t]);
    match s.pcs[t]
    case CancelStart(sub) => Move(s, t, if s.chans[sub].done then Canceled(sub) else CancelWait(sub));
    case SubWait(key) => Move(s, t, SubHold(key));
    case CancelWait(sub) => Move(s, t, CancelHold(sub));
    case PubWait(snap) => Move(s, t, PubHold(snap));
    case CloseWait => Move(s, t, CloseHold);
  }

  lemma StepAct(v: Variant, s: Sys, t: Call, newSub: SubId, order: seq<SubId>)
    requires Inv(s) && Enabled(v, s, Act(t, newSub, order))
    ensures Inv(Acted(s, t, newSub, order))
  {
    if s.pcs[t].CloseHold? {
      StepCloseHold(v, s, t, newSub, order);
    } else if InClose(s.pcs[t]) {
      StepClosing(v, s, t, newSub, order);
    } else if Sending(s.pcs[t]) {
      StepSending(v, s, t, newSub, order);
    } else if Linking(s.pcs[t]) {
      StepLinking(v, s, t, newSub, order);
    } else {
      NoPanic(s, t);
      StepMove(s, t);
    }
  }

  lemma InvStep(v: Variant, s: Sys, step: Step)
    requires Inv(s) && Enabled(v, s, step)
    ensures Inv(Apply(v, s, step))
  {
    match step
    case Start(t, op) => Move(s, t, FirstPc(t, op));
    case Act(t, newSub, order) => StepAct(v, s, t, newSub, order);
    case Receive(sub) => StepReceive(s, sub);
  }
}
