/**
  The snapshot fan-out of the dialer, step by step for any number of concurrent
  calls: `Subscribe`, its `cancel`, `Publish`, and `Close`. A call stops at every
  lock, at every entry to a subscriber's `sync.Once` and at every operation on a
  shared channel; between two stops it runs undisturbed. A lock, or a `once`, is
  held by the calls whose program counter is between its entry and its exit.

  `Nats` is the variant of pubsub_nats.go, whose `Stop` keeps the write lock while
  it closes the channels; its `deliverLocal` is `Publish` here.
 */
module PubSub {
  import opened Basics

  const BUFFER_SIZE := 16

  datatype Variant = InMemory | Nats
  datatype SubId = SubId(n: nat)
  datatype Key = Key(tenant: nat, operator: nat)

  /** Every publish has its own snapshot, named after the call that publishes it. */
  datatype Snapshot = Snapshot(key: Key, call: Call)

  /** A subscription: what its reader got, what waits in the buffer, whether the channel
      is closed, and whether its `once` is done. */
  datatype Chan = Chan(key: Key, got: seq<Snapshot>, buf: seq<Snapshot>, closed: bool, done: bool)

  datatype PC =
    | SubWait(key: Key) | SubHold(key: Key)
    | CancelStart(sub: SubId) | CancelWait(sub: SubId) | CancelHold(sub: SubId)
    | CancelClose(sub: SubId)                 // unlinked, channel still to be closed
    | PubWait(snap: Snapshot) | PubHold(snap: Snapshot) | PubSend(snap: Snapshot, todo: seq<SubId>)
    | CloseWait | CloseHold
    | CloseLoop(todo: seq<SubId>) | CloseChan(sub: SubId, todo: seq<SubId>)
    // returned; a refused Subscribe hands out a closed channel nobody else knows
    | Subscribed(sub: SubId) | Refused | Canceled(sub: SubId) | Published | Closed(early: bool)

  datatype Op = Subscribe(key: Key) | Cancel(sub: SubId) | Publish(key: Key) | Close

  datatype Sys = Sys(
    closed: bool,
    subs: Option<map<Key, seq<SubId>>>,       // None is the nil map Close leaves behind
    chans: map<SubId, Chan>,
    closer: Option<Call>,                     // the Close that flipped the flag
    panicked: bool,                           // a panic escaped a call
    pcs: map<Call, PC>)

  const INITIAL := Sys(false, Some(map[]), map[], None, false, map[])

  datatype Step =
    | Start(t: Call, op: Op)
    | Act(t: Call, newSub: SubId, order: seq<SubId>)  // `order` is how Close's range visits the map
    | Receive(sub: SubId)

  predicate Returned(pc: PC) {
    pc.Subscribed? || pc.Refused? || pc.Canceled? || pc.Published? || pc.Closed?
  }

  /** Calls at this point hold the write lock. */
  predicate Writes(v: Variant, pc: PC) {
    pc.SubHold? || pc.CancelHold? || pc.CloseHold? || (v.Nats? && (pc.CloseLoop? || pc.CloseChan?))
  }

  predicate WantsWrite(pc: PC) {
    pc.SubWait? || pc.CancelWait? || pc.CloseWait?
  }

  /** Calls at this point are inside the `once` of a subscription. */
  function InOnce(pc: PC): Option<SubId> {
    match pc
    case CancelWait(sub) => Some(sub)
    case CancelHold(sub) => Some(sub)
    case CancelClose(sub) => Some(sub)
    case CloseChan(sub, _) => Some(sub)
    case _ => None
  }

  ghost predicate NoWriter(v: Variant, s: Sys) {
    forall u :: u in s.pcs ==> !Writes(v, s.pcs[u])
  }

  ghost predicate NoReader(s: Sys) {
    forall u :: u in s.pcs ==> !s.pcs[u].PubHold?
  }

  ghost predicate OnceFree(s: Sys, sub: SubId) {
    forall u :: u in s.pcs ==> InOnce(s.pcs[u]) != Some(sub)
  }

  function Slot(s: Sys, key: Key): seq<SubId> {
    if s.subs.Some? && key in s.subs.value then s.subs.value[key] else []
  }

  /** `order` lists the subscribers of the map, each once. */
  ghost predicate RangeOrder(s: Sys, order: seq<SubId>) {
    Distinct(order) && forall sub :: sub in order <==> sub in s.chans && sub in Slot(s, s.chans[sub].key)
  }

  /** Whether call t can take its next step. */
  ghost predicate CanAct(v: Variant, s: Sys, t: Call) {
    t in s.pcs &&
    match s.pcs[t]
    case SubWait(_) => NoWriter(v, s) && NoReader(s)
    case CancelWait(_) => NoWriter(v, s) && NoReader(s)
    case CloseWait => NoWriter(v, s) && NoReader(s)
    case PubWait(_) => NoWriter(v, s)
    case CancelStart(sub) => OnceFree(s, sub)
    case CloseLoop(todo) => todo == [] || OnceFree(s, todo[0])
    case pc => !Returned(pc)
  }

  ghost predicate Enabled(v: Variant, s: Sys, step: Step) {
    match step
    case Start(t, op) => t !in s.pcs && (op.Cancel? ==> op.sub in s.chans)
    case Act(t, newSub, order) =>
      && CanAct(v, s, t)
      && (s.pcs[t].SubHold? ==> newSub !in s.chans)
      && (s.pcs[t].CloseHold? && !s.closed ==> RangeOrder(s, order))
    case Receive(sub) => sub in s.chans && s.chans[sub].buf != []
  }

  /** What Go would panic on: a write to the nil map, a close of a closed channel. */
  predicate Panics(s: Sys, t: Call)
    requires t in s.pcs
  {
    match s.pcs[t]
    case SubHold(_) => !s.closed && s.subs.None?
    case CancelHold(sub) => !s.closed && (s.subs.None? || sub !in s.chans)
    case CancelClose(sub) => sub !in s.chans || s.chans[sub].closed
    case CloseChan(sub, _) => sub !in s.chans || s.chans[sub].closed
    case PubSend(_, todo) => todo != [] && todo[0] !in s.chans
    case CancelStart(sub) => sub !in s.chans
    case CloseLoop(todo) => todo != [] && todo[0] !in s.chans
    case _ => false
  }

  function FirstPc(t: Call, op: Op): PC {
    match op
    case Subscribe(key) => SubWait(key)
    case Cancel(sub) => CancelStart(sub)
    case Publish(key) => PubWait(Snapshot(key, t))
    case Close => CloseWait
  }

  function Goto(s: Sys, t: Call, pc: PC): Sys {
    s.(pcs := s.pcs[t := pc])
  }

  /** Subscribe's append to the map. */
  function Linked(s: Sys, sub: SubId, key: Key): Sys
    requires s.subs.Some?
  {
    s.(subs := Some(s.subs.value[key := Slot(s, key) + [sub]]),
       chans := s.chans[sub := Chan(key, [], [], false, false)])
  }

  /** cancel's filter of the slot. */
  function Unlinked(s: Sys, sub: SubId): Sys
    requires s.subs.Some? && sub in s.chans
  {
    var key := s.chans[sub].key;
    var out := Without(Slot(s, key), sub, |Slot(s, key)|);
    s.(subs := Some(if out == [] then s.subs.value - {key} else s.subs.value[key := out]))
  }

  /** close(ch), the end of a `once`. */
  function CloseOf(s: Sys, sub: SubId): Sys
    requires sub in s.chans
  {
    s.(chans := s.chans[sub := s.chans[sub].(closed := true, done := true)])
  }

  function Flipped(s: Sys, t: Call): Sys {
    s.(closed := true, subs := None, closer := Some(t))
  }

  /** safeSend: dropped when the buffer is full, recovered when the channel is closed. */
  function Offered(ch: Chan, snap: Snapshot): Chan {
    if ch.closed || |ch.buf| >= BUFFER_SIZE then ch else ch.(buf := ch.buf + [snap])
  }

  function SentTo(s: Sys, sub: SubId, snap: Snapshot): Sys
    requires sub in s.chans
  {
    s.(chans := s.chans[sub := Offered(s.chans[sub], snap)])
  }

  function Taken(s: Sys, sub: SubId): Sys
    requires sub in s.chans && s.chans[sub].buf != []
  {
    var ch := s.chans[sub];
    s.(chans := s.chans[sub := ch.(got := ch.got + [ch.buf[0]], buf := ch.buf[1..])])
  }

  /** What the next step of call t does to the map, the flag and the channels. */
  function Effect(s: Sys, t: Call, newSub: SubId): Sys
    requires t in s.pcs && !Panics(s, t)
  {
    match s.pcs[t]
    case SubHold(key) => if s.closed then s else Linked(s, newSub, key)
    case CancelHold(sub) => if s.closed then s else Unlinked(s, sub)
    case CancelClose(sub) => CloseOf(s, sub)
    case PubSend(snap, todo) => if todo == [] then s else SentTo(s, todo[0], snap)
    case CloseHold => if s.closed then s else Flipped(s, t)
    case CloseChan(sub, _) => CloseOf(s, sub)
    case _ => s
  }

  /** Where the next step of call t takes it. */
  function NextPc(s: Sys, t: Call, newSub: SubId, order: seq<SubId>): PC
    requires t in s.pcs && !Panics(s, t)
  {
    match s.pcs[t]
    case SubWait(key) => SubHold(key)
    case SubHold(_) => if s.closed then Refused else Subscribed(newSub)
    case CancelStart(sub) => if s.chans[sub].done then Canceled(sub) else CancelWait(sub)
    case CancelWait(sub) => CancelHold(sub)
    case CancelHold(sub) => CancelClose(sub)
    case CancelClose(sub) => Canceled(sub)
    case PubWait(snap) => PubHold(snap)
    case PubHold(snap) => if s.closed || Slot(s, snap.key) == [] then Published else PubSend(snap, Slot(s, snap.key))
    case PubSend(snap, todo) => if todo == [] then Published else PubSend(snap, todo[1..])
    case CloseWait => CloseHold
    case CloseHold => if s.closed then Closed(true) else CloseLoop(order)
    case CloseLoop(todo) =>
      if todo == [] then Closed(false)
      else if s.chans[todo[0]].done then CloseLoop(todo[1..])
      else CloseChan(todo[0], todo[1..])
    case CloseChan(_, todo) => CloseLoop(todo)
    case pc => pc
  }

  function Acted(s: Sys, t: Call, newSub: SubId, order: seq<SubId>): Sys
    requires t in s.pcs
  {
    if Panics(s, t) then s.(panicked := true) else Goto(Effect(s, t, newSub), t, NextPc(s, t, newSub, order))
  }

  function Apply(v: Variant, s: Sys, step: Step): Sys
    requires Enabled(v, s, step)
  {
    match step
    case Start(t, op) => Goto(s, t, FirstPc(t, op))
    case Act(t, newSub, order) => Acted(s, t, newSub, order)
    case Receive(sub) => Taken(s, sub)
  }
}
