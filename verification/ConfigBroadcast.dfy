/**
  The latest-value broadcast of configuration snapshots: one reload goroutine replaces
  the config and sends it to every listener's one-slot channel, draining a full slot
  first; listeners receive and new ones subscribe at any moment in between.

  A replaced config is known by its place in the list of all replaced configs.
 */
module ConfigBroadcast {
  import opened Basics

  datatype Config = Config(text: string)
  datatype Listener = Listener(n: nat)

  /** What a listener has received, what waits in its slot, and the first config it is due. */
  datatype Chan = Chan(got: seq<nat>, slot: Option<nat>, joined: nat)

  /** Where the reload goroutine is inside `replace`. */
  datatype PC =
    | Idle
    | Stored                                            // value swapped, read lock not yet taken
    | Sending(todo: seq<Listener>)                      // about to try the first listener
    | Draining(todo: seq<Listener>)                     // its slot was full
    | Resending(todo: seq<Listener>)                    // about to send for good

  datatype Sys = Sys(value: Config, log: seq<Config>, listeners: seq<Listener>, chans: map<Listener, Chan>, pc: PC)

  /** One file event, and what reading and validating the file then gives. */
  datatype Reload = Reload(writeOrCreate: bool, isConfigFile: bool, config: Option<Config>)

  datatype Step = Event(ev: Reload) | Producer | Subscribe(l: Listener) | Receive(l: Listener)

  /** Reading, parsing and validating all succeed: `valid` is the configuration's own Validate. */
  ghost predicate Accepted(ev: Reload, valid: Config -> bool) {
    ev.writeOrCreate && ev.isConfigFile && ev.config.Some? && valid(ev.config.value)
  }

  /** The read lock is held. */
  predicate Locked(pc: PC) {
    pc.Sending? || pc.Draining? || pc.Resending?
  }

  function Todo(pc: PC): seq<Listener> {
    if Locked(pc) then pc.todo else []
  }

  ghost predicate Enabled(s: Sys, step: Step) {
    match step
    case Event(_) => s.pc.Idle?
    case Producer =>
      && !s.pc.Idle? && (s.pc.Draining? || s.pc.Resending? ==> s.pc.todo != [])
      && (forall l :: l in Todo(s.pc) ==> l in s.chans)
      && (s.pc.Resending? ==> s.chans[s.pc.todo[0]].slot.None?)     // a send on a full channel blocks
    case Subscribe(l) => l !in s.chans && !Locked(s.pc)
    case Receive(l) => l in s.chans && s.chans[l].slot.Some?
  }

  function WithSlot(s: Sys, l: Listener, slot: Option<nat>): Sys
    requires l in s.chans
  {
    s.(chans := s.chans[l := s.chans[l].(slot := slot)])
  }

  function Produced(s: Sys): Sys
    requires Enabled(s, Producer) && |s.log| > 0
  {
    var k := |s.log| - 1;
    match s.pc
    case Idle => s
    case Stored => s.(pc := Sending(s.listeners))
    case Sending(todo) =>
      if todo == [] then s.(pc := Idle)
      else if s.chans[todo[0]].slot.None? then WithSlot(s, todo[0], Some(k)).(pc := Sending(todo[1..]))
      else s.(pc := Draining(todo))
    case Draining(todo) => WithSlot(s, todo[0], None).(pc := Resending(todo))
    case Resending(todo) => WithSlot(s, todo[0], Some(k)).(pc := Sending(todo[1..]))
  }

  function Taken(c: Chan): Chan
    requires c.slot.Some?
  {
    c.(got := c.got + [c.slot.value], slot := None)
  }

  ghost function Apply(valid: Config -> bool, s: Sys, step: Step): Sys
    requires Enabled(s, step) && (step.Producer? ==> |s.log| > 0)
  {
    match step
    case Event(ev) =>
      if Accepted(ev, valid) then s.(value := ev.config.value, log := s.log + [ev.config.value], pc := Stored) else s
    case Producer => Produced(s)
    case Subscribe(l) =>
      s.(listeners := s.listeners + [l],
         chans := s.chans[l := Chan([], None, if s.pc.Stored? && |s.log| > 0 then |s.log| - 1 else |s.log|)])
    case Receive(l) => s.(chans := s.chans[l := Taken(s.chans[l])])
  }

  // ------------------------------------------------------------------ invariant

  ghost predicate Increasing(s: seq<nat>) {
    forall i, j :: 0 <= i < j < |s| ==> s[i] < s[j]
  }

  ghost predicate AllBelow(s: seq<nat>, n: nat) {
    forall i :: 0 <= i < |s| ==> s[i] < n
  }

  /** The newest is in the slot or was the last one received. */
  predicate Newest(c: Chan, k: nat) {
    if c.slot.Some? then c.slot.value == k else c.got != [] && c.got[|c.got| - 1] == k
  }

  /** What the listener has received, then what waits for it, are some of the first n configs, in order. */
  ghost predicate InOrder(c: Chan, n: nat) {
    && c.joined <= n && Increasing(c.got)
    && (if c.slot.Some? then c.slot.value < n && AllBelow(c.got, c.slot.value) else AllBelow(c.got, n))
  }

  /** All n configs were sent: the last of them is there, or was received. */
  ghost predicate UpToDate(c: Chan, n: nat) {
    InOrder(c, n) && (c.joined < n ==> Newest(c, n - 1))
  }

  /** How many configs listener l has been sent: the current one counts once its turn is over. */
  function SentTo(s: Sys, l: Listener): nat {
    if s.pc.Stored? || l in Todo(s.pc) then (if |s.log| > 0 then |s.log| - 1 else 0) else |s.log|
  }

  /** The listener whose full slot is being replaced. */
  predicate InTurn(s: Sys, l: Listener) {
    (s.pc.Draining? || s.pc.Resending?) && s.pc.todo != [] && s.pc.todo[0] == l
  }

  ghost predicate ChanInv(s: Sys, l: Listener, c: Chan) {
    if InTurn(s, l) then InOrder(c, SentTo(s, l)) && (s.pc.Resending? ==> c.slot.None?)
    else UpToDate(c, SentTo(s, l))
  }

  ghost predicate PcInv(s: Sys) {
    && (!s.pc.Idle? ==> |s.log| > 0)
    && (s.pc.Draining? || s.pc.Resending? ==> s.pc.todo != [])
    && Distinct(Todo(s.pc)) && (forall l :: l in Todo(s.pc) ==> l in s.chans)
    && (Locked(s.pc) ==> forall l :: l in s.chans ==> s.chans[l].joined < |s.log|)
  }

  ghost predicate ChansInv(s: Sys) {
    forall l :: l in s.chans ==> ChanInv(s, l, s.chans[l])
  }

  ghost predicate LogInv(valid: Config -> bool, s: Sys) {
    && Distinct(s.listeners) && (forall l :: l in s.listeners <==> l in s.chans)
    && valid(s.value) && (forall i :: 0 <= i < |s.log| ==> valid(s.log[i]))
    && (|s.log| > 0 ==> s.value == s.log[|s.log| - 1])
  }

  ghost predicate Inv(valid: Config -> bool, s: Sys) {
    PcInv(s) && ChansInv(s) && LogInv(valid, s)
  }

  lemma ReceiveKeeps(c: Chan, n: nat)
    requires c.slot.Some?
    ensures InOrder(c, n) ==> InOrder(Taken(c), n)
    ensures UpToDate(c, n) ==> UpToDate(Taken(c), n)
  {}

  /** A send into an empty slot makes the listener up to date. */
  lemma SendUpToDate(c: Chan, n: nat)
    requires InOrder(c, n) && c.slot.None?
    ensures UpToDate(c.(slot := Some(n)), n + 1)
  {}

  lemma DrainInOrder(c: Chan, n: nat)
    requires InOrder(c, n)
    ensures InOrder(c.(slot := None), n)
  {}

  lemma ReceiveChans(s: Sys, l: Listener)
    requires ChansInv(s) && l in s.chans && s.chans[l].slot.Some?
    ensures ChansInv(s.(chans := s.chans[l := Taken(s.chans[l])]))
  {
    var u := s.(chans := s.chans[l := Taken(s.chans[l])]);
    ReceiveKeeps(s.chans[l], SentTo(s, l));
    forall x | x in u.chans ensures ChanInv(u, x, u.chans[x]) {
      assert ChanInv(s, x, s.chans[x]) && SentTo(u, x) == SentTo(s, x);
    }
  }

  lemma ReceiveStep(valid: Config -> bool, s: Sys, l: Listener)
    requires Inv(valid, s) && Enabled(s, Receive(l))
    ensures Inv(valid, Apply(valid, s, Receive(l)))
  {
    ReceiveChans(s, l);
  }

  lemma SubscribeStep(valid: Config -> bool, s: Sys, l: Listener)
    requires Inv(valid, s) && Enabled(s, Subscribe(l))
    ensures Inv(valid, Apply(valid, s, Subscribe(l)))
  {
    var u := Apply(valid, s, Subscribe(l));
    forall x | x in u.chans ensures ChanInv(u, x, u.chans[x]) {
      if x != l { assert ChanInv(s, x, s.chans[x]); }
    }
  }

  lemma EventStep(valid: Config -> bool, s: Sys, ev: Reload)
    requires Inv(valid, s) && Enabled(s, Event(ev))
    ensures Inv(valid, Apply(valid, s, Event(ev)))
  {
    var u := Apply(valid, s, Event(ev));
    forall x | x in u.chans ensures ChanInv(u, x, u.chans[x]) { assert ChanInv(s, x, s.chans[x]); }
  }

  /** The steps that only move: take the lock, find a full slot, return. */
  lemma MoveStep(valid: Config -> bool, s: Sys)
    requires Inv(valid, s) && Enabled(s, Producer)
    requires s.pc.Stored? || (s.pc.Sending? && (s.pc.todo == [] || s.chans[s.pc.todo[0]].slot.Some?))
    ensures Inv(valid, Produced(s))
  {
    var u := Produced(s);
    forall x | x in u.chans ensures ChanInv(u, x, u.chans[x]) { assert ChanInv(s, x, s.chans[x]); }
  }

  lemma DrainStep(valid: Config -> bool, s: Sys)
    requires Inv(valid, s) && Enabled(s, Producer) && s.pc.Draining?
    ensures Inv(valid, Produced(s))
  {
    var u, l := Produced(s), s.pc.todo[0];
    assert ChanInv(s, l, s.chans[l]);
    DrainInOrder(s.chans[l], |s.log| - 1);
    forall x | x in u.chans ensures ChanInv(u, x, u.chans[x]) { assert ChanInv(s, x, s.chans[x]); }
  }

  lemma SendChans(s: Sys)
    requires PcInv(s) && ChansInv(s) && (s.pc.Sending? || s.pc.Resending?)
    requires s.pc.todo != [] && s.chans[s.pc.todo[0]].slot.None?
    ensures ChansInv(WithSlot(s, s.pc.todo[0], Some(|s.log| - 1)).(pc := Sending(s.pc.todo[1..])))
  {
    var todo := s.pc.todo;
    var l := todo[0];
    var u := WithSlot(s, l, Some(|s.log| - 1)).(pc := Sending(todo[1..]));
    assert todo == [l] + todo[1..] && l !in todo[1..];
    assert InOrder(s.chans[l], |s.log| - 1) by { assert ChanInv(s, l, s.chans[l]); }
    SendUpToDate(s.chans[l], |s.log| - 1);
    forall x | x in u.chans ensures ChanInv(u, x, u.chans[x]) {
      if x != l { assert ChanInv(s, x, s.chans[x]) && SentTo(u, x) == SentTo(s, x); }
    }
  }

  lemma SendStep(valid: Config -> bool, s: Sys)
    requires Inv(valid, s) && Enabled(s, Producer) && (s.pc.Sending? || s.pc.Resending?)
    requires s.pc.todo != [] && s.chans[s.pc.todo[0]].slot.None?
    ensures Inv(valid, Produced(s))
  {
    SendPc(s);
    SendChans(s);
  }

  lemma SendPc(s: Sys)
    requires PcInv(s) && (s.pc.Sending? || s.pc.Resending?) && s.pc.todo != []
    ensures PcInv(WithSlot(s, s.pc.todo[0], Some(|s.log| - 1)).(pc := Sending(s.pc.todo[1..])))
  {
    assert s.pc.todo == [s.pc.todo[0]] + s.pc.todo[1..];
  }

  lemma ProducerStep(valid: Config -> bool, s: Sys)
    requires Inv(valid, s) && Enabled(s, Producer)
    ensures Inv(valid, Produced(s))
  {
    if s.pc.Draining? { DrainStep(valid, s); }
    else if Locked(s.pc) && s.pc.todo != [] && s.chans[s.pc.todo[0]].slot.None? { SendStep(valid, s); }
    else { MoveStep(valid, s); }
  }

  // ------------------------------------------------------------------------- runs

  ghost predicate IsRun(valid: Config -> bool, states: seq<Sys>, steps: seq<Step>) {
    && |states| == |steps| + 1
    && valid(states[0].value) && states[0] == Sys(states[0].value, [], [], map[], Idle)
    && forall i :: 0 <= i < |steps| ==>
         Enabled(states[i], steps[i]) && (steps[i].Producer? ==> |states[i].log| > 0)
         && states[i + 1] == Apply(valid, states[i], steps[i])
  }

  lemma {:induction false} RunInv(valid: Config -> bool, states: seq<Sys>, steps: seq<Step>, n: nat)
    requires IsRun(valid, states, steps) && n <= |steps|
    ensures Inv(valid, states[n])
  {
    if n > 0 {
      RunInv(valid, states, steps, n - 1);
      var s := states[n - 1];
      match steps[n - 1]
      case Event(ev) => EventStep(valid, s, ev);
      case Producer => ProducerStep(valid, s);
      case Subscribe(l) => SubscribeStep(valid, s, l);
      case Receive(l) => ReceiveStep(valid, s, l);
    }
  }

  /** `replace` never blocks: whenever it is under way its next step can be taken. */
  lemma ReplaceNeverBlocks(valid: Config -> bool, states: seq<Sys>, steps: seq<Step>, n: nat)
    requires IsRun(valid, states, steps) && n <= |steps| && !states[n].pc.Idle?
    ensures Enabled(states[n], Producer) && |states[n].log| > 0
  {
    RunInv(valid, states, steps, n);
    var s := states[n];
    if s.pc.Resending? { assert ChanInv(s, s.pc.todo[0], s.chans[s.pc.todo[0]]); }
  }

  /** Steps `replace` still has to take once it holds the lock. */
  function Work(pc: PC): nat {
    match pc
    case Idle => 0
    case Stored => 0
    case Sending(todo) => 3 * |todo| + 1
    case Draining(todo) => 3 * |todo|
    case Resending(todo) => 3 * |todo| - (if todo == [] then 0 else 1)
  }

  /** Its own steps lower that number, and nobody else's steps change it. */
  lemma WorkShrinks(valid: Config -> bool, s: Sys, step: Step)
    requires Inv(valid, s) && Locked(s.pc) && Enabled(s, step)
    ensures var u := Apply(valid, s, step);
            if step.Producer? then Work(u.pc) < Work(s.pc) && (Locked(u.pc) || u.pc.Idle?) else u.pc == s.pc
  {}

  /** The steps of `replace` among the steps from i up to j. */
  function ProducerSteps(steps: seq<Step>, i: nat, j: nat): nat
    requires i <= j <= |steps|
  {
    if i == j then 0 else ProducerSteps(steps, i, j - 1) + (if steps[j - 1].Producer? then 1 else 0)
  }

  ghost predicate LockedFrom(states: seq<Sys>, i: nat, j: nat)
    requires i <= j <= |states|
  {
    forall k :: i <= k < j ==> Locked(states[k].pc)
  }

  lemma WorkNext(valid: Config -> bool, states: seq<Sys>, steps: seq<Step>, k: nat)
    requires IsRun(valid, states, steps) && k < |steps| && Locked(states[k].pc)
    ensures Locked(states[k + 1].pc) || states[k + 1].pc.Idle?
    ensures (if steps[k].Producer? then 1 else 0) + Work(states[k + 1].pc) <= Work(states[k].pc)
  {
    RunInv(valid, states, steps, k);
    WorkShrinks(valid, states[k], steps[k]);
  }

  /** Once `replace` holds the lock, whatever listeners do in between, each of its own steps uses up one of the
      at most three per listener and one that are left: it returns. */
  lemma {:induction false} ReplaceReturns(valid: Config -> bool, states: seq<Sys>, steps: seq<Step>, i: nat, j: nat)
    requires IsRun(valid, states, steps) && i <= j <= |steps| && LockedFrom(states, i, j)
    requires Locked(states[i].pc)
    ensures ProducerSteps(steps, i, j) + Work(states[j].pc) <= Work(states[i].pc)
    ensures Locked(states[j].pc) || states[j].pc.Idle?
  {
    if i < j {
      var k := j - 1;
      ReplaceReturns(valid, states, steps, i, k);
      WorkNext(valid, states, steps, k);
    }
  }

  /** When `replace` has returned, every listener that had joined holds the newest config or has received it. */
  lemma NewestDelivered(valid: Config -> bool, states: seq<Sys>, steps: seq<Step>, n: nat, l: Listener)
    requires IsRun(valid, states, steps) && n <= |steps| && states[n].pc.Idle? && l in states[n].chans
    requires states[n].chans[l].joined < |states[n].log|
    ensures Newest(states[n].chans[l], |states[n].log| - 1) && states[n].value == states[n].log[|states[n].log| - 1]
  {
    RunInv(valid, states, steps, n);
    assert ChanInv(states[n], l, states[n].chans[l]);
  }

  /** What a listener receives is an in-order subsequence of the replaced configs, all of them validated. */
  lemma ReceivedInOrder(valid: Config -> bool, states: seq<Sys>, steps: seq<Step>, n: nat, l: Listener)
    requires IsRun(valid, states, steps) && n <= |steps| && l in states[n].chans
    ensures var got := states[n].chans[l].got;
            Increasing(got) && forall i :: 0 <= i < |got| ==> got[i] < |states[n].log| && valid(states[n].log[got[i]])
    ensures valid(states[n].value)
  {
    RunInv(valid, states, steps, n);
    var c := states[n].chans[l];
    assert ChanInv(states[n], l, c);
    assert AllBelow(c.got, |states[n].log|);
  }
}
