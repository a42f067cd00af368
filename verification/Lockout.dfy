/** The account lockout: a failure counter and an until-key per account, both with expiry. */
module Lockout {
  import opened Basics

  const DEFAULT_THRESHOLD := 5
  const DEFAULT_DURATION := 15 * 60 * SECOND

  datatype Counter = Counter(n: nat, until: Option<nat>)      // no expiry if EXPIRE failed
  datatype Until = Until(second: nat, expires: nat)

  /** What reached the store: a failure (whether the counter's first EXPIRE and the until-key's SET
      went through), or a reset. */
  datatype Event = Failed(at: nat, anchored: bool, noted: bool) | Cleared(at: nat)

  datatype Fault = IncrFailed | ExpireFailed | SetFailed | GetFailed | DelFailed

  // ------------------------------------------------------------------ specification

  /** The counter started by `first` has expired. */
  predicate Faded(first: Event, now: nat, duration: nat) {
    first.Failed? && first.anchored && now >= first.at + 2 * duration
  }

  /** Where the current streak starts among the first n events. */
  function StreakStart(e: seq<Event>, duration: nat, n: nat): (s: nat)
    requires n <= |e|
    ensures s <= n
  {
    if n == 0 then 0
    else if e[n - 1].Cleared? then n
    else
      var s := StreakStart(e, duration, n - 1);
      if s < n - 1 && Faded(e[s], e[n - 1].at, duration) then n - 1 else s
  }

  function Streak(e: seq<Event>, duration: nat, n: nat): nat
    requires n <= |e|
  {
    n - StreakStart(e, duration, n)
  }

  datatype Rule = Rule(threshold: nat, duration: nat)

  /** Failure k locked the account. */
  predicate Locks(e: seq<Event>, rule: Rule, k: nat)
    requires k < |e|
  {
    e[k].Failed? && e[k].noted && Streak(e, rule.duration, k + 1) >= rule.threshold
  }

  ghost predicate NotCleared(e: seq<Event>, k: nat, n: nat)
    requires n <= |e|
  {
    forall i :: k <= i < n ==> e[i].Failed?
  }

  predicate Before(now: nat, at: nat, duration: nat) {
    now / SECOND < (at + duration) / SECOND
  }

  /** Some failure since the last reset locked the account until after `now`. */
  ghost predicate Locked(e: seq<Event>, rule: Rule, now: nat) {
    exists k :: 0 <= k < |e| && Locks(e, rule, k) && NotCleared(e, k, |e|) && Before(now, e[k].at, rule.duration)
  }

  ghost predicate InTimeOrder(e: seq<Event>) {
    forall i, j :: 0 <= i < j < |e| ==> e[i].at <= e[j].at
  }

  // ------------------------------------------------------------------------ lemmas

  /** A streak is an unbroken row of failures within the counter's life; it starts after a reset, or
      after the counter of the streak before had expired. */
  lemma {:induction false} StreakMeaning(e: seq<Event>, duration: nat, n: nat)
    requires n <= |e|
    ensures var s := StreakStart(e, duration, n);
            && (forall i :: s <= i < n ==> e[i].Failed? && (i > s ==> !Faded(e[s], e[i].at, duration)))
            && (s == 0 || e[s - 1].Cleared? ||
                (s < n && var p := StreakStart(e, duration, s); p < s && Faded(e[p], e[s].at, duration)))
  {
    if n > 0 {
      StreakMeaning(e, duration, n - 1);
    }
  }

  lemma {:induction false} StreakAppend(e: seq<Event>, x: Event, duration: nat, n: nat)
    requires n <= |e|
    ensures StreakStart(e + [x], duration, n) == StreakStart(e, duration, n)
  {
    if n > 0 { StreakAppend(e, x, duration, n - 1); }
  }

  lemma LocksAppend(e: seq<Event>, x: Event, rule: Rule, k: nat)
    requires k < |e|
    ensures Locks(e + [x], rule, k) <==> Locks(e, rule, k)
  {
    StreakAppend(e, x, rule.duration, k + 1);
  }

  /** The latest failure since the last reset that locked the account. */
  function LastLock(e: seq<Event>, rule: Rule, n: nat): (k: Option<nat>)
    requires n <= |e|
    ensures k.Some? ==> k.value < n
  {
    if n == 0 || e[n - 1].Cleared? then None
    else if Locks(e, rule, n - 1) then Some(n - 1)
    else LastLock(e, rule, n - 1)
  }

  lemma {:induction false} LastLockAppend(e: seq<Event>, x: Event, rule: Rule, n: nat)
    requires n <= |e|
    ensures LastLock(e + [x], rule, n) == LastLock(e, rule, n)
  {
    if n > 0 {
      LocksAppend(e, x, rule, n - 1);
      LastLockAppend(e, x, rule, n - 1);
    }
  }

  lemma {:induction false} LastLockMeaning(e: seq<Event>, rule: Rule, n: nat)
    requires n <= |e|
    ensures var last := LastLock(e, rule, n);
            && (last.Some? ==> Locks(e, rule, last.value) && NotCleared(e, last.value, n))
            && (forall k :: 0 <= k < n && Locks(e, rule, k) && NotCleared(e, k, n) ==> last.Some? && k <= last.value)
  {
    if n > 0 {
      LastLockMeaning(e, rule, n - 1);
      forall k | 0 <= k < n && Locks(e, rule, k) && NotCleared(e, k, n)
        ensures LastLock(e, rule, n).Some? && k <= LastLock(e, rule, n).value
      {
        assert e[n - 1].Failed?;
        if k < n - 1 { assert NotCleared(e, k, n - 1); }
      }
    }
  }

  lemma BeforeMonotone(now: nat, x: nat, y: nat, duration: nat)
    requires x <= y && Before(now, x, duration)
    ensures Before(now, y, duration) && now < x + duration
  {}

  /** The latest locking failure decides. */
  lemma LockedByLast(e: seq<Event>, rule: Rule, now: nat)
    requires InTimeOrder(e)
    ensures var last := LastLock(e, rule, |e|);
            Locked(e, rule, now) <==> last.Some? && Before(now, e[last.value].at, rule.duration)
  {
    LastLockMeaning(e, rule, |e|);
    var last := LastLock(e, rule, |e|);
    if k :| 0 <= k < |e| && Locks(e, rule, k) && NotCleared(e, k, |e|) && Before(now, e[k].at, rule.duration) {
      BeforeMonotone(now, e[k].at, e[last.value].at, rule.duration);
    }
  }

  /** A lock holds through its whole second-rounded term, whatever failures follow; only a reset ends it. */
  lemma {:induction false} StaysLocked(e: seq<Event>, more: seq<Event>, rule: Rule, now: nat)
    requires Locked(e, rule, now) && NotCleared(more, 0, |more|)
    ensures Locked(e + more, rule, now)
    decreases |more|
  {
    if more == [] {
      assert e + more == e;
    } else {
      var x, rest := more[0], more[1..];
      assert e + more == (e + [x]) + rest;
      LockedAppend(e, x, rule, now);
      StaysLocked(e + [x], rest, rule, now);
    }
  }

  lemma LockedAppend(e: seq<Event>, x: Event, rule: Rule, now: nat)
    requires Locked(e, rule, now) && x.Failed?
    ensures Locked(e + [x], rule, now)
  {
    var k :| 0 <= k < |e| && Locks(e, rule, k) && NotCleared(e, k, |e|) && Before(now, e[k].at, rule.duration);
    LocksAppend(e, x, rule, k);
    assert NotCleared(e + [x], k, |e + [x]|);
  }

  /** A failure that reaches the threshold locks until the second in which its term ends. */
  lemma JustLocked(e: seq<Event>, rule: Rule, later: nat)
    requires |e| > 0 && Locks(e, rule, |e| - 1) && Before(later, e[|e| - 1].at, rule.duration)
    ensures Locked(e, rule, later)
  {
    assert NotCleared(e, |e| - 1, |e|);
  }

  /** A reset unlocks. */
  lemma ClearedUnlocks(e: seq<Event>, at: nat, rule: Rule, now: nat)
    ensures !Locked(e + [Cleared(at)], rule, now) && Streak(e + [Cleared(at)], rule.duration, |e| + 1) == 0
  {
    assert (e + [Cleared(at)])[|e|].Cleared?;
  }

  // ------------------------------------------------------------------ the two keys

  /** The two keys as the events so far determine them. */
  function CounterOf(e: seq<Event>, duration: nat): Option<Counter> {
    var s := StreakStart(e, duration, |e|);
    if s == |e| || e[s].Cleared? then None
    else Some(Counter(|e| - s, if e[s].anchored then Some(e[s].at + 2 * duration) else None))
  }

  function UntilOf(e: seq<Event>, rule: Rule): Option<Until> {
    var k := LastLock(e, rule, |e|);
    if k.None? then None
    else Some(Until((e[k.value].at + rule.duration) / SECOND, e[k.value].at + rule.duration))
  }

  /** INCR: an expired counter counts as absent, and a new one has no expiry yet. */
  function Incremented(counter: Option<Counter>, now: nat): Counter {
    if counter.Some? && (counter.value.until.None? || now < counter.value.until.value)
    then counter.value.(n := counter.value.n + 1)
    else Counter(1, None)
  }

  lemma CounterStep(e: seq<Event>, x: Event, duration: nat)
    requires x.Failed?
    ensures var c := Incremented(CounterOf(e, duration), x.at);
            CounterOf(e + [x], duration) ==
              Some(if c.n == 1 && x.anchored then c.(until := Some(x.at + 2 * duration)) else c)
    ensures Streak(e + [x], duration, |e| + 1) == Incremented(CounterOf(e, duration), x.at).n
  {
    StreakAppend(e, x, duration, |e|);
    StreakMeaning(e, duration, |e|);
  }

  lemma UntilStep(e: seq<Event>, x: Event, rule: Rule)
    requires x.Failed?
    ensures UntilOf(e + [x], rule) ==
            if x.noted && Streak(e + [x], rule.duration, |e| + 1) >= rule.threshold
            then Some(Until((x.at + rule.duration) / SECOND, x.at + rule.duration))
            else UntilOf(e, rule)
  {
    LastLockAppend(e, x, rule, |e|);
  }

  function Lookup<K, V>(m: map<K, V>, k: K): Option<V> {
    if k in m then Some(m[k]) else None
  }

  ghost predicate KeysInv(e: seq<Event>, counter: Option<Counter>, until: Option<Until>, rule: Rule, clock: nat) {
    && InTimeOrder(e) && (forall i :: 0 <= i < |e| ==> e[i].at <= clock)
    && counter == CounterOf(e, rule.duration) && until == UntilOf(e, rule)
  }

  function NewCounter(counter: Option<Counter>, now: nat, anchors: bool, duration: nat): Counter {
    var c := Incremented(counter, now);
    if c.n == 1 && anchors then c.(until := Some(now + 2 * duration)) else c
  }

  function NewUntil(now: nat, duration: nat): Until {
    Until((now + duration) / SECOND, now + duration)
  }

  lemma FailureKeeps(e: seq<Event>, counter: Option<Counter>, until: Option<Until>, rule: Rule, clock: nat, x: Event)
    requires KeysInv(e, counter, until, rule, clock) && clock <= x.at && x.Failed?
    ensures var c := NewCounter(counter, x.at, x.anchored, rule.duration);
            && Streak(e + [x], rule.duration, |e| + 1) == c.n
            && KeysInv(e + [x], Some(c),
                       if x.noted && c.n >= rule.threshold then Some(NewUntil(x.at, rule.duration)) else until,
                       rule, x.at)
  {
    CounterStep(e, x, rule.duration);
    UntilStep(e, x, rule);
  }

  lemma ResetKeeps(e: seq<Event>, counter: Option<Counter>, until: Option<Until>, rule: Rule, clock: nat, now: nat)
    requires KeysInv(e, counter, until, rule, clock) && clock <= now
    ensures KeysInv(e + [Cleared(now)], None, None, rule, now)
  {}

  // ------------------------------------------------------------------- all accounts

  function EventsOf(events: map<User, seq<Event>>, user: User): seq<Event> {
    if user in events then events[user] else []
  }

  ghost predicate UserKeys(events: map<User, seq<Event>>, fails: map<User, Counter>, untils: map<User, Until>,
                           rule: Rule, clock: nat, user: User)
  {
    KeysInv(EventsOf(events, user), Lookup(fails, user), Lookup(untils, user), rule, clock)
  }

  ghost predicate AllKeys(events: map<User, seq<Event>>, fails: map<User, Counter>, untils: map<User, Until>,
                          rule: Rule, clock: nat)
  {
    forall user :: UserKeys(events, fails, untils, rule, clock, user)
  }

  /** Time passes. */
  lemma Later(events: map<User, seq<Event>>, fails: map<User, Counter>, untils: map<User, Until>,
              rule: Rule, clock: nat, now: nat)
    requires AllKeys(events, fails, untils, rule, clock) && clock <= now
    ensures AllKeys(events, fails, untils, rule, now)
  {
    forall user ensures UserKeys(events, fails, untils, rule, now, user) {
      assert UserKeys(events, fails, untils, rule, clock, user);
    }
  }

  /** A failure of one account touches no other. */
  lemma FailureKeepsAll(events: map<User, seq<Event>>, fails: map<User, Counter>, untils: map<User, Until>,
                        rule: Rule, clock: nat, user: User, x: Event)
    requires AllKeys(events, fails, untils, rule, clock) && clock <= x.at && x.Failed?
    ensures var e := EventsOf(events, user) + [x];
            var c := NewCounter(Lookup(fails, user), x.at, x.anchored, rule.duration);
            && Streak(e, rule.duration, |e|) == c.n
            && AllKeys(events[user := e], fails[user := c],
                       if x.noted && c.n >= rule.threshold then untils[user := NewUntil(x.at, rule.duration)]
                       else untils,
                       rule, x.at)
  {
    var e := EventsOf(events, user) + [x];
    var c := NewCounter(Lookup(fails, user), x.at, x.anchored, rule.duration);
    var u := if x.noted && c.n >= rule.threshold then untils[user := NewUntil(x.at, rule.duration)] else untils;
    assert UserKeys(events, fails, untils, rule, clock, user);
    FailureKeeps(EventsOf(events, user), Lookup(fails, user), Lookup(untils, user), rule, clock, x);
    var es, fs := events[user := e], fails[user := c];
    forall other ensures UserKeys(es, fs, u, rule, x.at, other) {
      assert UserKeys(events, fails, untils, rule, clock, other);
    }
  }

  lemma ResetKeepsAll(events: map<User, seq<Event>>, fails: map<User, Counter>, untils: map<User, Until>,
                      rule: Rule, clock: nat, user: User, now: nat)
    requires AllKeys(events, fails, untils, rule, clock) && clock <= now
    ensures AllKeys(events[user := EventsOf(events, user) + [Cleared(now)]], fails - {user}, untils - {user}, rule, now)
  {
    var e := EventsOf(events, user) + [Cleared(now)];
    assert UserKeys(events, fails, untils, rule, clock, user);
    ResetKeeps(EventsOf(events, user), Lookup(fails, user), Lookup(untils, user), rule, clock, now);
    var es, fs, us := events[user := e], fails - {user}, untils - {user};
    forall other ensures UserKeys(es, fs, us, rule, now, other) {
      assert UserKeys(events, fails, untils, rule, clock, other);
    }
  }

  class LockoutRedis {
    const rule: Rule
    var fails: map<User, Counter>
    var untils: map<User, Until>
    ghost var events: map<User, seq<Event>>   // what reached the store
    ghost var clock: nat

    ghost function Events(user: User): seq<Event>
      reads this
    {
      EventsOf(events, user)
    }

    ghost predicate Valid()
      reads this
    {
      AllKeys(events, fails, untils, rule, clock)
    }

    constructor (threshold: int, duration: int)
      ensures Valid() && events == map[] && clock == 0
      ensures rule == Rule(if threshold <= 0 then DEFAULT_THRESHOLD else threshold,
                           if duration <= 0 then DEFAULT_DURATION else duration)
    {
      rule := Rule(if threshold <= 0 then DEFAULT_THRESHOLD else threshold,
                   if duration <= 0 then DEFAULT_DURATION else duration);
      fails, untils, events, clock := map[], map[], map[], 0;
    }

    /** Locked exactly when some failure since the last reset locked the account past `now`; the
        until-key's own expiry never changes the answer. */
    method IsLocked(user: User, now: nat, fault: bool) returns (r: Result<bool, Fault>)
      requires Valid() && clock <= now
      ensures r == if fault then Failure(GetFailed) else Success(Locked(Events(user), rule, now))
    {
      if fault {
        return Failure(GetFailed);
      }
      assert UserKeys(events, fails, untils, rule, clock, user);
      LockedByLast(Events(user), rule, now);
      if user in untils && now < untils[user].expires {
        r := Success(now / SECOND < untils[user].second);
      } else {
        r := Success(false);
      }
    }

    /** INCR, EXPIRE on the first failure unless it fails, SET at the threshold unless it fails. */
    method Record(user: User, now: nat, anchors: bool, notes: bool) returns (n: nat)
      requires Valid() && clock <= now
      modifies this
      ensures Valid() && clock == now
                && events == old(events)[user := old(Events(user)) + [Failed(now, anchors, notes)]]
      ensures n == old(Incremented(Lookup(fails, user), now)).n == Streak(Events(user), rule.duration, |Events(user)|)
    {
      ghost var x := Failed(now, anchors, notes);
      FailureKeepsAll(events, fails, untils, rule, clock, user, x);
      var c := NewCounter(Lookup(fails, user), now, anchors, rule.duration);
      n := c.n;
      fails := fails[user := c];
      if notes && n >= rule.threshold {
        untils := untils[user := NewUntil(now, rule.duration)];
      }
      events := events[user := Events(user) + [x]];
      clock := now;
    }

    /** Reports a lock exactly when the streak, with this failure, has reached the threshold. */
    method RegisterFailure(user: User, now: nat, fault: Option<Fault>) returns (r: Result<bool, Fault>)
      requires Valid() && clock <= now
      modifies this
      ensures Valid() && clock == if fault == Some(IncrFailed) then old(clock) else now
      ensures fault == Some(IncrFailed) ==> r == Failure(IncrFailed) && events == old(events)
      ensures fault != Some(IncrFailed) ==>
                exists x: Event :: x.Failed? && x.at == now && events == old(events)[user := old(Events(user)) + [x]]
      ensures r.Success? ==>
                var e := Events(user);
                |e| > 0 && e[|e| - 1] == Failed(now, true, true) &&
                r.value == (Streak(e, rule.duration, |e|) >= rule.threshold)
      ensures fault.None? ==> r.Success?
      ensures r == Success(true) ==> forall later :: Before(later, now, rule.duration) ==>
                Locked(Events(user), rule, later)
    {
      if fault == Some(IncrFailed) {
        return Failure(IncrFailed);
      }
      var n := Incremented(Lookup(fails, user), now).n;
      var anchors := !(n == 1 && fault == Some(ExpireFailed));
      var notes := anchors && !(n >= rule.threshold && fault == Some(SetFailed));
      n := Record(user, now, anchors, notes);
      assert Failed(now, anchors, notes).at == now;
      r := if !anchors then Failure(ExpireFailed)
           else if n < rule.threshold then Success(false)
           else if !notes then Failure(SetFailed)
           else Success(true);
      if r == Success(true) {
        forall later | Before(later, now, rule.duration) ensures Locked(Events(user), rule, later) {
          JustLocked(Events(user), rule, later);
        }
      }
    }

    method Reset(user: User, now: nat, fault: bool) returns (r: Result<bool, Fault>)
      requires Valid() && clock <= now
      modifies this
      ensures Valid() && clock == now
      ensures fault ==> r == Failure(DelFailed) && events == old(events)
      ensures !fault ==> r == Success(true) && events == old(events)[user := old(Events(user)) + [Cleared(now)]]
      ensures !fault ==> forall later :: !Locked(Events(user), rule, later)
    {
      if fault {
        Later(events, fails, untils, rule, clock, now);
        clock := now;
        return Failure(DelFailed);
      }
      ResetKeepsAll(events, fails, untils, rule, clock, user, now);
      forall later ensures !Locked(Events(user) + [Cleared(now)], rule, later) {
        ClearedUnlocks(Events(user), now, rule, later);
      }
      fails := fails - {user};
      untils := untils - {user};
      events := events[user := Events(user) + [Cleared(now)]];
      clock := now;
      r := Success(true);
    }
  }
}
