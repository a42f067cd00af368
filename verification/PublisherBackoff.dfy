/**
  The in-process retry adapter: capped exponential backoff with full jitter over
  64-bit durations, and the retry loop around one upstream publisher.
 */
module PublisherBackoff {
  import opened Basics

  const TWO_62: int := 0x4000_0000_0000_0000
  const TWO_63: int := 0x8000_0000_0000_0000
  const TWO_64: int := 0x1_0000_0000_0000_0000

  type Duration = x: int | -TWO_63 <= x < TWO_63

  /** int64 arithmetic: the value modulo 2^64, read as two's complement. */
  function Wrap64(x: int): Duration {
    var m := x % TWO_64;
    if m < TWO_63 then m else m - TWO_64
  }

  function Pow2(n: nat): (r: nat)
    ensures r >= 1
  {
    if n == 0 then 1 else 2 * Pow2(n - 1)
  }

  function Min(a: int, b: int): int {
    if a <= b then a else b
  }

  /** The backoff loop run for `rounds` rounds from `base`. */
  function Doubled(base: Duration, max: Duration, rounds: nat): Duration
    decreases rounds
  {
    if rounds == 0 then base
    else
      var next := Wrap64(base * 2);
      if next >= max then max else Doubled(next, max, rounds - 1)
  }

  method BackoffBase(initial: Duration, max: Duration, attempt: int) returns (base: Duration)
    ensures base == Doubled(initial, max, if attempt <= 1 then 0 else attempt - 1)
  {
    base := initial;
    var i := 1;
    while i < attempt
      invariant 1 <= i && (i <= attempt || attempt < 1)
      invariant Doubled(base, max, if attempt <= i then 0 else attempt - i)
             == Doubled(initial, max, if attempt <= 1 then 0 else attempt - 1)
    {
      base := Wrap64(base * 2);
      if base >= max {
        base := max;
        break;
      }
      i := i + 1;
    }
  }

  lemma PowStep(b: nat, n: nat)
    requires n > 0
    ensures b * Pow2(n) == 2 * b * Pow2(n - 1)
    ensures b * Pow2(n) >= 2 * b
  {
    calc {
      b * Pow2(n);
    ==
      b * (2 * Pow2(n - 1));
    ==
      2 * b * Pow2(n - 1);
    >= { MulAtLeast(2 * b, Pow2(n - 1)); }
      2 * b;
    }
  }

  lemma MulAtLeast(a: nat, k: nat)
    requires k >= 1
    ensures a * k >= a
  {}

  /** After k doublings the base is still below the cap, but the next doubling leaves int64. */
  predicate Overflows(initial: Duration, max: Duration, k: nat) {
    TWO_62 <= initial * Pow2(k) < max
  }

  /** No wait starts so high, or doubles so far without meeting the cap, that int64 overflows. */
  ghost predicate NoOverflow(initial: Duration, max: Duration) {
    initial < TWO_62 && forall k: nat :: !Overflows(initial, max, k)
  }

  lemma NoOverflowNext(base: Duration, max: Duration)
    requires 0 < base && base * 2 < max && NoOverflow(base, max)
    ensures NoOverflow(base * 2, max)
  {
    assert base * Pow2(1) == base * 2 && !Overflows(base, max, 1);
    forall k: nat ensures !Overflows(base * 2, max, k) {
      PowStep(base, k + 1);
      assert !Overflows(base, max, k + 1);
    }
  }

  /** Without overflow, the loop computes the capped power. */
  lemma {:induction false} DoublesUpToMax(base: Duration, max: Duration, rounds: nat)
    requires 0 < base <= max && NoOverflow(base, max)
    ensures Doubled(base, max, rounds) == Min(max, base * Pow2(rounds))
    decreases rounds
  {
    if rounds > 0 {
      PowStep(base, rounds);
      assert Wrap64(base * 2) == base * 2;
      if base * 2 < max {
        NoOverflowNext(base, max);
        DoublesUpToMax(base * 2, max, rounds - 1);
      }
    }
  }

  /** From the upper quarter of int64 the next doubling is negative, and so is the base after it. */
  lemma {:induction false} OverflowIsNegative(base: Duration, max: Duration, k: nat)
    requires 0 < base && 0 < max && (Overflows(base, max, k) || (k == 0 && base >= TWO_62))
    ensures Doubled(base, max, k + 1) < 0
    decreases k
  {
    if k == 0 {
      assert base * Pow2(0) == base;
      assert Wrap64(base * 2) == base * 2 - TWO_64;
      assert Doubled(Wrap64(base * 2), max, 0) == Wrap64(base * 2);
    } else {
      PowStep(base, k);
      assert Wrap64(base * 2) == base * 2;
      OverflowIsNegative(base * 2, max, k - 1);
    }
  }

  predicate Capped(initial: Duration, max: Duration, attempt: nat)
    requires attempt >= 1
  {
    Doubled(initial, max, attempt - 1) == Min(max, initial * Pow2(attempt - 1))
  }

  /** The wait before retry n is based on min(max, initial * 2^(n-1)), unless the first wait starts above the
      cap: the loop that applies the cap does not run for attempt 1. */
  lemma BackoffIsCapped(initial: Duration, max: Duration, attempt: nat)
    requires 0 < initial && 0 < max && NoOverflow(initial, max) && attempt >= 1
    ensures Capped(initial, max, attempt) <==> initial <= max || attempt >= 2
  {
    if attempt == 1 {
      assert initial * Pow2(0) == initial;
    } else if initial <= max {
      DoublesUpToMax(initial, max, attempt - 1);
    } else {
      PowStep(initial, attempt - 1);
      assert Wrap64(initial * 2) == initial * 2;
    }
  }

  ghost predicate AlwaysCapped(initial: Duration, max: Duration) {
    forall attempt: nat :: attempt >= 1 ==> Capped(initial, max, attempt)
  }

  /** Every wait has the documented base if and only if the first does not exceed the cap and doubling never
      overflows before the cap is met. */
  lemma AlwaysCappedIff(initial: Duration, max: Duration)
    requires 0 < initial && 0 < max
    ensures AlwaysCapped(initial, max) <==> initial <= max && NoOverflow(initial, max)
  {
    if initial <= max && NoOverflow(initial, max) {
      forall attempt: nat | attempt >= 1 ensures Capped(initial, max, attempt) {
        BackoffIsCapped(initial, max, attempt);
      }
    } else if initial > max {
      assert initial * Pow2(0) == initial && !Capped(initial, max, 1);
    } else {
      var k: nat := 0;
      if initial < TWO_62 { k :| Overflows(initial, max, k); }
      OverflowIsNegative(initial, max, k);
      assert !Capped(initial, max, k + 2);
    }
  }

  /** A cap of at most 2^62 rules overflow out. */
  lemma SmallCapIsSafe(initial: Duration, max: Duration)
    requires 0 < initial <= max <= TWO_62 && initial < TWO_62
    ensures AlwaysCapped(initial, max)
  {
    AlwaysCappedIff(initial, max);
  }

  method Backoff(initial: Duration, max: Duration, attempt: int, random: nat) returns (wait: nat)
    ensures var base := Doubled(initial, max, if attempt <= 1 then 0 else attempt - 1);
            if base <= 0 then wait == 0 else wait < base && wait == random % base
  {
    var base := BackoffBase(initial, max, attempt);
    if base <= 0 {
      return 0;
    }
    wait := random % base;
  }

  // ------------------------------------------------------------- the retry loop

  datatype Policy = Policy(maxAttempts: int, initial: Duration, max: Duration)

  const DEFAULT_POLICY := Policy(5, 50_000_000, 5_000_000_000)

  function WithMaxAttempts(p: Policy, n: int): Policy {
    if n > 0 then p.(maxAttempts := n) else p
  }

  function WithBackoff(p: Policy, initial: Duration, max: Duration): Policy {
    p.(initial := if initial > 0 then initial else p.initial, max := if max > 0 then max else p.max)
  }

  /** Whatever the options say, the adapter tries at least once and waits on positive bounds. */
  lemma OptionsKeepPositive(p: Policy, n: int, initial: Duration, max: Duration)
    requires p == DEFAULT_POLICY || (p.maxAttempts > 0 && p.initial > 0 && p.max > 0)
    ensures var q := WithBackoff(WithMaxAttempts(p, n), initial, max); q.maxAttempts > 0 && q.initial > 0 && q.max > 0
    ensures AlwaysCapped(DEFAULT_POLICY.initial, DEFAULT_POLICY.max)
  {
    SmallCapIsSafe(DEFAULT_POLICY.initial, DEFAULT_POLICY.max);
  }

  /** What the k-th upstream call, context check, wait and random draw answer. */
  datatype Env = Env(
    reply: nat -> Option<string>,
    cancelled: nat -> bool,          // ctx.Err() before attempt k
    interrupted: nat -> bool,        // ctx is done before the timer of wait k fires
    random: nat -> nat)

  datatype Outcome = Sent | Cancelled | Exhausted(lastError: string)

  /** The capped bases of the waits after the first n attempts, summed. */
  function BaseSum(p: Policy, n: nat): nat {
    if n == 0 then 0
    else
      var base := Doubled(p.initial, p.max, n - 1);
      BaseSum(p, n - 1) + (if base <= 0 then 0 else base)
  }

  ghost predicate AllFailed(env: Env, n: nat) {
    forall k :: 0 <= k < n ==> env.reply(k).Some?
  }

  /** `waits` is the number of waits begun and `waited` the sum of their lengths. */
  method Publish(p: Policy, env: Env) returns (out: Outcome, calls: nat, waits: nat, waited: nat)
    requires p.maxAttempts > 0
    ensures calls <= p.maxAttempts
    ensures out.Exhausted? ==> calls == p.maxAttempts && AllFailed(env, calls)
                               && env.reply(calls - 1) == Some(out.lastError)
    ensures out == Sent ==> calls >= 1 && AllFailed(env, calls - 1) && env.reply(calls - 1) == None
    ensures out == Cancelled ==>
              AllFailed(env, calls) && (env.cancelled(calls) || (calls > 0 && env.interrupted(calls - 1)))
    // One wait after every failed attempt but the last, each below its base.
    ensures waits == (if calls > 0 && out != Cancelled then calls - 1 else calls)
    ensures waited <= BaseSum(p, waits)
    ensures waits > 0 && p.initial > 0 ==> waited < BaseSum(p, waits)
  {
    out, calls, waits, waited := Cancelled, 0, 0, 0;
    var lastError := "";
    while calls < p.maxAttempts
      invariant calls <= p.maxAttempts && out == Cancelled
      invariant AllFailed(env, calls) && (calls > 0 ==> env.reply(calls - 1) == Some(lastError))
      invariant waits == calls && calls < p.maxAttempts
      invariant waited <= BaseSum(p, waits)
      invariant waits > 0 && p.initial > 0 ==> waited < BaseSum(p, waits)
    {
      if env.cancelled(calls) {
        return;
      }
      var reply := env.reply(calls);
      calls := calls + 1;
      if reply.None? {
        out := Sent;
        return;
      }
      lastError := reply.value;
      if calls == p.maxAttempts {
        break;
      }
      var wait := Backoff(p.initial, p.max, calls, env.random(calls));
      waits, waited := waits + 1, waited + wait;
      if env.interrupted(calls - 1) {
        return;
      }
    }
    out := Exhausted(lastError);
  }
}
