/**
  The sliding-window rate limiter: a sorted set of attempt times per key, pruned on every
  call. A call reads the clock and runs its pipeline later; others may run in between, with
  earlier or later readings. Pipelines run one after another, so the calls of one key are a
  history in the order in which their pipelines ran, each with its own reading.
 */
module RateLimit {
  import opened Basics

  const MILLISECOND := 1_000_000
  const MINUTE := 60 * SECOND
  const DEFAULT_PER_IP := 30
  const DEFAULT_PER_USER := 10
  const DEFAULT_WINDOW := 60 * MINUTE

  datatype Key = Ip(address: string) | Account(user: nat)

  /** One call that reached the store: when it read the clock, when its pipeline ran, and what the count decided,
      even if the reply was lost. */
  datatype Attempt = Attempt(read: nat, ran: nat, allowed: bool)

  /** The sorted set of one key, as its scores, and when the key expires. */
  datatype Bucket = Bucket(scores: seq<int>, until: nat)

  /** A failed pipeline may still have run on the server, with only its reply lost. */
  datatype Fault = NoRandom | PipelineFailed(ran: bool)

  predicate ReachesStore(fault: Option<Fault>) {
    fault.None? || fault == Some(PipelineFailed(true))
  }

  function Score(at: int): int {
    at / MILLISECOND
  }

  function WindowStart(now: int, window: nat): int {
    Score(now - window)
  }

  /** Redis keeps the key for whole seconds. */
  function KeyTTL(window: nat): nat {
    (window + MINUTE) / SECOND * SECOND
  }

  // -------------------------------------------------------------------- the pipeline

  /** What is left of the first n scores after removing the range [0, limit). */
  function Pruned(scores: seq<int>, limit: int, n: nat): seq<int>
    requires n <= |scores|
  {
    if n == 0 then []
    else if 0 <= scores[n - 1] < limit then Pruned(scores, limit, n - 1)
    else Pruned(scores, limit, n - 1) + [scores[n - 1]]
  }

  /** An expired key holds nothing. */
  function Live(bucket: Option<Bucket>, now: nat): seq<int> {
    if bucket.Some? && now < bucket.value.until then bucket.value.scores else []
  }

  /** The scores a pipeline finds after pruning for its reading. */
  function Kept(bucket: Option<Bucket>, read: nat, ran: nat, window: nat): seq<int> {
    Pruned(Live(bucket, ran), WindowStart(read, window), |Live(bucket, ran)|)
  }

  /** What the pipeline leaves behind. */
  function Added(bucket: Option<Bucket>, read: nat, ran: nat, window: nat): Bucket {
    Bucket(Kept(bucket, read, ran, window) + [Score(read)], ran + KeyTTL(window))
  }

  /** What the store holds after the first n pipelines. */
  function Store(h: seq<Attempt>, window: nat, n: nat): Option<Bucket>
    requires n <= |h|
  {
    if n == 0 then None
    else Some(Added(Store(h, window, n - 1), h[n - 1].read, h[n - 1].ran, window))
  }

  function Found(h: seq<Attempt>, read: nat, ran: nat, window: nat, n: nat): nat
    requires n <= |h|
  {
    |Kept(Store(h, window, n), read, ran, window)|
  }

  /** No reading is after its pipeline, pipelines run in the order of the history, and each is decided by what it
      finds. These are all ways in which any number of concurrent calls can use one key. */
  ghost predicate IsHistory(h: seq<Attempt>, window: nat, max: nat) {
    && (forall i :: 0 <= i < |h| ==> h[i].read <= h[i].ran)
    && (forall i, j :: 0 <= i < j < |h| ==> h[i].ran <= h[j].ran)
    && (forall i :: 0 <= i < |h| ==> Decided(h, i, window, max))
  }

  predicate Decided(h: seq<Attempt>, i: nat, window: nat, max: nat)
    requires i < |h|
  {
    h[i].allowed <==> Found(h, h[i].read, h[i].ran, window, i) < max
  }

  // ------------------------------------------------------------------ specification

  function Scores(h: seq<Attempt>): seq<int> {
    seq(|h|, i requires 0 <= i < |h| => Score(h[i].read))
  }

  /** How many of the first n scores are at or after the limit. */
  function CountFrom(scores: seq<int>, limit: int, n: nat): nat
    requires n <= |scores|
  {
    if n == 0 then 0 else CountFrom(scores, limit, n - 1) + (if scores[n - 1] >= limit then 1 else 0)
  }

  /** How many of all attempts ever recorded lie in the window up to `now`, by millisecond score. */
  function Recent(h: seq<Attempt>, now: int, window: nat): nat {
    CountFrom(Scores(h), WindowStart(now, window), |h|)
  }

  /** How many of the first n attempts were allowed with a reading in the closed interval of that length from x. */
  function AllowedWithin(h: seq<Attempt>, x: int, length: nat, n: nat): nat
    requires n <= |h|
  {
    if n == 0 then 0
    else
      AllowedWithin(h, x, length, n - 1) +
      (if h[n - 1].allowed && x <= h[n - 1].read <= x + length then 1 else 0)
  }

  /** Every pipeline ran at most `lag` after its reading. */
  ghost predicate Prompt(h: seq<Attempt>, lag: nat) {
    forall i :: 0 <= i < |h| ==> h[i].ran <= h[i].read + lag
  }

  // ------------------------------------------------------------------------ lemmas

  lemma ScoreMonotone(x: int, y: int)
    requires x <= y
    ensures Score(x) <= Score(y)
  {}

  lemma {:induction false} CountAppend(scores: seq<int>, x: int, limit: int, n: nat)
    requires n <= |scores|
    ensures CountFrom(scores + [x], limit, n) == CountFrom(scores, limit, n)
  {
    if n > 0 { CountAppend(scores, x, limit, n - 1); }
  }

  /** Pruning below a limit leaves the count from that limit on, and nothing else below it. */
  lemma {:induction false} PrunedCount(scores: seq<int>, early: int, limit: int, n: nat)
    requires n <= |scores| && early <= limit
    ensures var kept := Pruned(scores, early, n);
            CountFrom(kept, limit, |kept|) == CountFrom(scores, limit, n) <= |kept|
  {
    if n > 0 {
      PrunedCount(scores, early, limit, n - 1);
      CountAppend(Pruned(scores, early, n - 1), scores[n - 1], limit, |Pruned(scores, early, n - 1)|);
    }
  }

  lemma {:induction false} PrunedSize(scores: seq<int>, limit: int, n: nat)
    requires n <= |scores| && forall i :: 0 <= i < |scores| ==> scores[i] >= 0
    ensures |Pruned(scores, limit, n)| == CountFrom(scores, limit, n)
    ensures forall i :: 0 <= i < |Pruned(scores, limit, n)| ==> Pruned(scores, limit, n)[i] >= 0
  {
    if n > 0 { PrunedSize(scores, limit, n - 1); }
  }

  lemma {:induction false} NoneCounted(scores: seq<int>, limit: int, n: nat)
    requires n <= |scores| && forall i :: 0 <= i < n ==> scores[i] < limit
    ensures CountFrom(scores, limit, n) == 0
  {
    if n > 0 { NoneCounted(scores, limit, n - 1); }
  }

  lemma {:induction false} CountMonotone(scores: seq<int>, low: int, high: int, n: nat)
    requires n <= |scores| && low <= high
    ensures CountFrom(scores, high, n) <= CountFrom(scores, low, n)
  {
    if n > 0 { CountMonotone(scores, low, high, n - 1); }
  }

  lemma {:induction false} StoreScores(h: seq<Attempt>, window: nat, n: nat, now: nat)
    requires n <= |h|
    ensures forall i :: 0 <= i < |Live(Store(h, window, n), now)| ==> Live(Store(h, window, n), now)[i] >= 0
  {
    if n > 0 {
      var a := h[n - 1];
      StoreScores(h, window, n - 1, a.ran);
      var live := Live(Store(h, window, n - 1), a.ran);
      PrunedSize(live, WindowStart(a.read, window), |live|);
    }
  }

  lemma CountLast(h: seq<Attempt>, limit: int, n: nat)
    requires 0 < n <= |h|
    ensures CountFrom(Scores(h), limit, n)
         == CountFrom(Scores(h), limit, n - 1) + (if Score(h[n - 1].read) >= limit then 1 else 0)
  {}

  /** By the time a key expires, every attempt under it has left the window. */
  lemma ExpiredMeansEmpty(h: seq<Attempt>, window: nat, max: nat, n: nat, now: nat, limit: int)
    requires IsHistory(h, window, max) && 0 < n <= |h|
    requires now >= h[n - 1].ran + KeyTTL(window) && limit >= WindowStart(now, window)
    ensures CountFrom(Scores(h), limit, n) == 0
  {
    var last := h[n - 1].ran;
    assert now - window >= last + MILLISECOND;
    ScoreMonotone(last + MILLISECOND, now - window);
    assert Score(last + MILLISECOND) == Score(last) + 1;
    forall i | 0 <= i < n ensures Scores(h)[i] < limit {
      ScoreMonotone(h[i].read, last);
    }
    NoneCounted(Scores(h), limit, n);
  }

  /** From the start of the window up to now on, the store counts as all attempts ever recorded do, whatever was
      pruned and however late pipelines ran. */
  lemma {:induction false} StoreCounts(h: seq<Attempt>, window: nat, max: nat, n: nat, now: nat, limit: int)
    requires IsHistory(h, window, max) && n <= |h| && (n > 0 ==> h[n - 1].ran <= now)
    requires limit >= WindowStart(now, window)
    ensures CountLive(Store(h, window, n), now, limit) == CountFrom(Scores(h), limit, n)
    decreases n, 1
  {
    if n > 0 {
      var a := h[n - 1];
      if now >= a.ran + KeyTTL(window) {
        ExpiredMeansEmpty(h, window, max, n, now, limit);
      } else {
        StoreCountsLive(h, window, max, n, now, limit);
      }
    }
  }

  lemma StoreCountsLive(h: seq<Attempt>, window: nat, max: nat, n: nat, now: nat, limit: int)
    requires IsHistory(h, window, max) && 0 < n <= |h| && h[n - 1].ran <= now < h[n - 1].ran + KeyTTL(window)
    requires limit >= WindowStart(now, window)
    ensures CountLive(Store(h, window, n), now, limit) == CountFrom(Scores(h), limit, n)
    decreases n, 0
  {
    var a := h[n - 1];
    ScoreMonotone(a.ran - window, now - window);
    ScoreMonotone(a.read - window, a.ran - window);
    StoreCounts(h, window, max, n - 1, a.ran, limit);
    AddedCount(Store(h, window, n - 1), a.read, a.ran, window, now, limit);
    CountLast(h, limit, n);
  }

  /** How many scores of the bucket are at or after the limit, while it lives. */
  function CountLive(bucket: Option<Bucket>, now: nat, limit: int): nat {
    CountFrom(Live(bucket, now), limit, |Live(bucket, now)|)
  }

  lemma AddedAtMost(bucket: Option<Bucket>, read: nat, ran: nat, window: nat, now: nat, limit: int)
    ensures CountLive(Some(Added(bucket, read, ran, window)), now, limit)
         <= CountLive(bucket, ran, limit) + (if Score(read) >= limit then 1 else 0)
  {
    var before, kept := Live(bucket, ran), Kept(bucket, read, ran, window);
    PrunedAtMost(before, WindowStart(read, window), limit, |before|);
    CountAppend(kept, Score(read), limit, |kept|);
  }

  lemma AddedCount(bucket: Option<Bucket>, read: nat, ran: nat, window: nat, now: nat, limit: int)
    requires WindowStart(read, window) <= limit && now < ran + KeyTTL(window)
    ensures CountLive(Some(Added(bucket, read, ran, window)), now, limit)
         == CountLive(bucket, ran, limit) + (if Score(read) >= limit then 1 else 0)
  {
    var before, kept := Live(bucket, ran), Kept(bucket, read, ran, window);
    PrunedCount(before, WindowStart(read, window), limit, |before|);
    CountAppend(kept, Score(read), limit, |kept|);
  }

  /** Below it the store has at most what was recorded. */
  lemma {:induction false} StoreAtMost(h: seq<Attempt>, window: nat, n: nat, now: nat, limit: int)
    requires n <= |h|
    ensures CountLive(Store(h, window, n), now, limit) <= CountFrom(Scores(h), limit, n)
  {
    if n > 0 {
      var a, before := h[n - 1], Store(h, window, n - 1);
      StoreAtMost(h, window, n - 1, a.ran, limit);
      AddedAtMost(before, a.read, a.ran, window, now, limit);
      CountLast(h, limit, n);
    }
  }

  lemma {:induction false} PrunedAtMost(scores: seq<int>, early: int, limit: int, n: nat)
    requires n <= |scores|
    ensures var kept := Pruned(scores, early, n); CountFrom(kept, limit, |kept|) <= CountFrom(scores, limit, n)
  {
    if n > 0 {
      PrunedAtMost(scores, early, limit, n - 1);
      CountAppend(Pruned(scores, early, n - 1), scores[n - 1], limit, |Pruned(scores, early, n - 1)|);
    }
  }

  /** A pipeline finds at least the attempts in the window up to its run and at most those in the window up to its
      reading: exactly the window's when it runs at once. */
  lemma FoundIsRecent(h: seq<Attempt>, window: nat, max: nat, n: nat, read: nat, ran: nat)
    requires IsHistory(h, window, max) && n <= |h| && read <= ran && (n > 0 ==> h[n - 1].ran <= ran)
    ensures CountFrom(Scores(h), WindowStart(ran, window), n) <= Found(h, read, ran, window, n)
            <= CountFrom(Scores(h), WindowStart(read, window), n)
  {
    var live := Live(Store(h, window, n), ran);
    ScoreMonotone(read - window, ran - window);
    StoreCounts(h, window, max, n, ran, WindowStart(ran, window));
    PrunedCount(live, WindowStart(read, window), WindowStart(ran, window), |live|);
    StoreScores(h, window, n, ran);
    PrunedSize(live, WindowStart(read, window), |live|);
    StoreAtMost(h, window, n, ran, WindowStart(read, window));
  }

  // ---------------------------------------------------------------- the window bound

  /** Allowed attempts with a reading at or after the start of the window up to `now` are among those counted. */
  lemma {:induction false} AllowedAreCounted(h: seq<Attempt>, x: int, length: nat, window: nat, now: int, n: nat)
    requires n <= |h| && now <= x + window
    ensures AllowedWithin(h, x, length, n) <= CountFrom(Scores(h), WindowStart(now, window), n)
  {
    if n > 0 {
      AllowedAreCounted(h, x, length, window, now, n - 1);
      if x <= h[n - 1].read { ScoreMonotone(now - window, h[n - 1].read); }
    }
  }

  /** If no pipeline runs more than `lag` after its reading, every closed interval shorter than the window by `lag`
      holds at most `max` allowed attempts. */
  lemma {:induction false} AtMostMaxPerWindow(
    h: seq<Attempt>, window: nat, max: nat, lag: nat, x: int, length: nat, n: nat)
    requires n <= |h| && IsHistory(h, window, max) && Prompt(h, lag) && length + lag <= window
    ensures AllowedWithin(h, x, length, n) <= max
  {
    if n > 0 {
      AtMostMaxPerWindow(h, window, max, lag, x, length, n - 1);
      var a := h[n - 1];
      if a.allowed && x <= a.read <= x + length {
        assert Decided(h, n - 1, window, max);
        FoundIsRecent(h, window, max, n - 1, a.read, a.ran);
        AllowedAreCounted(h, x, length, window, a.ran, n - 1);
      }
    }
  }

  /** Until the key expires, a score at least as high as attempt j's stays in the store. */
  lemma {:induction false} HighScoreStays(h: seq<Attempt>, window: nat, max: nat, j: nat, n: nat, now: nat)
    returns (k: nat)
    requires IsHistory(h, window, max) && j < n <= |h| && h[n - 1].ran <= now < h[j].ran + KeyTTL(window)
    ensures var live := Live(Store(h, window, n), now); k < |live| && live[k] >= Score(h[j].read)
  {
    var a, before := h[n - 1], Store(h, window, n - 1);
    if j == n - 1 {
      k := |Kept(before, a.read, a.ran, window)|;
    } else {
      var i := HighScoreStays(h, window, max, j, n - 1, a.ran);
      k := AddedKeepsHigh(before, a.read, a.ran, window, i, Score(h[j].read));
    }
  }

  /** Pruning takes a score away only when it adds a higher one. */
  lemma AddedKeepsHigh(bucket: Option<Bucket>, read: nat, ran: nat, window: nat, i: nat, low: int) returns (k: nat)
    requires i < |Live(bucket, ran)| && Live(bucket, ran)[i] >= low
    ensures var scores := Added(bucket, read, ran, window).scores; k < |scores| && scores[k] >= low
  {
    var before := Live(bucket, ran);
    ScoreMonotone(read - window, read);
    k := |Kept(bucket, read, ran, window)|;
    if before[i] >= WindowStart(read, window) {
      k := KeptAt(before, WindowStart(read, window), i, |before|);
    }
  }

  lemma {:induction false} KeptAt(scores: seq<int>, limit: int, i: nat, n: nat) returns (k: nat)
    requires i < n <= |scores| && scores[i] >= limit
    ensures var kept := Pruned(scores, limit, n); k < |kept| && kept[k] == scores[i]
  {
    if i == n - 1 {
      k := |Pruned(scores, limit, n - 1)|;
    } else {
      k := KeptAt(scores, limit, i, n - 1);
    }
  }

  /** With a limit of one, a late pipeline still finds somebody: the whole window holds, until a call takes so long
      that the key expires under it. */
  lemma {:induction false} AtMostOnePerWindow(
    h: seq<Attempt>, window: nat, lag: nat, x: int, length: nat, n: nat)
    requires n <= |h| && IsHistory(h, window, 1) && Prompt(h, lag) && length <= window && length + lag < KeyTTL(window)
    ensures AllowedWithin(h, x, length, n) <= 1
  {
    if n > 0 {
      AtMostOnePerWindow(h, window, lag, x, length, n - 1);
      var a := h[n - 1];
      if a.allowed && x <= a.read <= x + length && AllowedWithin(h, x, length, n - 1) > 0 {
        var j := SomeAllowed(h, x, length, n - 1);
        FindsOne(h, window, j, n - 1);
        assert false;
      }
    }
  }

  lemma {:induction false} SomeAllowed(h: seq<Attempt>, x: int, length: nat, n: nat) returns (j: nat)
    requires n <= |h| && AllowedWithin(h, x, length, n) > 0
    ensures j < n && x <= h[j].read <= x + length
  {
    if h[n - 1].allowed && x <= h[n - 1].read <= x + length {
      j := n - 1;
    } else {
      j := SomeAllowed(h, x, length, n - 1);
    }
  }

  /** An attempt within the window of an earlier one whose key has not expired finds something. */
  lemma FindsOne(h: seq<Attempt>, window: nat, j: nat, n: nat)
    requires IsHistory(h, window, 1) && j < n < |h| && h[n].read <= h[j].read + window
    requires h[n].ran < h[j].ran + KeyTTL(window)
    ensures !h[n].allowed
  {
    var live := Live(Store(h, window, n), h[n].ran);
    var k := HighScoreStays(h, window, 1, j, n, h[n].ran);
    ScoreMonotone(h[n].read - window, h[j].read);
    var i := KeptAt(live, WindowStart(h[n].read, window), k, |live|);
    assert Decided(h, n, window, 1);
  }

  // ----------------------------------------------------------- and no longer interval

  lemma {:induction false} StoreAppend(h: seq<Attempt>, a: Attempt, window: nat, n: nat)
    requires n <= |h|
    ensures Store(h + [a], window, n) == Store(h, window, n)
  {
    if n > 0 { StoreAppend(h, a, window, n - 1); }
  }

  lemma {:induction false} AllowedAppend(h: seq<Attempt>, a: Attempt, x: int, length: nat, n: nat)
    requires n <= |h|
    ensures AllowedWithin(h + [a], x, length, n) == AllowedWithin(h, x, length, n)
  {
    if n > 0 { AllowedAppend(h, a, x, length, n - 1); }
  }

  lemma HistoryMore(h: seq<Attempt>, a: Attempt, window: nat, max: nat)
    requires IsHistory(h, window, max) && a.read <= a.ran && (|h| > 0 ==> h[|h| - 1].ran <= a.ran)
    requires a.allowed <==> Found(h, a.read, a.ran, window, |h|) < max
    ensures IsHistory(h + [a], window, max)
  {
    var all := h + [a];
    forall i | 0 <= i < |all| ensures Decided(all, i, window, max) {
      if i < |h| { assert Decided(h, i, window, max); }
      StoreAppend(h, a, window, i);
    }
  }

  /** n attempts in one instant, all allowed. */
  function Burst(at: nat, n: nat): seq<Attempt> {
    seq(n, _ => Attempt(at, at, true))
  }

  lemma {:induction false} BurstIsHistory(at: nat, n: nat, window: nat, max: nat)
    requires n <= max
    ensures IsHistory(Burst(at, n), window, max)
    ensures forall length :: AllowedWithin(Burst(at, n), at, length, n) == n
  {
    if n > 0 {
      BurstIsHistory(at, n - 1, window, max);
      var h, a := Burst(at, n - 1), Attempt(at, at, true);
      assert Burst(at, n) == h + [a];
      FoundIsRecent(h, window, max, n - 1, at, at);
      CountBounded(Scores(h), WindowStart(at, window), n - 1);
      HistoryMore(h, a, window, max);
      forall length ensures AllowedWithin(Burst(at, n), at, length, n) == n { AllowedAppend(h, a, at, length, n - 1); }
    }
  }

  lemma {:induction false} CountBounded(scores: seq<int>, limit: int, n: nat)
    requires n <= |scores|
    ensures CountFrom(scores, limit, n) <= n
  {
    if n > 0 { CountBounded(scores, limit, n - 1); }
  }

  lemma {:induction false} PrunedShorter(scores: seq<int>, limit: int, n: nat)
    requires n <= |scores|
    ensures |Pruned(scores, limit, n)| <= n
  {
    if n > 0 { PrunedShorter(scores, limit, n - 1); }
  }

  /** The last nanosecond of a millisecond: attempts in it are pruned one window and a nanosecond later. */
  const LAST: nat := MILLISECOND - 1

  function Late(window: nat): Attempt {
    Attempt(LAST + window + 1, LAST + window + 1, true)
  }

  /** A full burst, and one attempt just after its window: all of the burst is pruned. */
  lemma LateIsAllowed(window: nat, max: nat)
    requires max >= 1
    ensures IsHistory(Burst(LAST, max) + [Late(window)], window, max)
    ensures |Live(Store(Burst(LAST, max) + [Late(window)], window, max + 1), LAST + window + 1)| == 1
  {
    var h, b := Burst(LAST, max), Late(window);
    BurstIsHistory(LAST, max, window, max);
    FoundIsRecent(h, window, max, max, b.read, b.ran);
    NoneCounted(Scores(h), WindowStart(b.read, window), max);
    HistoryMore(h, b, window, max);
    StoreAppend(h, b, window, max);
  }

  /** An attempt that read the clock before the late one and runs after it. */
  function Overtaken(window: nat, length: nat): Attempt {
    Attempt(LAST + if length <= window then length else window + 1, LAST + window + 1, true)
  }

  /** It finds only the one that overtook it, so with a limit of two or more it is allowed, within reach of the
      whole burst. */
  lemma OvertakenIsAllowed(window: nat, max: nat, lag: nat, length: nat) returns (h: seq<Attempt>)
    requires max >= 2 && length + lag > window
    ensures IsHistory(h, window, max) && Prompt(h, lag) && AllowedWithin(h, LAST, length, |h|) > max
  {
    var two, a := Burst(LAST, max) + [Late(window)], Overtaken(window, length);
    LateIsAllowed(window, max);
    var live := Live(Store(two, window, max + 1), a.ran);
    PrunedShorter(live, WindowStart(a.read, window), |live|);
    HistoryMore(two, a, window, max);
    h := two + [a];
    BurstIsHistory(LAST, max, window, max);
    AllowedAppend(Burst(LAST, max), Late(window), LAST, length, max);
    AllowedAppend(two, a, LAST, length, max + 1);
  }

  lemma TwoPastWindow(window: nat, length: nat) returns (h: seq<Attempt>)
    requires length > window
    ensures IsHistory(h, window, 1) && Prompt(h, 0) && AllowedWithin(h, LAST, length, |h|) > 1
  {
    LateIsAllowed(window, 1);
    h := Burst(LAST, 1) + [Late(window)];
    BurstIsHistory(LAST, 1, window, 1);
    AllowedAppend(Burst(LAST, 1), Late(window), LAST, length, 1);
  }

  /** A call that takes so long that the key expires under it finds nothing. */
  lemma TwoPastExpiry(window: nat, lag: nat, length: nat) returns (h: seq<Attempt>)
    requires length <= window && length + lag >= KeyTTL(window)
    ensures IsHistory(h, window, 1) && Prompt(h, lag) && AllowedWithin(h, 0, length, |h|) > 1
  {
    var one, a := Burst(0, 1), Attempt(length, KeyTTL(window), true);
    assert window <= KeyTTL(window);
    BurstIsHistory(0, 1, window, 1);
    HistoryMore(one, a, window, 1);
    h := one + [a];
    AllowedAppend(one, a, 0, length, 1);
  }

  /** However calls that take at most `lag` overlap, no closed interval of that length holds more than `max`. */
  ghost predicate Bounded(window: nat, max: nat, lag: nat, length: nat) {
    forall h, x: int ::
      IsHistory(h, window, max) && Prompt(h, lag) ==> AllowedWithin(h, x, length, |h|) <= max
  }

  /** Exactly which intervals are safe: those shorter than the window by the time a call may take. A limit of one
      is safe for the whole window, until a call takes long enough for the key to expire under it. */
  lemma BoundedIff(window: nat, max: nat, lag: nat, length: nat)
    requires max >= 1
    ensures Bounded(window, max, lag, length) <==>
            if max == 1 then length <= window && length + lag < KeyTTL(window) else length + lag <= window
  {
    if max >= 2 && length + lag > window {
      var h := OvertakenIsAllowed(window, max, lag, length);
    } else if max == 1 && length > window {
      var h := TwoPastWindow(window, length);
    } else if max == 1 && length + lag >= KeyTTL(window) {
      var h := TwoPastExpiry(window, lag, length);
    } else {
      forall h, x: int | IsHistory(h, window, max) && Prompt(h, lag) ensures AllowedWithin(h, x, length, |h|) <= max {
        if max == 1 {
          AtMostOnePerWindow(h, window, lag, x, length, |h|);
        } else {
          AtMostMaxPerWindow(h, window, max, lag, x, length, |h|);
        }
      }
    }
  }

  // --------------------------------------------------------------------- the limiter

  ghost predicate KeyInv(h: seq<Attempt>, bucket: Bucket, window: nat, max: nat, clock: nat) {
    && IsHistory(h, window, max) && |h| > 0 && h[|h| - 1].ran <= clock
    && Some(bucket) == Store(h, window, |h|)
  }

  /** Adding the attempt keeps the store in step with the history. */
  lemma AttemptKeeps(h: seq<Attempt>, bucket: Option<Bucket>, window: nat, max: nat, clock: nat, a: Attempt)
    requires if bucket.Some? then KeyInv(h, bucket.value, window, max, clock) else h == []
    requires a.read <= a.ran && clock <= a.ran
    requires a.allowed <==> |Kept(bucket, a.read, a.ran, window)| < max
    ensures KeyInv(h + [a], Added(bucket, a.read, a.ran, window), window, max, a.ran)
    ensures Recent(h, a.read, window) < max ==> a.allowed
    ensures a.allowed ==> Recent(h, a.ran, window) < max
  {
    assert h == [] ==> Store(h, window, |h|) == None;
    FoundIsRecent(h, window, max, |h|, a.read, a.ran);
    HistoryMore(h, a, window, max);
    StoreAppend(h, a, window, |h|);
  }

  class RateLimiter {
    const perIP: nat
    const perUser: nat
    const window: nat
    var buckets: map<Key, Bucket>
    ghost var log: map<Key, seq<Attempt>>    // every attempt that reached the store, in the order of the pipelines
    ghost var clock: nat

    function Limit(key: Key): nat {
      if key.Ip? then perIP else perUser
    }

    ghost predicate Valid()
      reads this
    {
      buckets.Keys == log.Keys && forall key :: key in log ==> KeyInv(log[key], buckets[key], window, Limit(key), clock)
    }

    ghost function Attempts(key: Key): seq<Attempt>
      reads this
    {
      if key in log then log[key] else []
    }

    /** Fewer than the key's limit among all attempts ever recorded fall in the window up to now. */
    ghost predicate Allows(key: Key, now: nat)
      reads this
    {
      Recent(Attempts(key), now, window) < Limit(key)
    }

    constructor (perIP: int, perUser: int, window: int)
      ensures Valid() && log == map[] && clock == 0
      ensures this.perIP == (if perIP <= 0 then DEFAULT_PER_IP else perIP)
      ensures this.perUser == (if perUser <= 0 then DEFAULT_PER_USER else perUser)
      ensures this.window == (if window <= 0 then DEFAULT_WINDOW else window)
    {
      this.perIP := if perIP <= 0 then DEFAULT_PER_IP else perIP;
      this.perUser := if perUser <= 0 then DEFAULT_PER_USER else perUser;
      this.window := if window <= 0 then DEFAULT_WINDOW else window;
      buckets, log, clock := map[], map[], 0;
    }

    /** A call that read the clock at `read` and whose pipeline runs at `ran`: prune, count, add, extend the key's
        life. `decided` is what the count says, also when the reply is lost. It allows whenever the window up to
        the reading has room, and only when the window up to the run has. */
    method Allow(key: Key, read: nat, ran: nat, fault: Option<Fault>)
      returns (r: Result<bool, Fault>, ghost decided: bool)
      requires Valid() && read <= ran && clock <= ran
      modifies this
      ensures Valid() && clock == ran
      ensures old(Allows(key, read)) ==> decided
      ensures decided ==> old(Allows(key, ran))
      ensures r == if fault.Some? then Failure(fault.value) else Success(decided)
      ensures log == if ReachesStore(fault) then old(log)[key := old(Attempts(key)) + [Attempt(read, ran, decided)]]
                     else old(log)
      ensures !ReachesStore(fault) ==> buckets == old(buckets)
    {
      if fault.Some? && !ReachesStore(fault) {
        decided := Allows(key, ran);
        ScoreMonotone(read - window, ran - window);
        CountMonotone(Scores(Attempts(key)), WindowStart(read, window), WindowStart(ran, window), |Attempts(key)|);
        clock := ran;
        return Failure(fault.value), decided;
      }
      var allowed := RunPipeline(key, read, ran);
      decided := allowed;
      r := if fault.Some? then Failure(fault.value) else Success(allowed);
    }

    method RunPipeline(key: Key, read: nat, ran: nat) returns (allowed: bool)
      requires Valid() && read <= ran && clock <= ran
      modifies this
      ensures Valid() && clock == ran
      ensures old(Allows(key, read)) ==> allowed
      ensures allowed ==> old(Allows(key, ran))
      ensures log == old(log)[key := old(Attempts(key)) + [Attempt(read, ran, allowed)]]
    {
      var bucket := if key in buckets then Some(buckets[key]) else None;
      var kept := Kept(bucket, read, ran, window);
      allowed := |kept| < Limit(key);
      AttemptKeeps(Attempts(key), bucket, window, Limit(key), clock, Attempt(read, ran, allowed));
      log := log[key := Attempts(key) + [Attempt(read, ran, allowed)]];
      buckets := buckets[key := Bucket(kept + [Score(read)], ran + KeyTTL(window))];
      clock := ran;
    }

    method AllowIP(address: string, read: nat, ran: nat, fault: Option<Fault>)
      returns (r: Result<bool, Fault>, ghost decided: bool)
      requires Valid() && read <= ran && clock <= ran
      modifies this
      ensures Valid() && clock == ran
      ensures old(Allows(Ip(address), read)) ==> decided
      ensures decided ==> old(Allows(Ip(address), ran))
      ensures r == if fault.Some? then Failure(fault.value) else Success(decided)
      ensures Attempts(Ip(address)) ==
                old(Attempts(Ip(address))) + (if ReachesStore(fault) then [Attempt(read, ran, decided)] else [])
      ensures forall key :: key != Ip(address) ==> Attempts(key) == old(Attempts(key))
      ensures forall key, later :: key != Ip(address) ==> Allows(key, later) == old(Allows(key, later))
    {
      r, decided := Allow(Ip(address), read, ran, fault);
      assert forall key :: key != Ip(address) ==> Attempts(key) == old(Attempts(key));
    }

    method AllowAccount(user: nat, read: nat, ran: nat, fault: Option<Fault>)
      returns (r: Result<bool, Fault>, ghost decided: bool)
      requires Valid() && read <= ran && clock <= ran
      modifies this
      ensures Valid() && clock == ran
      ensures old(Allows(Account(user), read)) ==> decided
      ensures decided ==> old(Allows(Account(user), ran))
      ensures r == if fault.Some? then Failure(fault.value) else Success(decided)
      ensures Attempts(Account(user)) ==
                old(Attempts(Account(user))) + (if ReachesStore(fault) then [Attempt(read, ran, decided)] else [])
      ensures forall key :: key != Account(user) ==> Attempts(key) == old(Attempts(key))
      ensures forall key, later :: key != Account(user) ==> Allows(key, later) == old(Allows(key, later))
    {
      r, decided := Allow(Account(user), read, ran, fault);
      assert forall key :: key != Account(user) ==> Attempts(key) == old(Attempts(key));
    }

    /** In every state of the limiter, if its calls took at most `lag`, every closed interval shorter than the window
        by `lag` holds at most the limit. */
    lemma WindowNeverExceeded(key: Key, lag: nat, x: int, length: nat)
      requires Valid() && Prompt(Attempts(key), lag) && length + lag <= window
      ensures AllowedWithin(Attempts(key), x, length, |Attempts(key)|) <= Limit(key)
    {
      if key in log { AtMostMaxPerWindow(log[key], window, Limit(key), lag, x, length, |log[key]|); }
    }
  }
}
