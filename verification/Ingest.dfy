/**
  One stream of the analytics ingest pipeline: bus handlers decode a message,
  probe the dedup LRU, append to the shared buffer and flush it when it is full;
  the ticker and the final drain flush it too. The three streams of the pipeline
  are copies of this one and share nothing but a mutex.

  Each lock-protected section is one step, so steps of any number of handlers and
  flushers interleave freely.
 */
module Ingest {
  import opened Basics
  import opened DedupLru

  datatype Thread = Thread(n: nat)

  datatype Config = Config(batchSize: nat, dedupSize: nat)

  datatype Payload = Malformed | Decoded(row: Row)

  datatype Row = Row(id: EventId, body: nat)

  /** A row that passed the dedup probe, with the position of that probe in the LRU's history. */
  datatype Entry = Entry(ordinal: nat, row: Row)

  datatype Status = InFlight | Inserted | Failed

  datatype Batch = Batch(rows: seq<Entry>, status: Status)

  datatype Stream = Stream(
    received: nat,
    deadLetters: nat,
    dedupHits: nat,
    lru: seq<EventId>,
    parsed: map<Thread, Row>,        // decoded, dedup not probed yet
    accepted: map<Thread, Entry>,    // passed dedup, not appended yet
    buffer: seq<Entry>,
    owing: set<Thread>,              // handlers that saw the buffer full and have yet to flush
    batches: seq<Batch>,             // buffers taken so far, in order
    history: seq<EventId>,           // every LRU probe, in order
    appended: seq<Entry>)            // every append, in order

  datatype Step =
    | Receive(t: Thread, payload: Payload)
    | Probe(t: Thread)
    | Append(t: Thread)
    | Flush(t: Thread)
    | Finish(k: nat, ok: bool)

  const INITIAL := Stream(0, 0, 0, [], map[], map[], [], {}, [], [], [])

  predicate Idle(s: Stream, t: Thread) {
    t !in s.parsed && t !in s.accepted && t !in s.owing
  }

  predicate Enabled(s: Stream, step: Step) {
    match step
    case Receive(t, _) => Idle(s, t)
    case Probe(t) => t in s.parsed
    case Append(t) => t in s.accepted
    case Flush(t) => t !in s.parsed && t !in s.accepted
    case Finish(k, _) => k < |s.batches| && s.batches[k].status == InFlight
  }

  function Received(s: Stream, t: Thread, payload: Payload): Stream {
    var s := s.(received := s.received + 1);
    if payload.Malformed? || payload.row.id == NIL_ID then s.(deadLetters := s.deadLetters + 1)
    else s.(parsed := s.parsed[t := payload.row])
  }

  function Probed(c: Config, s: Stream, t: Thread): Stream
    requires c.dedupSize > 0 && t in s.parsed
  {
    var row := s.parsed[t];
    var entry := Entry(|s.history|, row);
    var dup := row.id in s.lru;
    var s := s.(parsed := s.parsed - {t},
                lru := Touch(s.lru, row.id, c.dedupSize),
                history := s.history + [row.id]);
    if dup then s.(dedupHits := s.dedupHits + 1) else s.(accepted := s.accepted[t := entry])
  }

  function Appended(c: Config, s: Stream, t: Thread): Stream
    requires t in s.accepted
  {
    var buffer := s.buffer + [s.accepted[t]];
    s.(accepted := s.accepted - {t},
       buffer := buffer,
       appended := s.appended + [s.accepted[t]],
       owing := if |buffer| >= c.batchSize then s.owing + {t} else s.owing)
  }

  function Flushed(s: Stream, t: Thread): Stream {
    var s := s.(owing := s.owing - {t});
    if s.buffer == [] then s else s.(buffer := [], batches := s.batches + [Batch(s.buffer, InFlight)])
  }

  function Finished(s: Stream, k: nat, ok: bool): Stream
    requires k < |s.batches|
  {
    s.(batches := s.batches[k := s.batches[k].(status := if ok then Inserted else Failed)])
  }

  function Apply(c: Config, s: Stream, step: Step): Stream
    requires c.dedupSize > 0 && Enabled(s, step)
  {
    match step
    case Receive(t, payload) => Received(s, t, payload)
    case Probe(t) => Probed(c, s, t)
    case Append(t) => Appended(c, s, t)
    case Flush(t) => Flushed(s, t)
    case Finish(k, ok) => Finished(s, k, ok)
  }

  // ------------------------------------------------------------------- accounting

  /** The rows of the first n batches, in order. */
  function FlattenTo(batches: seq<Batch>, n: nat): seq<Entry>
    requires n <= |batches|
  {
    if n == 0 then [] else FlattenTo(batches, n - 1) + batches[n - 1].rows
  }

  function Flatten(batches: seq<Batch>): seq<Entry> {
    FlattenTo(batches, |batches|)
  }

  /** Rows in those of the first n batches that have the given status. */
  function RowsTo(batches: seq<Batch>, status: Status, n: nat): nat
    requires n <= |batches|
  {
    if n == 0 then 0
    else RowsTo(batches, status, n - 1) + (if batches[n - 1].status == status then |batches[n - 1].rows| else 0)
  }

  function Rows(batches: seq<Batch>, status: Status): nat {
    RowsTo(batches, status, |batches|)
  }

  lemma {:induction false} PrefixSame(batches: seq<Batch>, other: seq<Batch>, n: nat)
    requires n <= |batches| && n <= |other| && forall i :: 0 <= i < n ==> batches[i].rows == other[i].rows
    ensures FlattenTo(batches, n) == FlattenTo(other, n)
  {
    if n > 0 { PrefixSame(batches, other, n - 1); }
  }

  lemma FlattenMore(batches: seq<Batch>, b: Batch)
    ensures Flatten(batches + [b]) == Flatten(batches) + b.rows
  {
    PrefixSame(batches, batches + [b], |batches|);
  }

  /** Every row of a batch is in flight, inserted or failed. */
  lemma {:induction false} RowsByStatus(batches: seq<Batch>, n: nat)
    requires n <= |batches|
    ensures |FlattenTo(batches, n)|
         == RowsTo(batches, InFlight, n) + RowsTo(batches, Inserted, n) + RowsTo(batches, Failed, n)
  {
    if n > 0 { RowsByStatus(batches, n - 1); }
  }

  /** Every message received was dead-lettered, dropped as a duplicate, is with its handler, or was appended. */
  ghost predicate Conserved(s: Stream) {
    s.received == s.deadLetters + s.dedupHits + |s.parsed| + |s.accepted| + |s.appended|
  }

  // ------------------------------------------------------------------- invariant

  /** The entry's probe found its id not recently seen. */
  ghost predicate Fresh(c: Config, history: seq<EventId>, e: Entry) {
    && e.ordinal < |history|
    && history[e.ordinal] == e.row.id
    && !SeenRecently(history[..e.ordinal], e.row.id, c.dedupSize)
  }

  ghost predicate EntriesInv(c: Config, history: seq<EventId>, appended: seq<Entry>, accepted: map<Thread, Entry>) {
    && (forall i :: 0 <= i < |appended| ==> Fresh(c, history, appended[i]))
    && (forall t :: t in accepted ==> Fresh(c, history, accepted[t]))
    && (forall i, j :: 0 <= i < j < |appended| ==> appended[i].ordinal != appended[j].ordinal)
    && (forall i, t :: 0 <= i < |appended| && t in accepted ==> appended[i].ordinal != accepted[t].ordinal)
    && (forall t, u :: t in accepted && u in accepted && t != u ==> accepted[t].ordinal != accepted[u].ordinal)
  }

  lemma EntriesProbe(c: Config, history: seq<EventId>, appended: seq<Entry>, accepted: map<Thread, Entry>, id: EventId)
    requires EntriesInv(c, history, appended, accepted)
    ensures EntriesInv(c, history + [id], appended, accepted)
  {
    forall e | Fresh(c, history, e) ensures Fresh(c, history + [id], e) {
      FreshKept(c, history, e, id);
    }
  }

  lemma EntriesAccept(c: Config, history: seq<EventId>, appended: seq<Entry>, accepted: map<Thread, Entry>,
                      t: Thread, row: Row)
    requires EntriesInv(c, history, appended, accepted) && t !in accepted
    requires !SeenRecently(history, row.id, c.dedupSize)
    ensures EntriesInv(c, history + [row.id], appended, accepted[t := Entry(|history|, row)])
  {
    EntriesProbe(c, history, appended, accepted, row.id);
    assert (history + [row.id])[..|history|] == history;
    assert Fresh(c, history + [row.id], Entry(|history|, row));
    assert forall e :: Fresh(c, history, e) ==> e.ordinal < |history|;
  }

  lemma EntriesAppend(c: Config, history: seq<EventId>, appended: seq<Entry>, accepted: map<Thread, Entry>, t: Thread)
    requires EntriesInv(c, history, appended, accepted) && t in accepted
    ensures EntriesInv(c, history, appended + [accepted[t]], accepted - {t})
  {}

  ghost predicate Inv(c: Config, s: Stream) {
    && s.lru == Take(Recency(s.history), c.dedupSize)
    && EntriesInv(c, s.history, s.appended, s.accepted)
    && Flatten(s.batches) + s.buffer == s.appended
    && (|s.buffer| >= c.batchSize && s.buffer != [] ==> s.owing != {})
  }

  lemma FreshKept(c: Config, history: seq<EventId>, e: Entry, id: EventId)
    requires Fresh(c, history, e)
    ensures Fresh(c, history + [id], e)
  {
    assert (history + [id])[..e.ordinal] == history[..e.ordinal];
  }

  lemma InvProbe(c: Config, s: Stream, t: Thread)
    requires c.dedupSize > 0 && Inv(c, s) && t in s.parsed && t !in s.accepted
    ensures Inv(c, Probed(c, s, t))
  {
    var row := s.parsed[t];
    AddSpec(s.history, row.id, c.dedupSize, s.lru);
    if row.id in s.lru {
      EntriesProbe(c, s.history, s.appended, s.accepted, row.id);
    } else {
      EntriesAccept(c, s.history, s.appended, s.accepted, t, row);
    }
  }

  lemma InvAppend(c: Config, s: Stream, t: Thread)
    requires Inv(c, s) && t in s.accepted
    ensures Inv(c, Appended(c, s, t))
  {
    EntriesAppend(c, s.history, s.appended, s.accepted, t);
    var u := Appended(c, s, t);
    if |u.buffer| >= c.batchSize {
      assert t in u.owing;
    }
  }

  lemma InvFlush(c: Config, s: Stream, t: Thread)
    requires Inv(c, s)
    ensures Inv(c, Flushed(s, t))
  {
    if s.buffer != [] {
      FlattenMore(s.batches, Batch(s.buffer, InFlight));
    }
  }

  lemma InvFinish(c: Config, s: Stream, k: nat, ok: bool)
    requires Inv(c, s) && k < |s.batches| && s.batches[k].status == InFlight
    ensures Inv(c, Finished(s, k, ok))
  {
    PrefixSame(s.batches, Finished(s, k, ok).batches, |s.batches|);
  }

  lemma InvStep(c: Config, s: Stream, step: Step)
    requires c.dedupSize > 0 && Inv(c, s) && Enabled(s, step) && (step.Probe? ==> step.t !in s.accepted)
    ensures Inv(c, Apply(c, s, step))
  {
    match step
    case Receive(_, _) =>
    case Probe(t) => InvProbe(c, s, t);
    case Append(t) => InvAppend(c, s, t);
    case Flush(t) => InvFlush(c, s, t);
    case Finish(k, ok) => InvFinish(c, s, k, ok);
  }

  // -------------------------------------------------------------- nothing is lost

  /** Handlers are in one place at a time, and every message is accounted for. */
  ghost predicate Counted(s: Stream) {
    s.parsed.Keys !! s.accepted.Keys && Conserved(s)
  }

  lemma CountedProbe(c: Config, s: Stream, t: Thread)
    requires c.dedupSize > 0 && Counted(s) && t in s.parsed
    ensures Counted(Probed(c, s, t))
  {
    MapSizeRemove(s.parsed, t);
    MapSizeAdd(s.accepted, t, Entry(|s.history|, s.parsed[t]));
  }

  lemma CountedStep(c: Config, s: Stream, step: Step)
    requires c.dedupSize > 0 && Counted(s) && Enabled(s, step)
    ensures Counted(Apply(c, s, step))
  {
    match step
    case Receive(t, payload) =>
      if payload.Decoded? && payload.row.id != NIL_ID { MapSizeAdd(s.parsed, t, payload.row); }
    case Probe(t) => CountedProbe(c, s, t);
    case Append(t) => MapSizeRemove(s.accepted, t);
    case Flush(_) =>
    case Finish(_, _) =>
  }

  // ------------------------------------------------------------------------ runs

  ghost predicate IsRun(c: Config, run: seq<Stream>, steps: seq<Step>)
    requires c.dedupSize > 0
  {
    && |run| == |steps| + 1
    && run[0] == INITIAL
    && forall i :: 0 <= i < |steps| ==>
         Enabled(run[i], steps[i]) && run[i + 1] == Apply(c, run[i], steps[i])
  }

  lemma {:induction false} RunCounted(c: Config, run: seq<Stream>, steps: seq<Step>, i: nat)
    requires c.dedupSize > 0 && IsRun(c, run, steps) && i < |run|
    ensures Counted(run[i])
  {
    if i > 0 {
      RunCounted(c, run, steps, i - 1);
      CountedStep(c, run[i - 1], steps[i - 1]);
    }
  }

  lemma {:induction false} RunInv(c: Config, run: seq<Stream>, steps: seq<Step>, i: nat)
    requires c.dedupSize > 0 && IsRun(c, run, steps) && i < |run|
    ensures Inv(c, run[i])
  {
    if i > 0 {
      RunInv(c, run, steps, i - 1);
      RunCounted(c, run, steps, i - 1);
      InvStep(c, run[i - 1], steps[i - 1]);
    }
  }

  ghost predicate Reachable(c: Config, s: Stream)
    requires c.dedupSize > 0
  {
    exists run, steps :: IsRun(c, run, steps) && run[|steps|] == s
  }

  lemma ReachInitial(c: Config)
    requires c.dedupSize > 0
    ensures Reachable(c, INITIAL)
  {
    assert IsRun(c, [INITIAL], []);
  }

  lemma Go(c: Config, s: Stream, step: Step) returns (u: Stream)
    requires c.dedupSize > 0 && Reachable(c, s) && Enabled(s, step)
    ensures Reachable(c, u) && u == Apply(c, s, step)
  {
    u := Apply(c, s, step);
    var run, steps :| IsRun(c, run, steps) && run[|steps|] == s;
    var longer, more := run + [u], steps + [step];
    forall i | 0 <= i < |more| ensures Enabled(longer[i], more[i]) && longer[i + 1] == Apply(c, longer[i], more[i]) {
      if i < |steps| { assert longer[i] == run[i] && longer[i + 1] == run[i + 1] && more[i] == steps[i]; }
    }
    assert IsRun(c, longer, more);
  }

  /** The list the machine probes is the newest ids of the history, so the history alone decides a probe. */
  lemma ProbeDecided(c: Config, s: Stream, t: Thread)
    requires c.dedupSize > 0 && Reachable(c, s) && t in s.parsed
    ensures s.parsed[t].id in s.lru <==> SeenRecently(s.history, s.parsed[t].id, c.dedupSize)
    ensures t !in s.accepted
  {
    var run, steps :| IsRun(c, run, steps) && run[|steps|] == s;
    RunInv(c, run, steps, |steps|);
    RunCounted(c, run, steps, |steps|);
    AddSpec(s.history, s.parsed[t].id, c.dedupSize, s.lru);
  }

  /** Nothing is lost or counted twice between handlers, buffer and store; rows keep the
      order of their appends, none is appended twice, and a full buffer is never forgotten. */
  lemma RunConserves(c: Config, run: seq<Stream>, steps: seq<Step>, i: nat)
    requires c.dedupSize > 0 && IsRun(c, run, steps) && i < |run|
    ensures var s := run[i];
            s.received == s.deadLetters + s.dedupHits + |s.parsed| + |s.accepted| + |s.buffer|
                          + Rows(s.batches, InFlight) + Rows(s.batches, Inserted) + Rows(s.batches, Failed)
    ensures Flatten(run[i].batches) + run[i].buffer == run[i].appended
    ensures |run[i].buffer| >= c.batchSize > 0 ==> run[i].owing != {}
    ensures Distinct(run[i].appended)
  {
    RunInv(c, run, steps, i);
    RunCounted(c, run, steps, i);
    RowsByStatus(run[i].batches, |run[i].batches|);
  }

  // ------------------------------------------------------------------ at most once

  /** The distinct other ids probed strictly between positions i and j. */
  ghost function Between(h: seq<EventId>, i: nat, j: nat): set<EventId>
    requires i < j <= |h|
  {
    set k | i < k < j && h[k] != h[i] :: h[k]
  }

  /** A delivery within the LRU's horizon of an earlier one is found to be a duplicate. */
  lemma WithinHorizonIsDup(h: seq<EventId>, i: nat, j: nat, cap: nat)
    requires i < j < |h| && h[i] == h[j] && |Between(h, i, j)| < cap
    ensures SeenRecently(h[..j], h[j], cap)
  {
    var p := h[..j];
    LastBelowIs(p, h[j], j);
    var last := LastIndex(p, h[j]);
    assert p[i] == h[j];
    assert last >= i;
    forall x | x in IdsFrom(p, last + 1) ensures x in Between(h, i, j) {
      var k :| last + 1 <= k < |p| && p[k] == x;
      assert h[k] == x;
    }
    SubsetSize(IdsFrom(p, last + 1), Between(h, i, j));
  }

  ghost predicate InStore(s: Stream, e: Entry) {
    exists k, r :: 0 <= k < |s.batches| && s.batches[k].status == Inserted
                   && 0 <= r < |s.batches[k].rows| && s.batches[k].rows[r] == e
  }

  lemma {:induction false} BatchRowAppended(batches: seq<Batch>, k: nat, e: Entry, n: nat)
    requires k < n <= |batches| && e in batches[k].rows
    ensures e in FlattenTo(batches, n)
  {
    if k < n - 1 {
      BatchRowAppended(batches, k, e, n - 1);
    }
  }

  /** Two deliveries of one event id with fewer than `dedupSize` distinct other ids between
      them never both reach the store. */
  lemma StoreAtMostOnce(c: Config, run: seq<Stream>, steps: seq<Step>, i: nat, e: Entry, f: Entry)
    requires c.dedupSize > 0 && IsRun(c, run, steps) && i < |run|
    requires InStore(run[i], e) && InStore(run[i], f) && e != f && e.row.id == f.row.id
    ensures e.ordinal != f.ordinal && e.ordinal < |run[i].history| && f.ordinal < |run[i].history|
    ensures e.ordinal < f.ordinal ==> |Between(run[i].history, e.ordinal, f.ordinal)| >= c.dedupSize
  {
    var s := run[i];
    RunInv(c, run, steps, i);
    InStoreAppended(s, e);
    InStoreAppended(s, f);
    if e.ordinal < f.ordinal && |Between(s.history, e.ordinal, f.ordinal)| < c.dedupSize {
      WithinHorizonIsDup(s.history, e.ordinal, f.ordinal, c.dedupSize);
    }
  }

  lemma InStoreAppended(s: Stream, e: Entry)
    requires InStore(s, e) && Flatten(s.batches) + s.buffer == s.appended
    ensures e in s.appended
  {
    var k, r :| 0 <= k < |s.batches| && s.batches[k].status == Inserted
                && 0 <= r < |s.batches[k].rows| && s.batches[k].rows[r] == e;
    BatchRowAppended(s.batches, k, e, |s.batches|);
    assert e in Flatten(s.batches) + s.buffer;
  }
}
