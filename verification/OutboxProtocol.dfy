/**
  Any number of writers and relay replicas over one `event_outbox` table.

  A relay's pass is a transaction: `Select` locks a batch, one `Publish` step per
  row calls the broker and then writes the outcome, `Commit` ends the pass. A
  failed `Exec` aborts the transaction, but the relay goes on publishing the rest
  of the batch; its commit then fails. `Crash` stands for a process crash and for
  every other way a transaction is rolled back.

  `acks` and `wasted` are bookkeeping: the publishes the broker acknowledged, and
  those whose transaction was rolled back afterwards.
 */
module OutboxProtocol {
  import opened Basics
  import opened OutboxTable

  datatype Config = Config(batchSize: nat, maxRetry: nat)

  datatype Tx = Tx(
    locked: set<RowId>,          // rows held by FOR UPDATE
    todo: seq<RowId>,            // rows not handled yet
    written: map<RowId, Row>,    // uncommitted updates
    acked: set<RowId>,           // rows whose publish was acknowledged in this pass
    aborted: bool)

  datatype Sys = Sys(
    table: Table,
    nextId: nat,
    pending: map<nat, Table>,    // uncommitted inserts, per writer
    open: map<nat, Tx>,          // open drain transactions, per relay
    acks: multiset<RowId>,
    wasted: multiset<RowId>)

  datatype Step =
    | Append(writer: nat, event: Event, now: nat)
    | WriterCommit(writer: nat)
    | WriterRollback(writer: nat)
    | Select(relay: nat, batch: seq<RowId>)
    | Publish(relay: nat, reply: Option<string>, execOk: bool)
    | Commit(relay: nat, commitOk: bool)
    | Crash(relay: nat)

  const INITIAL := Sys(map[], 1, map[], map[], multiset{}, multiset{})

  ghost function Locked(s: Sys): set<RowId> {
    set r, id | r in s.open && id in s.open[r].locked :: id
  }

  ghost predicate Enabled(c: Config, s: Sys, step: Step) {
    match step
    case Append(_, _, _) => true
    case WriterCommit(w) => w in s.pending
    case WriterRollback(w) => w in s.pending
    case Select(r, batch) => r !in s.open && DrainBatch(s.table, Locked(s), c.batchSize, c.maxRetry, batch)
    case Publish(r, _, _) => r in s.open && s.open[r].todo != [] && s.open[r].todo[0] in s.table
    case Commit(r, _) => r in s.open && s.open[r].todo == []
    case Crash(r) => r in s.open
  }

  function Appended(s: Sys, w: nat, ev: Event, now: nat): Sys {
    if !ValidEvent(ev) then s
    else
      var mine := if w in s.pending then s.pending[w] else map[];
      s.(pending := s.pending[w := mine[RowId(s.nextId) := NewRow(ev, now)]], nextId := s.nextId + 1)
  }

  function Selected(s: Sys, r: nat, batch: seq<RowId>): Sys {
    s.(open := s.open[r := Tx(Elements(batch), batch, map[], {}, false)])
  }

  /** One row: publish, then write the outcome unless the transaction is already aborted. */
  function PublishHead(tx: Tx, row: Row, reply: Option<string>, execOk: bool): Tx
    requires tx.todo != []
  {
    var id := tx.todo[0];
    var ok := execOk && !tx.aborted;
    Tx(tx.locked,
       tx.todo[1..],
       if ok then tx.written[id := Handle(row, reply)] else tx.written,
       if reply.None? then tx.acked + {id} else tx.acked,
       !ok)
  }

  function Published(s: Sys, r: nat, reply: Option<string>, execOk: bool): Sys
    requires r in s.open && s.open[r].todo != [] && s.open[r].todo[0] in s.table
  {
    var head := s.open[r].todo[0];
    s.(open := s.open[r := PublishHead(s.open[r], s.table[head], reply, execOk)],
       acks := if reply.None? then s.acks + multiset{head} else s.acks)
  }

  function Committed(s: Sys, r: nat): Sys
    requires r in s.open
  {
    s.(table := s.table + s.open[r].written, open := s.open - {r})
  }

  function RolledBack(s: Sys, r: nat): Sys
    requires r in s.open
  {
    s.(open := s.open - {r}, wasted := s.wasted + multiset(s.open[r].acked))
  }

  function Apply(c: Config, s: Sys, step: Step): Sys
    requires Enabled(c, s, step)
  {
    match step
    case Append(w, ev, now) => Appended(s, w, ev, now)
    case WriterCommit(w) => s.(table := s.table + s.pending[w], pending := s.pending - {w})
    case WriterRollback(w) => s.(pending := s.pending - {w})
    case Select(r, batch) => Selected(s, r, batch)
    case Publish(r, reply, execOk) => Published(s, r, reply, execOk)
    case Commit(r, commitOk) => if commitOk && !s.open[r].aborted then Committed(s, r) else RolledBack(s, r)
    case Crash(r) => RolledBack(s, r)
  }

  // ---------------------------------------------------------------- invariant

  /** Inserts no reader can see yet. */
  ghost predicate PendingInv(s: Sys) {
    && (forall id :: id in s.table ==> id.n < s.nextId)
    && (forall w, id :: w in s.pending && id in s.pending[w] ==>
          id.n < s.nextId && id !in s.table && ValidEvent(s.pending[w][id].event)
          && !s.pending[w][id].published && s.pending[w][id].attempts == 0)
    && (forall w, v :: w in s.pending && v in s.pending && w != v ==> s.pending[w].Keys !! s.pending[v].Keys)
  }

  /** What a transaction wrote is exactly what the broker's reply calls for. */
  ghost predicate TxInv(c: Config, table: Table, tx: Tx) {
    && Distinct(tx.todo)
    && (forall id :: id in tx.todo ==> id in tx.locked && id !in tx.acked && id !in tx.written)
    && (forall id :: id in tx.locked ==> id in table && Eligible(table[id], c.maxRetry))
    && tx.acked <= tx.locked
    && tx.written.Keys <= tx.locked
    && (forall id :: id in tx.written ==>
          if id in tx.acked then tx.written[id] == MarkPublished(table[id])
          else exists e :: tx.written[id] == MarkFailed(table[id], e))
    && (!tx.aborted ==> forall id :: id in tx.locked ==> id in tx.todo || id in tx.written)
  }

  ghost predicate LocksInv(c: Config, s: Sys) {
    && (forall r :: r in s.open ==> TxInv(c, s.table, s.open[r]))
    && (forall r, q :: r in s.open && q in s.open && r != q ==> s.open[r].locked !! s.open[q].locked)
  }

  /** An open transaction has an acknowledged publish of row `id` that is neither committed nor rolled back. */
  ghost predicate InFlight(s: Sys, id: RowId) {
    exists r :: r in s.open && id in s.open[r].acked
  }

  /** Acknowledged publishes of a row: the one its mark stands for, the ones rolled back, the one in flight. */
  ghost predicate Conserved(s: Sys, id: RowId) {
    s.acks[id] == (if id in s.table && s.table[id].published then 1 else 0)
                  + s.wasted[id]
                  + (if InFlight(s, id) then 1 else 0)
  }

  ghost predicate TableInv(c: Config, s: Sys) {
    forall id :: id in s.table ==> s.table[id].attempts <= c.maxRetry && ValidEvent(s.table[id].event)
  }

  ghost predicate Inv(c: Config, s: Sys) {
    PendingInv(s) && LocksInv(c, s) && TableInv(c, s) && forall id :: Conserved(s, id)
  }

  // ------------------------------------------------------- preservation, by step

  lemma InvAppend(c: Config, s: Sys, w: nat, ev: Event, now: nat)
    requires Inv(c, s)
    ensures Inv(c, Appended(s, w, ev, now))
  {
    var t := Appended(s, w, ev, now);
    assert PendingInv(t) by {
      forall w, v | w in t.pending && v in t.pending && w != v ensures t.pending[w].Keys !! t.pending[v].Keys {
        assert w in s.pending ==> RowId(s.nextId) !in s.pending[w];
        assert v in s.pending ==> RowId(s.nextId) !in s.pending[v];
      }
    }
    forall id ensures Conserved(t, id) {
      assert Conserved(s, id) && (InFlight(t, id) <==> InFlight(s, id));
    }
  }

  lemma InvWriterEnd(c: Config, s: Sys, w: nat, t: Sys)
    requires Inv(c, s) && w in s.pending
    requires t == s.(pending := s.pending - {w}) || t == s.(table := s.table + s.pending[w], pending := s.pending - {w})
    ensures Inv(c, t)
  {
    forall r | r in t.open ensures TxInv(c, t.table, t.open[r]) {
      assert TxInv(c, s.table, s.open[r]);
    }
    forall id ensures Conserved(t, id) {
      assert Conserved(s, id) && (InFlight(t, id) <==> InFlight(s, id));
    }
  }

  lemma InvSelect(c: Config, s: Sys, r: nat, batch: seq<RowId>)
    requires Inv(c, s) && r !in s.open && DrainBatch(s.table, Locked(s), c.batchSize, c.maxRetry, batch)
    ensures Inv(c, Selected(s, r, batch))
  {
    var t := Selected(s, r, batch);
    assert TxInv(c, t.table, t.open[r]);
    forall q | q in s.open ensures t.open[q] == s.open[q] && s.open[q].locked !! t.open[r].locked {
      forall id | id in s.open[q].locked ensures id !in t.open[r].locked {
        assert id in Locked(s);
      }
    }
    forall id ensures Conserved(t, id) {
      assert Conserved(s, id) && (InFlight(t, id) <==> InFlight(s, id));
    }
  }

  lemma TxInvPublish(c: Config, table: Table, tx: Tx, reply: Option<string>, execOk: bool)
    requires TxInv(c, table, tx) && tx.todo != [] && tx.todo[0] in table
    ensures TxInv(c, table, PublishHead(tx, table[tx.todo[0]], reply, execOk))
  {
    var head := tx.todo[0];
    var next := PublishHead(tx, table[head], reply, execOk);
    assert tx.todo == [head] + next.todo;
    assert head in tx.todo && head !in next.todo;
    if reply.Some? {
      assert Handle(table[head], reply) == MarkFailed(table[head], reply.value);
    }
  }

  lemma InvPublish(c: Config, s: Sys, r: nat, reply: Option<string>, execOk: bool)
    requires Inv(c, s) && r in s.open && s.open[r].todo != [] && s.open[r].todo[0] in s.table
    ensures Inv(c, Published(s, r, reply, execOk))
  {
    var t := Published(s, r, reply, execOk);
    TxInvPublish(c, s.table, s.open[r], reply, execOk);
    forall q | q in t.open ensures TxInv(c, t.table, t.open[q]) {
      assert q == r || t.open[q] == s.open[q];
    }
    forall id ensures Conserved(t, id) {
      assert Conserved(s, id);
      InFlightAfterPublish(c, s, r, reply, execOk, id);
    }
  }

  lemma InFlightAfterPublish(c: Config, s: Sys, r: nat, reply: Option<string>, execOk: bool, id: RowId)
    requires LocksInv(c, s) && r in s.open && s.open[r].todo != [] && s.open[r].todo[0] in s.table
    ensures InFlight(Published(s, r, reply, execOk), id)
            <==> InFlight(s, id) || (reply.None? && id == s.open[r].todo[0])
    ensures !InFlight(s, s.open[r].todo[0])
  {
    var t := Published(s, r, reply, execOk);
    var head := s.open[r].todo[0];
    assert head in s.open[r].todo && head in s.open[r].locked;
    forall q | q in s.open ensures head !in s.open[q].acked {
      assert TxInv(c, s.table, s.open[q]) && (q == r || s.open[r].locked !! s.open[q].locked);
    }
    if InFlight(s, id) {
      var q :| q in s.open && id in s.open[q].acked;
      assert q in t.open && id in t.open[q].acked;
    }
    if InFlight(t, id) {
      var q :| q in t.open && id in t.open[q].acked;
      assert q in s.open;
    }
    if reply.None? && id == head {
      assert id in t.open[r].acked;
    }
  }

  /** Ending a transaction takes exactly its own acknowledgements out of flight. */
  lemma InFlightAfterEnd(c: Config, s: Sys, t: Sys, r: nat, id: RowId)
    requires LocksInv(c, s) && r in s.open && t.open == s.open - {r}
    ensures InFlight(t, id) <==> InFlight(s, id) && id !in s.open[r].acked
  {
    if InFlight(t, id) {
      var q :| q in t.open && id in t.open[q].acked;
      assert q in s.open && q != r && TxInv(c, s.table, s.open[q]) && TxInv(c, s.table, s.open[r]);
    }
    if InFlight(s, id) && id !in s.open[r].acked {
      var q :| q in s.open && id in s.open[q].acked;
      assert q in t.open;
    }
  }

  lemma InvRolledBack(c: Config, s: Sys, r: nat)
    requires Inv(c, s) && r in s.open
    ensures Inv(c, RolledBack(s, r))
  {
    var t := RolledBack(s, r);
    forall id ensures Conserved(t, id) {
      assert Conserved(s, id);
      InFlightAfterEnd(c, s, t, r, id);
      assert id in s.open[r].acked ==> InFlight(s, id);
    }
  }

  /** A commit changes no row another transaction holds, and marks exactly the rows it saw acknowledged. */
  lemma CommitEffect(c: Config, s: Sys, r: nat, id: RowId)
    requires LocksInv(c, s) && r in s.open && s.open[r].todo == [] && !s.open[r].aborted
    requires id in s.table
    ensures id !in s.open[r].locked ==> Committed(s, r).table[id] == s.table[id]
    ensures id in s.open[r].locked ==> !s.table[id].published && s.table[id].attempts < c.maxRetry
    ensures id in s.open[r].acked ==> Committed(s, r).table[id] == MarkPublished(s.table[id])
    ensures id in s.open[r].locked && id !in s.open[r].acked ==>
              exists e :: Committed(s, r).table[id] == MarkFailed(s.table[id], e)
  {
    assert TxInv(c, s.table, s.open[r]);
  }

  lemma InvCommitted(c: Config, s: Sys, r: nat)
    requires Inv(c, s) && r in s.open && s.open[r].todo == [] && !s.open[r].aborted
    ensures Inv(c, Committed(s, r))
  {
    var t := Committed(s, r);
    assert TxInv(c, s.table, s.open[r]);
    assert t.table.Keys == s.table.Keys;
    forall id | id in t.table ensures t.table[id].attempts <= c.maxRetry && ValidEvent(t.table[id].event) {
      CommitEffect(c, s, r, id);
    }
    forall q | q in t.open ensures TxInv(c, t.table, t.open[q]) {
      assert TxInv(c, s.table, s.open[q]) && s.open[q].locked !! s.open[r].locked;
      forall id | id in s.open[q].locked ensures t.table[id] == s.table[id] {
        CommitEffect(c, s, r, id);
      }
    }
    forall id ensures Conserved(t, id) {
      assert Conserved(s, id);
      InFlightAfterEnd(c, s, t, r, id);
      if id in s.table { CommitEffect(c, s, r, id); }
      assert id in s.open[r].acked ==> InFlight(s, id);
    }
  }

  lemma InvStep(c: Config, s: Sys, step: Step)
    requires Inv(c, s) && Enabled(c, s, step)
    ensures Inv(c, Apply(c, s, step))
  {
    match step
    case Append(w, ev, now) => InvAppend(c, s, w, ev, now);
    case WriterCommit(w) => InvWriterEnd(c, s, w, Apply(c, s, step));
    case WriterRollback(w) => InvWriterEnd(c, s, w, Apply(c, s, step));
    case Select(r, batch) => InvSelect(c, s, r, batch);
    case Publish(r, reply, execOk) => InvPublish(c, s, r, reply, execOk);
    case Commit(r, ok) =>
      if ok && !s.open[r].aborted { InvCommitted(c, s, r); } else { InvRolledBack(c, s, r); }
    case Crash(r) => InvRolledBack(c, s, r);
  }

  // --------------------------------------------------------------------- runs

  ghost predicate IsPath(c: Config, path: seq<Sys>, steps: seq<Step>) {
    && |path| == |steps| + 1
    && forall i :: 0 <= i < |steps| ==> Enabled(c, path[i], steps[i]) && path[i + 1] == Apply(c, path[i], steps[i])
  }

  ghost predicate IsRun(c: Config, run: seq<Sys>, steps: seq<Step>) {
    IsPath(c, run, steps) && run[0] == INITIAL
  }

  ghost predicate Reaches(c: Config, s: Sys, u: Sys) {
    exists path, steps :: IsPath(c, path, steps) && path[0] == s && path[|steps|] == u
  }

  lemma ReachesSelf(c: Config, s: Sys)
    ensures Reaches(c, s, s)
  {
    assert IsPath(c, [s], []);
  }

  lemma ReachesStep(c: Config, s: Sys, m: Sys, step: Step)
    requires Reaches(c, s, m) && Enabled(c, m, step)
    ensures Reaches(c, s, Apply(c, m, step))
  {
    var path, steps :| IsPath(c, path, steps) && path[0] == s && path[|steps|] == m;
    var longer, more := path + [Apply(c, m, step)], steps + [step];
    forall i | 0 <= i < |more| ensures Enabled(c, longer[i], more[i]) && longer[i + 1] == Apply(c, longer[i], more[i]) {
      if i < |steps| { assert longer[i] == path[i] && longer[i + 1] == path[i + 1] && more[i] == steps[i]; }
    }
    assert IsPath(c, longer, more);
  }

  /** Paths compose. */
  lemma ReachesOn(c: Config, s: Sys, m: Sys, u: Sys)
    requires Reaches(c, s, m) && Reaches(c, m, u)
    ensures Reaches(c, s, u)
  {
    var path, steps :| IsPath(c, path, steps) && path[0] == m && path[|steps|] == u;
    ReachesAlong(c, s, path, steps, |steps|);
  }

  lemma {:induction false} ReachesAlong(c: Config, s: Sys, path: seq<Sys>, steps: seq<Step>, n: nat)
    requires IsPath(c, path, steps) && n <= |steps| && Reaches(c, s, path[0])
    ensures Reaches(c, s, path[n])
  {
    if n > 0 {
      ReachesAlong(c, s, path, steps, n - 1);
      ReachesStep(c, s, path[n - 1], steps[n - 1]);
    }
  }

  lemma {:induction false} RunInv(c: Config, run: seq<Sys>, steps: seq<Step>, i: nat)
    requires IsRun(c, run, steps) && i < |run|
    ensures Inv(c, run[i])
  {
    if i > 0 {
      RunInv(c, run, steps, i - 1);
      InvStep(c, run[i - 1], steps[i - 1]);
    }
  }

  /** Retry budget and conservation of acknowledgements, in every reachable state. */
  lemma RunSafety(c: Config, run: seq<Sys>, steps: seq<Step>, i: nat, id: RowId)
    requires IsRun(c, run, steps) && i < |run|
    requires id in run[i].table
    ensures run[i].table[id].attempts <= c.maxRetry
    ensures !InFlight(run[i], id) ==>
              run[i].acks[id] == (if run[i].table[id].published then 1 else 0) + run[i].wasted[id]
    // No row is marked without an acknowledgement, and none is acknowledged twice
    // unless a transaction that published it was rolled back.
    ensures run[i].table[id].published ==> run[i].acks[id] >= 1
    ensures run[i].wasted[id] == 0 ==> run[i].acks[id] <= 1
    ensures run[i].table[id].published ==> !InFlight(run[i], id)
  {
    RunInv(c, run, steps, i);
    assert Conserved(run[i], id);
    if InFlight(run[i], id) {
      var r :| r in run[i].open && id in run[i].open[r].acked;
      assert id in run[i].open[r].locked;
    }
  }

  /** How a committed row may differ later: never lost, never rewritten, never unmarked. */
  ghost predicate Evolves(a: Row, b: Row) {
    && b.event == a.event
    && b.createdAt == a.createdAt
    && a.attempts <= b.attempts
    && (a.published ==> b == a)
  }

  lemma StepEvolves(c: Config, s: Sys, step: Step, id: RowId)
    requires Inv(c, s) && Enabled(c, s, step) && id in s.table
    ensures id in Apply(c, s, step).table && Evolves(s.table[id], Apply(c, s, step).table[id])
    ensures Parked(s.table[id], c.maxRetry) ==> Apply(c, s, step).table[id] == s.table[id]
  {
    match step
    case WriterCommit(w) => assert id !in s.pending[w];
    case Commit(r, ok) => if ok && !s.open[r].aborted { CommitEffect(c, s, r, id); }
    case _ =>
  }

  /** No committed row is ever lost, whatever the replicas do and wherever they crash;
      a parked row is never touched again. */
  lemma {:induction false} NothingLost(c: Config, run: seq<Sys>, steps: seq<Step>, i: nat, j: nat, id: RowId)
    requires IsRun(c, run, steps) && i <= j < |run|
    requires id in run[i].table
    ensures id in run[j].table && Evolves(run[i].table[id], run[j].table[id])
    ensures Parked(run[i].table[id], c.maxRetry) ==> run[j].table[id] == run[i].table[id]
    decreases j - i
  {
    if i < j {
      NothingLost(c, run, steps, i, j - 1, id);
      RunInv(c, run, steps, j - 1);
      StepEvolves(c, run[j - 1], steps[j - 1], id);
    }
  }

  /** Two replicas never hold the same row, so no row is published by two passes at once. */
  lemma Exclusive(c: Config, run: seq<Sys>, steps: seq<Step>, i: nat, r: nat, q: nat)
    requires IsRun(c, run, steps) && i < |run|
    requires r in run[i].open && q in run[i].open && r != q
    ensures run[i].open[r].locked !! run[i].open[q].locked
  {
    RunInv(c, run, steps, i);
  }

  // ---------------------------------------------------- the duplicate, in a run

  /** Two committed rows, nothing under way. */
  function TwoRows(ev: Event): Sys {
    INITIAL.(table := map[RowId(1) := NewRow(ev, 0), RowId(2) := NewRow(ev, 0)], nextId := 3)
  }

  lemma ReachTwoRows(c: Config, ev: Event)
    requires ValidEvent(ev)
    ensures Reaches(c, INITIAL, TwoRows(ev))
  {
    var one := Appended(INITIAL, 0, ev, 0);
    var two := Appended(one, 0, ev, 0);
    ReachesSelf(c, INITIAL);
    ReachesStep(c, INITIAL, INITIAL, Append(0, ev, 0));
    ReachesStep(c, INITIAL, one, Append(0, ev, 0));
    ReachesStep(c, INITIAL, two, WriterCommit(0));
    var done := Apply(c, two, WriterCommit(0));
    assert done.table == TwoRows(ev).table && done.pending == map[];
  }

  /** A pass over two rows in which the broker acknowledges each; the update of the first may fail. */
  function OneSent(s: Sys, a: RowId, b: RowId, execOk: bool): Sys
    requires a in s.table
  {
    var written := if execOk then map[a := MarkPublished(s.table[a])] else map[];
    s.(open := map[0 := Tx({a, b}, [b], written, {a}, !execOk)], acks := s.acks + multiset{a})
  }

  function BothSent(s: Sys, a: RowId, b: RowId, execOk: bool): Sys
    requires a in s.table && b in s.table
  {
    var written := if execOk then map[a := MarkPublished(s.table[a])][b := MarkPublished(s.table[b])] else map[];
    s.(open := map[0 := Tx({a, b}, [], written, {a, b}, !execOk)], acks := s.acks + multiset{a} + multiset{b})
  }

  lemma ReachSelected(c: Config, s: Sys, a: RowId, b: RowId)
    requires Reaches(c, INITIAL, s) && s.open == map[] && DrainBatch(s.table, {}, c.batchSize, c.maxRetry, [a, b])
    ensures Reaches(c, INITIAL, s.(open := map[0 := Tx({a, b}, [a, b], map[], {}, false)]))
  {
    assert Locked(s) == {};
    ReachesStep(c, INITIAL, s, Select(0, [a, b]));
    assert (set id | id in [a, b]) == {a, b};
    assert Selected(s, 0, [a, b]).open == map[0 := Tx({a, b}, [a, b], map[], {}, false)];
  }

  lemma ReachOneSent(c: Config, s: Sys, a: RowId, b: RowId, execOk: bool)
    requires a in s.table && Reaches(c, INITIAL, s.(open := map[0 := Tx({a, b}, [a, b], map[], {}, false)]))
    ensures Reaches(c, INITIAL, OneSent(s, a, b, execOk))
  {
    var m := s.(open := map[0 := Tx({a, b}, [a, b], map[], {}, false)]);
    ReachesStep(c, INITIAL, m, Publish(0, None, execOk));
    assert [a, b][1..] == [b];
    assert Published(m, 0, None, execOk).open[0] == OneSent(s, a, b, execOk).open[0];
    assert Published(m, 0, None, execOk).open == OneSent(s, a, b, execOk).open;
  }

  lemma ReachBothSent(c: Config, s: Sys, a: RowId, b: RowId, execOk: bool)
    requires a in s.table && b in s.table && Reaches(c, INITIAL, OneSent(s, a, b, execOk))
    ensures Reaches(c, INITIAL, BothSent(s, a, b, execOk))
  {
    var m := OneSent(s, a, b, execOk);
    ReachesStep(c, INITIAL, m, Publish(0, None, true));
    assert Published(m, 0, None, true).open[0] == BothSent(s, a, b, execOk).open[0];
    assert Published(m, 0, None, true).open == BothSent(s, a, b, execOk).open;
  }

  lemma ReachSent(c: Config, s: Sys, a: RowId, b: RowId, execOk: bool)
    requires Reaches(c, INITIAL, s) && s.open == map[] && DrainBatch(s.table, {}, c.batchSize, c.maxRetry, [a, b])
    ensures a in s.table && b in s.table && Reaches(c, INITIAL, BothSent(s, a, b, execOk))
  {
    assert [a, b][0] == a && [a, b][1] == b;
    ReachSelected(c, s, a, b);
    ReachOneSent(c, s, a, b, execOk);
    ReachBothSent(c, s, a, b, execOk);
  }

  /** After the update of the first row has failed the relay still publishes the second, and nothing is marked. */
  lemma ReachWastedPass(c: Config, s: Sys, a: RowId, b: RowId)
    requires Reaches(c, INITIAL, s) && s.open == map[] && a != b
    requires DrainBatch(s.table, {}, c.batchSize, c.maxRetry, [a, b])
    ensures Reaches(c, INITIAL, s.(acks := s.acks + multiset{a} + multiset{b}, wasted := s.wasted + multiset({a, b})))
  {
    ReachSent(c, s, a, b, false);
    var m := BothSent(s, a, b, false);
    ReachesStep(c, INITIAL, m, Commit(0, true));
    assert Apply(c, m, Commit(0, true)).open == s.open;
  }

  /** So the next pass publishes both again: each row is acknowledged twice and marked once. */
  lemma DuplicateAfterFailedUpdate(c: Config, ev: Event) returns (s: Sys)
    requires ValidEvent(ev) && c.batchSize >= 2 && c.maxRetry >= 1
    ensures Reaches(c, INITIAL, s) && RowId(2) in s.table && s.table[RowId(2)].published && s.acks[RowId(2)] == 2
  {
    var a, b := RowId(1), RowId(2);
    ReachTwoRows(c, ev);
    var two := TwoRows(ev);
    assert DrainBatch(two.table, {}, c.batchSize, c.maxRetry, [a, b]);
    ReachWastedPass(c, two, a, b);
    s := two.(acks := two.acks + multiset{a} + multiset{b}, wasted := two.wasted + multiset({a, b}));
    ReachSent(c, s, a, b, true);
    s := BothSent(s, a, b, true);
    ReachesStep(c, INITIAL, s, Commit(0, true));
    s := Apply(c, s, Commit(0, true));
  }
}
