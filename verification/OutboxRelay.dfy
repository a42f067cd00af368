/**
  One relay draining a table nobody else touches: the drain loops and the gauge
  of parked rows, as a class over the table. `sys` is the state of the replicated
  protocol with this relay as number 0: every access is a step of it, so a pass,
  whether it commits, is rolled back or never gets its rows, is a path of it.

  `Env` is what the outside world answers: the k-th `Publish` call, the k-th
  row update, and the query, commit and context of the p-th pass.
 */
module OutboxRelay {
  import opened Basics
  import opened OutboxTable
  import P = OutboxProtocol

  datatype Env = Env(
    reply: nat -> Option<string>,
    execOk: nat -> bool,
    queryOk: nat -> bool,
    commitOk: nat -> bool,
    live: nat -> bool)

  // ------------------------------------------------------------ the drain query

  method Oldest(t: Table, ids: set<RowId>) returns (oldest: RowId)
    requires ids != {} && ids <= t.Keys
    ensures oldest in ids
    ensures forall id :: id in ids ==> t[oldest].createdAt <= t[id].createdAt
  {
    oldest := Choose(ids);
    var rest := ids - {oldest};
    while rest != {}
      invariant rest <= ids && oldest in ids
      invariant forall id :: id in ids - rest ==> t[oldest].createdAt <= t[id].createdAt
      decreases |rest|
    {
      var id := Choose(rest);
      if t[id].createdAt < t[oldest].createdAt { oldest := id; }
      rest := rest - {id};
    }
  }

  /** The drain query has an answer for every table, set of locked rows and limit. */
  method SelectPending(t: Table, locked: set<RowId>, limit: nat, maxRetry: nat) returns (batch: seq<RowId>)
    ensures DrainBatch(t, locked, limit, maxRetry, batch)
  {
    var rest := set id | id in t && id !in locked && Eligible(t[id], maxRetry);
    batch := [];
    while |batch| < limit && rest != {}
      invariant |batch| <= limit && Distinct(batch)
      invariant forall i :: 0 <= i < |batch| ==>
                  batch[i] in t && batch[i] !in locked && batch[i] !in rest && Eligible(t[batch[i]], maxRetry)
      invariant forall id :: id in rest ==> id in t && id !in locked && Eligible(t[id], maxRetry)
      invariant forall id :: id in t && id !in locked && Eligible(t[id], maxRetry) && id !in batch ==> id in rest
      invariant forall i, j :: 0 <= i < j < |batch| ==> t[batch[i]].createdAt <= t[batch[j]].createdAt
      invariant forall i, id :: 0 <= i < |batch| && id in rest ==> t[batch[i]].createdAt <= t[id].createdAt
      decreases |rest|
    {
      var id := Oldest(t, rest);
      batch := batch + [id];
      rest := rest - {id};
    }
  }

  // --------------------------------------------------------------- one pass

  type Reply = Option<string>

  /** `u` is `t` after the rows of `batch` were handled once each, the i-th with the i-th reply. */
  ghost predicate Drained(t: Table, batch: seq<RowId>, replies: seq<Reply>, u: Table) {
    && |batch| == |replies|
    && u.Keys == t.Keys
    && (forall i :: 0 <= i < |batch| ==> batch[i] in t && u[batch[i]] == Handle(t[batch[i]], replies[i]))
    && (forall id :: id in t && id !in batch ==> u[id] == t[id])
  }

  /** Those of the first n rows whose publish was acknowledged, in order. */
  function Acked(batch: seq<RowId>, replies: seq<Reply>, n: nat): seq<RowId>
    requires n <= |batch| && n <= |replies|
  {
    if n == 0 then []
    else Acked(batch, replies, n - 1) + (if replies[n - 1].None? then [batch[n - 1]] else [])
  }

  lemma AckedMore(batch: seq<RowId>, replies: seq<Reply>, n: nat, out: seq<RowId>, acked: bool)
    requires n < |batch| && n < |replies| && out == Acked(batch, replies, n) && acked == replies[n].None?
    ensures Acked(batch, replies, n + 1) == if acked then out + [batch[n]] else out
  {}

  ghost predicate RowsOf(batch: seq<RowId>, table: Table) {
    Distinct(batch) && Elements(batch) <= table.Keys
  }

  /** The updates of the first n rows, and no others. */
  ghost predicate Holds(table: Table, written: map<RowId, Row>, batch: seq<RowId>, replies: seq<Reply>, n: nat) {
    && n <= |batch| && n <= |replies|
    && (forall i :: 0 <= i < n ==>
          batch[i] in table && batch[i] in written && written[batch[i]] == Handle(table[batch[i]], replies[i]))
    && (forall id :: id in written ==> id in batch)
  }

  lemma HoldsMore(table: Table, written: map<RowId, Row>, batch: seq<RowId>, replies: seq<Reply>, n: nat)
    requires n < |batch| && n < |replies| && Distinct(batch) && batch[n] in table
    requires Holds(table, written, batch, replies, n)
    ensures Holds(table, written[batch[n] := Handle(table[batch[n]], replies[n])], batch, replies, n + 1)
  {}

  lemma HoldsIsDrained(table: Table, written: map<RowId, Row>, batch: seq<RowId>, replies: seq<Reply>)
    requires Holds(table, written, batch, replies, |batch|) && |replies| == |batch|
    ensures Drained(table, batch, replies, table + written)
  {}

  // ------------------------------------------------------- the retry budget

  function Weight(row: Row, maxRetry: nat): nat {
    if Eligible(row, maxRetry) then maxRetry - row.attempts else 0
  }

  /** Publish attempts the rows `ids` may still see. */
  ghost function Budget(t: Table, ids: set<RowId>, maxRetry: nat): nat
    requires ids <= t.Keys
  {
    if ids == {} then 0
    else
      var id := Pick(ids);
      Weight(t[id], maxRetry) + Budget(t, ids - {id}, maxRetry)
  }

  lemma {:induction false} BudgetSplit(t: Table, ids: set<RowId>, maxRetry: nat, id: RowId)
    requires ids <= t.Keys && id in ids
    ensures Budget(t, ids, maxRetry) == Weight(t[id], maxRetry) + Budget(t, ids - {id}, maxRetry)
    decreases |ids|
  {
    var x := Pick(ids);
    if x != id {
      BudgetSplit(t, ids - {x}, maxRetry, id);
      BudgetSplit(t, ids - {id}, maxRetry, x);
      assert ids - {x} - {id} == ids - {id} - {x};
    }
  }

  lemma {:induction false} BudgetMonotone(t: Table, u: Table, ids: set<RowId>, maxRetry: nat)
    requires ids <= t.Keys && ids <= u.Keys
    requires forall id :: id in ids ==> Weight(u[id], maxRetry) <= Weight(t[id], maxRetry)
    ensures Budget(u, ids, maxRetry) <= Budget(t, ids, maxRetry)
    decreases |ids|
  {
    if ids != {} {
      var id := Pick(ids);
      BudgetSplit(t, ids, maxRetry, id);
      BudgetSplit(u, ids, maxRetry, id);
      BudgetMonotone(t, u, ids - {id}, maxRetry);
    }
  }

  /** Every non-empty pass spends budget, whether its publishes succeed or fail. */
  lemma PassSpendsBudget(t: Table, u: Table, batch: seq<RowId>, replies: seq<Reply>, maxRetry: nat)
    requires batch != [] && Drained(t, batch, replies, u)
    requires forall i :: 0 <= i < |batch| ==> Eligible(t[batch[i]], maxRetry)
    ensures Budget(u, u.Keys, maxRetry) < Budget(t, t.Keys, maxRetry)
  {
    forall id | id in t ensures Weight(u[id], maxRetry) <= Weight(t[id], maxRetry) {
      if id in batch {
        var i :| 0 <= i < |batch| && batch[i] == id;
        assert u[batch[i]] == Handle(t[batch[i]], replies[i]);
      }
    }
    var id := batch[0];
    assert u[batch[0]] == Handle(t[batch[0]], replies[0]);
    BudgetSplit(t, t.Keys, maxRetry, id);
    BudgetSplit(u, t.Keys, maxRetry, id);
    BudgetMonotone(t, u, t.Keys - {id}, maxRetry);
  }

  // ------------------------------------------------------------ parked rows

  /** A label of the gauge. `None` stands for the empty string under which platform-global
      rows are counted; no uuid prints as the empty string. */
  type Label = Option<TenantId>

  function ParkedRows(t: Table, maxRetry: nat, tenant: Label): set<RowId> {
    set id | id in t && Parked(t[id], maxRetry) && t[id].event.tenant == tenant
  }

  /** The gauge shows exactly the tenants that have parked rows, each with its count. */
  ghost predicate GaugeExact(t: Table, maxRetry: nat, gauge: map<Label, nat>) {
    forall tenant ::
      if ParkedRows(t, maxRetry, tenant) == {} then tenant !in gauge
      else tenant in gauge && gauge[tenant] == |ParkedRows(t, maxRetry, tenant)|
  }

  /** An answer of the GROUP BY query: one pair per tenant with parked rows, in any order. */
  datatype Group = Group(tenant: Label, count: nat)

  ghost predicate ParkedGroups(t: Table, maxRetry: nat, groups: seq<Group>) {
    && (forall i, j :: 0 <= i < j < |groups| ==> groups[i].tenant != groups[j].tenant)
    && (forall i :: 0 <= i < |groups| ==>
          && ParkedRows(t, maxRetry, groups[i].tenant) != {}
          && groups[i].count == |ParkedRows(t, maxRetry, groups[i].tenant)|)
    && (forall tenant :: ParkedRows(t, maxRetry, tenant) != {} ==> Listed(groups, tenant))
  }

  ghost predicate Listed(groups: seq<Group>, tenant: Label) {
    exists i :: 0 <= i < |groups| && groups[i].tenant == tenant
  }

  lemma ListedMore(groups: seq<Group>, g: Group)
    ensures forall tenant :: Listed(groups + [g], tenant) <==> Listed(groups, tenant) || tenant == g.tenant
  {
    var more := groups + [g];
    forall tenant | Listed(groups, tenant) ensures Listed(more, tenant) {
      var i :| 0 <= i < |groups| && groups[i].tenant == tenant;
      assert more[i].tenant == tenant;
    }
    assert more[|groups|].tenant == g.tenant;
  }

  method QueryParked(t: Table, maxRetry: nat) returns (groups: seq<Group>)
    ensures ParkedGroups(t, maxRetry, groups)
  {
    groups := [];
    var rest := set id | id in t && Parked(t[id], maxRetry) :: t[id].event.tenant;
    assert forall tenant :: ParkedRows(t, maxRetry, tenant) != {} ==> tenant in rest by {
      forall tenant | ParkedRows(t, maxRetry, tenant) != {} ensures tenant in rest {
        var id := Pick(ParkedRows(t, maxRetry, tenant));
      }
    }
    while rest != {}
      invariant forall i, j :: 0 <= i < j < |groups| ==> groups[i].tenant != groups[j].tenant
      invariant forall i :: 0 <= i < |groups| ==>
                  && groups[i].tenant !in rest
                  && ParkedRows(t, maxRetry, groups[i].tenant) != {}
                  && groups[i].count == |ParkedRows(t, maxRetry, groups[i].tenant)|
      invariant forall tenant :: tenant in rest ==>
                  exists id :: id in t && Parked(t[id], maxRetry) && t[id].event.tenant == tenant
      invariant forall tenant :: ParkedRows(t, maxRetry, tenant) != {} ==> tenant in rest || Listed(groups, tenant)
      decreases |rest|
    {
      var tenant := Choose(rest);
      ghost var id :| id in t && Parked(t[id], maxRetry) && t[id].event.tenant == tenant;
      assert id in ParkedRows(t, maxRetry, tenant);
      ListedMore(groups, Group(tenant, |ParkedRows(t, maxRetry, tenant)|));
      groups := groups + [Group(tenant, |ParkedRows(t, maxRetry, tenant)|)];
      rest := rest - {tenant};
    }
  }

  /** The gauge holds every group's count, and `labels` are exactly the groups' labels. */
  ghost predicate Shown(groups: seq<Group>, n: nat, g: map<Label, nat>, labels: set<Label>)
    requires n <= |groups|
  {
    && labels <= g.Keys
    && (forall i :: 0 <= i < n ==> groups[i].tenant in labels)
    && (forall i :: 0 <= i < n ==> groups[i].tenant in g && g[groups[i].tenant] == groups[i].count)
    && (forall tenant :: tenant in labels ==> Listed(groups, tenant))
  }

  method SetLabels(groups: seq<Group>, gauge: map<Label, nat>) returns (g: map<Label, nat>, current: set<Label>)
    requires forall i, j :: 0 <= i < j < |groups| ==> groups[i].tenant != groups[j].tenant
    ensures Shown(groups, |groups|, g, current)
    ensures g.Keys == gauge.Keys + current
  {
    g, current := gauge, {};
    for i := 0 to |groups|
      invariant g.Keys == gauge.Keys + current
      invariant Shown(groups, i, g, current)
    {
      assert Listed(groups, groups[i].tenant);
      current := current + {groups[i].tenant};
      g := g[groups[i].tenant := groups[i].count];
    }
  }

  method DropStale(gauge: map<Label, nat>, tracked: set<Label>, current: set<Label>) returns (g: map<Label, nat>)
    requires gauge.Keys == tracked + current
    ensures g.Keys == current
    ensures forall l :: l in current ==> g[l] == gauge[l]
  {
    g := gauge;
    var stale := tracked - current;
    while stale != {}
      invariant stale <= tracked - current && g.Keys == current + stale
      invariant forall l :: l in current ==> g[l] == gauge[l]
      decreases |stale|
    {
      var l := Choose(stale);
      g := g - {l};
      stale := stale - {l};
    }
  }

  lemma ShownIsExact(t: Table, maxRetry: nat, groups: seq<Group>, g: map<Label, nat>)
    requires ParkedGroups(t, maxRetry, groups) && Shown(groups, |groups|, g, g.Keys)
    ensures GaugeExact(t, maxRetry, g)
  {
    forall tenant
      ensures if ParkedRows(t, maxRetry, tenant) == {} then tenant !in g
              else tenant in g && g[tenant] == |ParkedRows(t, maxRetry, tenant)|
    {
      if ParkedRows(t, maxRetry, tenant) != {} {
        assert Listed(groups, tenant);
      }
    }
  }

  // ------------------------------------------- order of the publishes over passes

  /** No row twice, oldest first. */
  ghost predicate InOrder(t: Table, out: seq<RowId>) {
    && Distinct(out)
    && (forall i :: 0 <= i < |out| ==> out[i] in t)
    && (forall i, j :: 0 <= i < j < |out| ==> t[out[i]].createdAt <= t[out[j]].createdAt)
  }

  /** Draining `t0` has so far sent `out` and left `t`, every publish being acknowledged. */
  ghost predicate Progress(t0: Table, t: Table, maxRetry: nat, out: seq<RowId>) {
    && t.Keys == t0.Keys
    && InOrder(t0, out)
    && (forall id :: id in out ==> Eligible(t0[id], maxRetry) && !Eligible(t[id], maxRetry))
    && (forall id :: id in t && Eligible(t[id], maxRetry) ==>
          t[id] == t0[id] && forall i :: 0 <= i < |out| ==> t0[out[i]].createdAt <= t0[id].createdAt)
    && (forall id :: id in t0 && Eligible(t0[id], maxRetry) ==> Eligible(t[id], maxRetry) || id in out)
  }

  lemma {:induction false} AckedAll(batch: seq<RowId>, replies: seq<Reply>, n: nat)
    requires n <= |batch| && n <= |replies| && forall i :: 0 <= i < n ==> replies[i].None?
    ensures Acked(batch, replies, n) == batch[..n]
  {
    if n > 0 {
      AckedAll(batch, replies, n - 1);
      assert batch[..n] == batch[..n - 1] + [batch[n - 1]];
    }
  }

  /** A batch continues the order, whether or not its transaction commits. */
  lemma BatchInOrder(t0: Table, t: Table, limit: nat, maxRetry: nat, out: seq<RowId>, batch: seq<RowId>)
    requires Progress(t0, t, maxRetry, out) && DrainBatch(t, {}, limit, maxRetry, batch)
    ensures InOrder(t0, out + batch)
  {
    var more := out + batch;
    forall i, j | 0 <= i < j < |more|
      ensures more[i] != more[j] && more[i] in t0 && more[j] in t0 && t0[more[i]].createdAt <= t0[more[j]].createdAt
    {
      if i < |out| && |out| <= j {
        assert out[i] in out && Eligible(t[batch[j - |out|]], maxRetry);
      }
    }
  }

  lemma PassProgress(t0: Table, t: Table, limit: nat, maxRetry: nat, out: seq<RowId>,
                     batch: seq<RowId>, replies: seq<Reply>, u: Table)
    requires Progress(t0, t, maxRetry, out) && DrainBatch(t, {}, limit, maxRetry, batch)
    requires Drained(t, batch, replies, u) && forall i :: 0 <= i < |replies| ==> replies[i].None?
    ensures Progress(t0, u, maxRetry, out + batch)
  {
    BatchInOrder(t0, t, limit, maxRetry, out, batch);
    var more := out + batch;
    forall id | id in t
      ensures id in batch ==> u[id].published && Eligible(t0[id], maxRetry) && id in more
      ensures id !in batch ==> u[id] == t[id]
    {
      if id in batch {
        var i :| 0 <= i < |batch| && batch[i] == id;
        assert u[batch[i]] == Handle(t[batch[i]], replies[i]);
        assert more[|out| + i] == id;
      }
    }
    forall id | id in u && Eligible(u[id], maxRetry)
      ensures u[id] == t0[id] && forall i :: 0 <= i < |more| ==> t0[more[i]].createdAt <= t0[id].createdAt
    {
      assert id !in batch && Eligible(t[id], maxRetry);
    }
    forall id | id in t0 && Eligible(t0[id], maxRetry) ensures Eligible(u[id], maxRetry) || id in more {
      if id in out {
        assert id in more;
      }
    }
  }

  ghost predicate AllEvolve(t0: Table, t: Table) {
    t.Keys == t0.Keys && forall id :: id in t ==> P.Evolves(t0[id], t[id])
  }

  lemma PassEvolves(t0: Table, t: Table, batch: seq<RowId>, replies: seq<Reply>, u: Table, maxRetry: nat)
    requires AllEvolve(t0, t) && Drained(t, batch, replies, u)
    requires forall i :: 0 <= i < |batch| ==> Eligible(t[batch[i]], maxRetry)
    ensures AllEvolve(t0, u)
  {
    forall id | id in t ensures P.Evolves(t[id], u[id]) {
      if id in batch {
        var i :| 0 <= i < |batch| && batch[i] == id;
        assert u[batch[i]] == Handle(t[batch[i]], replies[i]);
      }
    }
  }

  ghost predicate AllAcked(env: Env) {
    forall k :: env.reply(k) == None
  }

  ghost predicate AllExec(env: Env, k: nat, n: nat) {
    forall i :: k <= i < k + n ==> env.execOk(i)
  }

  /** What a drain of `t0` that left `t` and sent `out` has achieved; `done` if it came to an end. */
  ghost predicate Outcome(env: Env, t0: Table, t: Table, maxRetry: nat, out: seq<RowId>, done: bool) {
    && AllEvolve(t0, t)
    && (done ==> forall id :: id in t ==> t[id].published || t[id].attempts >= maxRetry)
    // With a broker that acknowledges everything, rows go out oldest first over all
    // batches, each once; at the end exactly the eligible rows have gone out.
    && (AllAcked(env) ==> InOrder(t0, out))
    && (AllAcked(env) && done ==> forall id :: id in out <==> id in t0 && Eligible(t0[id], maxRetry))
  }

  /** The state between two passes. */
  ghost predicate Underway(env: Env, t0: Table, t: Table, maxRetry: nat, out: seq<RowId>) {
    AllEvolve(t0, t) && (AllAcked(env) ==> Progress(t0, t, maxRetry, out))
  }

  /** What one pass makes of it: `t` if it was rolled back, otherwise `u`. */
  lemma AfterPass(env: Env, t0: Table, t: Table, limit: nat, maxRetry: nat, out: seq<RowId>,
                  batch: seq<RowId>, replies: seq<Reply>, u: Table)
    requires Underway(env, t0, t, maxRetry, out) && DrainBatch(t, {}, limit, maxRetry, batch)
    requires |replies| == |batch| && (AllAcked(env) ==> forall i :: 0 <= i < |replies| ==> replies[i].None?)
    ensures Outcome(env, t0, t, maxRetry, out + Acked(batch, replies, |batch|), false)
    ensures Drained(t, batch, replies, u) ==> Underway(env, t0, u, maxRetry, out + Acked(batch, replies, |batch|))
    ensures Drained(t, batch, replies, u) && batch != [] ==> Budget(u, u.Keys, maxRetry) < Budget(t, t.Keys, maxRetry)
    ensures batch == [] && limit > 0 ==> Outcome(env, t0, t, maxRetry, out, true)
  {
    if AllAcked(env) {
      AckedAll(batch, replies, |batch|);
      assert batch[..|batch|] == batch;
      BatchInOrder(t0, t, limit, maxRetry, out, batch);
    }
    if Drained(t, batch, replies, u) {
      PassEvolves(t0, t, batch, replies, u, maxRetry);
      if batch != [] { PassSpendsBudget(t, u, batch, replies, maxRetry); }
      if AllAcked(env) { PassProgress(t0, t, limit, maxRetry, out, batch, replies, u); }
    }
  }

  // ------------------------------------------- the transaction in the protocol

  /** Relay 0's transaction: rows still to handle, updates so far, and whether one has failed. */
  ghost predicate InTx(m: P.Sys, table: Table, todo: seq<RowId>, written: map<RowId, Row>, aborted: bool) {
    && m.table == table && m.open.Keys == {0}
    && m.open[0].todo == todo && m.open[0].written == written && m.open[0].aborted == aborted
  }

  lemma TxBegin(c: P.Config, env: Env, s: P.Sys, k: nat, batch: seq<RowId>, replies: seq<Reply>) returns (next: P.Sys)
    requires s.open == map[] && DrainBatch(s.table, {}, c.batchSize, c.maxRetry, batch)
    ensures MidBatch(c, env, s, next, k, s.table, batch, replies, 0, map[], false)
  {
    P.ReachesSelf(c, s);
    assert batch[0..] == batch;
    assert P.Locked(s) == {};
    P.ReachesStep(c, s, s, P.Select(0, batch));
    next := P.Selected(s, 0, batch);
  }

  lemma TxPublish(c: P.Config, start: P.Sys, m: P.Sys, table: Table, id: RowId, todo: seq<RowId>,
                  written: map<RowId, Row>, aborted: bool, reply: Reply, execOk: bool) returns (next: P.Sys)
    requires id in table && InTx(m, table, [id] + todo, written, aborted) && P.Reaches(c, start, m)
    ensures P.Reaches(c, start, next)
    ensures if aborted || !execOk then InTx(next, table, todo, written, true)
            else InTx(next, table, todo, written[id := Handle(table[id], reply)], false)
  {
    assert ([id] + todo)[1..] == todo;
    P.ReachesStep(c, start, m, P.Publish(0, reply, execOk));
    next := P.Published(m, 0, reply, execOk);
  }

  /** The first n rows of the batch have been handled, beginning with the k-th call. */
  ghost predicate Handled(env: Env, k: nat, table: Table, batch: seq<RowId>, replies: seq<Reply>, n: nat,
                          written: map<RowId, Row>, aborted: bool)
  {
    (!aborted <==> AllExec(env, k, n)) && (!aborted ==> Holds(table, written, batch, replies, n))
  }

  lemma HandledMore(env: Env, k: nat, table: Table, batch: seq<RowId>, replies: seq<Reply>, n: nat,
                    written: map<RowId, Row>, aborted: bool, w: map<RowId, Row>)
    requires n < |batch| && n < |replies| && Distinct(batch) && batch[n] in table
    requires Handled(env, k, table, batch, replies, n, written, aborted)
    requires !aborted && env.execOk(k + n) ==> w == written[batch[n] := Handle(table[batch[n]], replies[n])]
    ensures Handled(env, k, table, batch, replies, n + 1, w, aborted || !env.execOk(k + n))
  {
    if !aborted {
      HoldsMore(table, written, batch, replies, n);
    }
  }

  function Replies(env: Env, k: nat, n: nat): seq<Reply> {
    seq(n, i requires 0 <= i => env.reply(k + i))
  }

  /** The transaction after n rows, in the relay and in the protocol. */
  ghost predicate MidBatch(c: P.Config, env: Env, start: P.Sys, m: P.Sys, k: nat, table: Table,
                           batch: seq<RowId>, replies: seq<Reply>, n: nat, written: map<RowId, Row>, aborted: bool)
    requires n <= |batch|
  {
    && P.Reaches(c, start, m) && InTx(m, table, batch[n..], written, aborted)
    && Handled(env, k, table, batch, replies, n, written, aborted)
  }

  lemma MidBatchStep(c: P.Config, env: Env, start: P.Sys, m: P.Sys, k: nat, table: Table,
                     batch: seq<RowId>, replies: seq<Reply>, n: nat, written: map<RowId, Row>, aborted: bool)
    returns (next: P.Sys)
    requires n < |batch| == |replies| && Distinct(batch) && batch[n] in table
    requires MidBatch(c, env, start, m, k, table, batch, replies, n, written, aborted)
    ensures var bad := aborted || !env.execOk(k + n);
            MidBatch(c, env, start, next, k, table, batch, replies, n + 1,
                     if bad then written else written[batch[n] := Handle(table[batch[n]], replies[n])], bad)
  {
    var bad := aborted || !env.execOk(k + n);
    var w := if bad then written else written[batch[n] := Handle(table[batch[n]], replies[n])];
    assert batch[n..] == [batch[n]] + batch[n + 1..];
    next := TxPublish(c, start, m, table, batch[n], batch[n + 1..], written, aborted, replies[n], env.execOk(k + n));
    HandledMore(env, k, table, batch, replies, n, written, aborted, w);
  }

  lemma TxEnd(c: P.Config, env: Env, start: P.Sys, m: P.Sys, k: nat, table: Table, batch: seq<RowId>,
              replies: seq<Reply>, written: map<RowId, Row>, aborted: bool, commitOk: bool) returns (next: P.Sys)
    requires |replies| == |batch|
    requires MidBatch(c, env, start, m, k, table, batch, replies, |batch|, written, aborted)
    ensures P.Reaches(c, start, next) && next.open == map[]
    ensures next.table == if !aborted && commitOk then table + written else table
    ensures !aborted <==> AllExec(env, k, |batch|)
    ensures !aborted ==> Drained(table, batch, replies, table + written)
  {
    P.ReachesStep(c, start, m, P.Commit(0, commitOk));
    next := P.Apply(c, m, P.Commit(0, commitOk));
    if !aborted {
      HoldsIsDrained(table, written, batch, replies);
    }
  }

  // -------------------------------------------------------------- the relay

  class Relay {
    const batchSize: nat
    const maxRetry: nat
    const metered: bool         // whether a gauge is configured
    var table: Table
    var calls: nat              // Publish calls so far
    var passes: nat             // drain passes so far
    var sent: seq<RowId>        // acknowledged publishes, in order
    var gauge: map<Label, nat>
    var tracked: set<Label>
    ghost var sys: P.Sys

    ghost predicate Valid()
      reads this
    {
      batchSize > 0 && maxRetry > 0 && gauge.Keys == tracked && sys.table == table && sys.open == map[]
    }

    function Conf(): P.Config {
      P.Config(batchSize, maxRetry)
    }

    constructor (batchSize: int, maxRetry: int, metered: bool, table: Table, ghost sys: P.Sys)
      requires sys.table == table && sys.open == map[]
      ensures Valid() && this.table == table && this.sys == sys && gauge == map[] && this.metered == metered
      ensures this.batchSize == (if batchSize <= 0 then 100 else batchSize)
      ensures this.maxRetry == (if maxRetry <= 0 then 10 else maxRetry)
    {
      this.batchSize := if batchSize <= 0 then 100 else batchSize;
      this.maxRetry := if maxRetry <= 0 then 10 else maxRetry;
      this.metered, this.table, this.sys := metered, table, sys;
      calls, passes, sent, gauge, tracked := 0, 0, [], map[], {};
    }

    /** Publish one row and record the outcome. A failed update is only logged; it spoils the transaction. */
    method HandleRow(env: Env, id: RowId, written: map<RowId, Row>, aborted: bool,
                     ghost start: P.Sys, ghost k: nat, ghost batch: seq<RowId>, ghost replies: seq<Reply>, ghost n: nat)
      returns (w: map<RowId, Row>, bad: bool, acked: bool)
      requires n < |batch| && Distinct(batch) && id == batch[n] && id in table
      requires calls == k + n && replies == Replies(env, k, |batch|)
      requires MidBatch(Conf(), env, start, sys, k, table, batch, replies, n, written, aborted)
      modifies `calls, `sys
      ensures MidBatch(Conf(), env, start, sys, k, table, batch, replies, n + 1, w, bad)
      ensures calls == k + n + 1 && acked == replies[n].None?
    {
      var reply, execOk := env.reply(calls), env.execOk(calls);
      calls := calls + 1;
      acked := reply.None?;
      assert reply == replies[n];
      bad := aborted || !execOk;
      w := if bad then written else written[id := Handle(table[id], reply)];
      sys := MidBatchStep(Conf(), env, start, sys, k, table, batch, replies, n, written, aborted);
    }

    /** The i-th row of the batch. */
    method HandleNext(env: Env, batch: seq<RowId>, i: nat, written: map<RowId, Row>, aborted: bool, out: seq<RowId>,
                      ghost start: P.Sys, ghost k: nat, ghost replies: seq<Reply>)
      returns (w: map<RowId, Row>, bad: bool, more: seq<RowId>)
      requires i < |batch| && RowsOf(batch, table) && calls == k + i && replies == Replies(env, k, |batch|)
      requires MidBatch(Conf(), env, start, sys, k, table, batch, replies, i, written, aborted)
      requires out == Acked(batch, replies, i)
      modifies `calls, `sys
      ensures MidBatch(Conf(), env, start, sys, k, table, batch, replies, i + 1, w, bad)
      ensures calls == k + i + 1 && more == Acked(batch, replies, i + 1)
    {
      assert batch[i] in Elements(batch);
      var acked;
      w, bad, acked := HandleRow(env, batch[i], written, aborted, start, k, batch, replies, i);
      AckedMore(batch, replies, i, out, acked);
      more := if acked then out + [batch[i]] else out;
    }

    /** The loop over the batch, row by row, inside the transaction. */
    method HandleBatch(env: Env, batch: seq<RowId>, ghost replies: seq<Reply>, ghost start: P.Sys, ghost k: nat)
      returns (written: map<RowId, Row>, aborted: bool, out: seq<RowId>)
      requires RowsOf(batch, table) && calls == k && replies == Replies(env, k, |batch|)
      requires MidBatch(Conf(), env, start, sys, k, table, batch, replies, 0, map[], false)
      modifies `calls, `sys
      ensures MidBatch(Conf(), env, start, sys, k, table, batch, replies, |batch|, written, aborted)
      ensures calls == k + |batch| && out == Acked(batch, replies, |batch|)
    {
      written, aborted, out := map[], false, [];
      for i := 0 to |batch|
        invariant MidBatch(Conf(), env, start, sys, k, table, batch, replies, i, written, aborted)
        invariant calls == k + i && out == Acked(batch, replies, i)
      {
        written, aborted, out := HandleNext(env, batch, i, written, aborted, out, start, k, replies);
      }
    }

    /** The transaction over a batch, up to its commit. */
    method PublishBatch(env: Env, batch: seq<RowId>, ghost replies: seq<Reply>)
      returns (written: map<RowId, Row>, aborted: bool)
      requires sys.table == table && sys.open == map[] && DrainBatch(table, {}, batchSize, maxRetry, batch)
      requires replies == Replies(env, calls, |batch|)
      modifies `calls, `sent, `sys
      ensures MidBatch(Conf(), env, old(sys), sys, old(calls), table, batch, replies, |batch|, written, aborted)
      ensures calls == old(calls) + |batch| && sent == old(sent) + Acked(batch, replies, |batch|)
    {
      sys := TxBegin(Conf(), env, sys, calls, batch, replies);
      var out;
      written, aborted, out := HandleBatch(env, batch, replies, old(sys), calls);
      sent := sent + out;
    }

    /** Keep the updates of a batch, unless one of them or the commit failed. */
    method EndTx(env: Env, ghost start: P.Sys, ghost k: nat, ghost batch: seq<RowId>, ghost replies: seq<Reply>,
                 written: map<RowId, Row>, aborted: bool, commitOk: bool) returns (ok: bool)
      requires |replies| == |batch|
      requires MidBatch(Conf(), env, start, sys, k, table, batch, replies, |batch|, written, aborted)
      modifies `table, `sys
      ensures sys.table == table && sys.open == map[] && P.Reaches(Conf(), start, sys)
      ensures ok <==> commitOk && AllExec(env, k, |batch|)
      ensures if ok then Drained(old(table), batch, replies, table) else table == old(table)
    {
      ok := !aborted && commitOk;
      sys := TxEnd(Conf(), env, start, sys, k, table, batch, replies, written, aborted, commitOk);
      if ok {
        table := table + written;
      }
    }

    /** The whole transaction over a batch. */
    method RunTx(env: Env, batch: seq<RowId>, ghost replies: seq<Reply>, commitOk: bool) returns (ok: bool)
      requires Valid() && DrainBatch(table, {}, batchSize, maxRetry, batch) && replies == Replies(env, calls, |batch|)
      modifies `table, `calls, `sent, `sys
      ensures Valid() && P.Reaches(Conf(), old(sys), sys)
      ensures calls == old(calls) + |batch| && sent == old(sent) + Acked(batch, replies, |batch|)
      ensures ok <==> commitOk && AllExec(env, old(calls), |batch|)
      ensures if ok then Drained(old(table), batch, replies, table) else table == old(table)
    {
      var written, aborted := PublishBatch(env, batch, replies);
      ok := EndTx(env, old(sys), old(calls), batch, replies, written, aborted, commitOk);
    }

    /** One pass in one transaction: all of it, or nothing but the publishes. */
    method DrainOnce(env: Env) returns (n: nat, ok: bool, ghost batch: seq<RowId>, ghost replies: seq<Reply>)
      requires Valid()
      modifies `table, `calls, `passes, `sent, `sys
      ensures Valid() && P.Reaches(Conf(), old(sys), sys) && passes == old(passes) + 1
      ensures DrainBatch(old(table), {}, batchSize, maxRetry, batch)
      ensures |replies| == |batch| && forall i :: 0 <= i < |replies| ==> replies[i] == env.reply(old(calls) + i)
      ensures ok ==> n == |batch| && Drained(old(table), batch, replies, table)
      ensures !ok ==> n == 0 && table == old(table)
      ensures ok <==> env.queryOk(old(passes)) && env.commitOk(old(passes)) && AllExec(env, old(calls), |batch|)
      ensures if env.queryOk(old(passes))
              then calls == old(calls) + |batch| && sent == old(sent) + Acked(batch, replies, |batch|)
              else calls == old(calls) && sent == old(sent)
    {
      var pass := passes;
      passes := passes + 1;
      var selected := SelectPending(table, {}, batchSize, maxRetry);
      batch, replies := selected, Replies(env, calls, |selected|);
      if !env.queryOk(pass) {
        P.ReachesSelf(Conf(), sys);
        return 0, false, batch, replies;
      }
      ok := RunTx(env, selected, replies, env.commitOk(pass));
      n := if ok then |selected| else 0;
    }

    /** One pass of a drain that began at `t0` and `start` and has sent `out` so far. */
    method DrainPass(env: Env, ghost t0: Table, ghost out: seq<RowId>, ghost start: P.Sys)
      returns (n: nat, ok: bool, ghost more: seq<RowId>)
      requires Valid() && P.Reaches(Conf(), start, sys) && Underway(env, t0, table, maxRetry, out)
      modifies `table, `calls, `passes, `sent, `sys
      ensures Valid() && P.Reaches(Conf(), start, sys) && sent == old(sent) + more
      ensures !ok ==> Outcome(env, t0, table, maxRetry, out + more, false)
      ensures ok ==> Underway(env, t0, table, maxRetry, out + more)
      ensures ok && n > 0 ==> Budget(table, table.Keys, maxRetry) < Budget(old(table), old(table).Keys, maxRetry)
      ensures ok && n == 0 ==> Outcome(env, t0, table, maxRetry, out + more, true)
    {
      ghost var queried := env.queryOk(passes);
      ghost var batch, replies;
      n, ok, batch, replies := DrainOnce(env);
      P.ReachesOn(Conf(), start, old(sys), sys);
      AfterPass(env, t0, old(table), batchSize, maxRetry, out, batch, replies, table);
      more := if queried then Acked(batch, replies, |batch|) else [];
      assert out + [] == out;
    }

    /** Drain until a pass finds nothing. The loop ends because every pass spends retry budget. */
    method DrainUntilEmpty(env: Env) returns (ok: bool, ghost out: seq<RowId>)
      requires Valid()
      modifies `table, `calls, `passes, `sent, `sys
      ensures Valid() && P.Reaches(Conf(), old(sys), sys) && sent == old(sent) + out
      ensures Outcome(env, old(table), table, maxRetry, out, ok)
    {
      out := [];
      P.ReachesSelf(Conf(), sys);
      while true
        invariant Valid() && P.Reaches(Conf(), old(sys), sys) && sent == old(sent) + out
        invariant Underway(env, old(table), table, maxRetry, out)
        decreases Budget(table, table.Keys, maxRetry)
      {
        var n, passed, more := DrainPass(env, old(table), out, old(sys));
        out := out + more;
        if !passed {
          return false, out;
        }
        if n == 0 {
          return true, out;
        }
        if !env.live(passes) {
          return false, out;
        }
      }
    }

    /** Refresh the gauge, if there is one; `queryOk` is false when the scan failed. */
    method PollOnce(queryOk: bool) returns (ok: bool)
      requires Valid()
      modifies `gauge, `tracked
      ensures Valid() && ok == (!metered || queryOk)
      ensures !metered || !ok ==> gauge == old(gauge) && tracked == old(tracked)
      ensures metered && ok ==> GaugeExact(table, maxRetry, gauge)
    {
      if !metered {
        return true;
      }
      if !queryOk {
        return false;
      }
      var groups := QueryParked(table, maxRetry);
      var shown, current := SetLabels(groups, gauge);
      gauge := DropStale(shown, tracked, current);
      tracked := current;
      ShownIsExact(table, maxRetry, groups, gauge);
      return true;
    }
  }
}
