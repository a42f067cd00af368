/**
  The `event_outbox` table (migrations/000002_outbox.up.sql) and the queries of
  the relay over it: which rows a drain selects, how a publish outcome is
  written back, and which rows count as parked.
 */
module OutboxTable {
  import opened Basics

  /** The BIGSERIAL primary key. */
  datatype RowId = RowId(n: nat)

  datatype TenantId = TenantId(uuid: nat)

  datatype Event = Event(tenant: Option<TenantId>, subject: string, payload: string)

  datatype Row = Row(
    event: Event,
    createdAt: nat,
    published: bool,            // published_at IS NOT NULL
    attempts: nat,
    lastError: Option<string>)

  type Table = map<RowId, Row>

  /** The writer's pre-flight check. JSON well-formedness of the payload is not modelled. */
  predicate ValidEvent(ev: Event) {
    ev.subject != "" && ev.payload != ""
  }

  function NewRow(ev: Event, now: nat): Row {
    Row(ev, now, false, 0, None)
  }

  const MAX_LAST_ERROR_LEN := 512

  function Truncate(s: string, n: nat): string {
    if |s| <= n then s else s[..n]
  }

  function MarkPublished(row: Row): Row {
    row.(published := true, lastError := None)
  }

  function MarkFailed(row: Row, error: string): Row {
    row.(attempts := row.attempts + 1, lastError := Some(Truncate(error, MAX_LAST_ERROR_LEN)))
  }

  /** The row handleRow writes after `Publish` replied: `None` is a nil error. */
  function Handle(row: Row, reply: Option<string>): Row {
    match reply
    case None => MarkPublished(row)
    case Some(error) => MarkFailed(row, error)
  }

  predicate Eligible(row: Row, maxRetry: nat) {
    !row.published && row.attempts < maxRetry
  }

  predicate Parked(row: Row, maxRetry: nat) {
    !row.published && row.attempts >= maxRetry
  }

  /** `batch` is an answer of the drain query: the oldest eligible rows no other
      transaction holds, oldest first, cut at `limit`. Ties may come in any order. */
  ghost predicate DrainBatch(t: Table, locked: set<RowId>, limit: nat, maxRetry: nat, batch: seq<RowId>) {
    && |batch| <= limit
    && Distinct(batch)
    && (forall i :: 0 <= i < |batch| ==>
          batch[i] in t && batch[i] !in locked && Eligible(t[batch[i]], maxRetry))
    && (forall i, j :: 0 <= i < j < |batch| ==> t[batch[i]].createdAt <= t[batch[j]].createdAt)
    && (forall id :: id in t && id !in locked && Eligible(t[id], maxRetry) && id !in batch ==>
          |batch| == limit && forall i :: 0 <= i < |batch| ==> t[batch[i]].createdAt <= t[id].createdAt)
  }
}
