/**
  The shared object behind one ingest stream, over a real `DedupLRU`: its handlers
  and flushes, cut where they take and release a lock. Every section is exactly
  one step of the interleaving model, so any schedule of sections is a run of it.
 */
module IngestPipeline {
  import opened Basics
  import opened DedupLru
  import opened Ingest

  function Bodies(entries: seq<Entry>): seq<Row> {
    seq(|entries|, i requires 0 <= i < |entries| => entries[i].row)
  }

  class StreamPipeline {
    const config: Config
    const lru: DedupLRU
    var buffer: seq<Row>
    var received: nat
    var deadLetters: nat
    var dedupHits: nat
    ghost var view: Stream

    ghost predicate Valid()
      reads this, lru
    {
      && config.dedupSize > 0
      && lru.Valid() && lru.cap == config.dedupSize && view.history == lru.history
      && Bodies(view.buffer) == buffer
      && view.received == received && view.deadLetters == deadLetters && view.dedupHits == dedupHits
      && Reachable(config, view)
    }

    constructor (config: Config)
      requires config.dedupSize > 0
      ensures Valid() && fresh(lru) && this.config == config && view == INITIAL
    {
      this.config := config;
      lru := new DedupLRU(config.dedupSize);
      buffer, received, deadLetters, dedupHits := [], 0, 0, 0;
      view := INITIAL;
      new;
      ReachInitial(config);
    }

    /** A message arrives and is decoded; poison is dead-lettered and acknowledged. */
    method Receive(t: Thread, payload: Payload) returns (row: Option<Row>)
      requires Valid() && Enabled(view, Step.Receive(t, payload))
      modifies `received, `deadLetters, `view
      ensures Valid() && view == Apply(config, old(view), Step.Receive(t, payload))
      ensures row.Some? <==> t in view.parsed
      ensures row.Some? ==> row.value == view.parsed[t]
    {
      view := Go(config, view, Step.Receive(t, payload));
      received := received + 1;
      if payload.Malformed? || payload.row.id == NIL_ID {
        deadLetters := deadLetters + 1;
        return None;
      }
      return Some(payload.row);
    }

    /** The dedup probe, under the LRU's own mutex. */
    method Probe(t: Thread, row: Row) returns (dup: bool)
      requires Valid() && t in view.parsed && view.parsed[t] == row
      modifies `dedupHits, `view, lru
      ensures Valid() && view == Apply(config, old(view), Step.Probe(t))
      ensures dup <==> t !in view.accepted
      ensures !dup ==> view.accepted[t].row == row
    {
      ProbeDecided(config, view, t);
      dup := AddToLru(row.id);
      if dup {
        dedupHits := dedupHits + 1;
      }
      view := Go(config, view, Step.Probe(t));
    }

    method AddToLru(id: EventId) returns (dup: bool)
      requires lru.Valid()
      modifies lru
      ensures lru.Valid() && lru.history == old(lru.history) + [id]
      ensures dup <==> SeenRecently(old(lru.history), id, lru.cap)
    {
      var res := lru.Add(id);
      return res.dup;
    }

    /** The append, under the buffer mutex; `full` tells the handler to flush. */
    method Append(t: Thread, row: Row) returns (full: bool)
      requires Valid() && t in view.accepted && view.accepted[t].row == row
      modifies `buffer, `view
      ensures Valid() && view == Apply(config, old(view), Step.Append(t))
      ensures full <==> |buffer| >= config.batchSize
      ensures full ==> t in view.owing
    {
      view := Go(config, view, Step.Append(t));
      buffer := buffer + [row];
      return |buffer| >= config.batchSize;
    }

    /** The buffer swap at the start of a flush; nothing to insert if it was empty. */
    method Take(t: Thread) returns (rows: seq<Row>)
      requires Valid() && Enabled(view, Step.Flush(t))
      modifies `buffer, `view
      ensures Valid() && view == Apply(config, old(view), Step.Flush(t))
      ensures rows == old(buffer) && buffer == []
      ensures rows != [] ==> Bodies(view.batches[|view.batches| - 1].rows) == rows
    {
      view := Go(config, view, Step.Flush(t));
      rows := buffer;
      if |rows| != 0 {
        buffer := [];
      }
    }
  }
}
