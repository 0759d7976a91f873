/**
 The outbox publisher: one pass over a batch, and what any number of passes do to
 the outbox whatever the receiving side answers.
*/
module EventPublisher {
  import opened Domain

  /** How one event's delivery and the store writes after it turn out. */
  datatype Outcome = Outcome(delivered: bool, marked: bool, recorded: bool, buried: bool) {
    /** Every store write succeeds. */
    predicate Stored() {
      marked && recorded && buried
    }
  }

  predicate Pending(e: OutboxEvent) {
    !e.published && !e.deadLettered
  }

  predicate DistinctEvents(events: seq<OutboxEvent>) {
    forall i, j :: 0 <= i < j < |events| ==> events[i].id != events[j].id
  }

  /** The row after one delivery attempt. */
  function Handle(e: OutboxEvent, o: Outcome, maxAttempts: nat): OutboxEvent {
    if o.delivered then
      if o.marked then e.(published := true) else e
    else if !o.recorded then e
    else
      var failed := e.(attempts := e.attempts + 1);
      if failed.attempts >= maxAttempts && o.buried then failed.(deadLettered := true) else failed
  }

  function PendingCount(events: seq<OutboxEvent>): nat {
    if events == [] then 0
    else PendingCount(events[..|events| - 1]) + (if Pending(events[|events| - 1]) then 1 else 0)
  }

  /** The query for unpublished events: pending rows, oldest first, up to the limit. */
  ghost predicate Fetches(events: seq<OutboxEvent>, batch: seq<OutboxEvent>, limit: nat) {
    && DistinctEvents(batch)
    && (forall i :: 0 <= i < |batch| ==> batch[i] in events && Pending(batch[i]))
    && |batch| == (if PendingCount(events) < limit then PendingCount(events) else limit)
    && (forall i, j :: 0 <= i < j < |batch| ==> batch[i].createdAt <= batch[j].createdAt)
    && (forall e, i :: e in events && Pending(e) && e !in batch && 0 <= i < |batch| ==>
          batch[i].createdAt <= e.createdAt)
  }

  predicate HasId(batch: seq<OutboxEvent>, id: Id) {
    exists i :: 0 <= i < |batch| && batch[i].id == id
  }

  /** The rows with a batch id are the batch's rows. */
  lemma BatchIsRows(events: seq<OutboxEvent>, batch: seq<OutboxEvent>, b: nat)
    requires DistinctEvents(events) && Fetches(events, batch, b)
    ensures forall i :: 0 <= i < |events| && HasId(batch, events[i].id) ==> Pending(events[i])
    ensures forall id :: HasId(batch, id) ==> HasId(events, id)
  {
    forall i | 0 <= i < |events| && HasId(batch, events[i].id)
      ensures Pending(events[i])
    {
      var k :| 0 <= k < |batch| && batch[k].id == events[i].id;
      var j :| 0 <= j < |events| && events[j] == batch[k];
      assert i == j;
    }
    forall id | HasId(batch, id)
      ensures HasId(events, id)
    {
      var k :| 0 <= k < |batch| && batch[k].id == id;
      var j :| 0 <= j < |events| && events[j] == batch[k];
      assert events[j].id == id;
    }
  }

  /** Exactly the rows with an id in the batch are handled, each once. */
  ghost predicate Passed(events: seq<OutboxEvent>, events': seq<OutboxEvent>, batch: seq<OutboxEvent>,
      outcomes: Id -> Outcome, maxAttempts: nat) {
    && |events'| == |events|
    && forall i :: 0 <= i < |events| ==> RowAfter(events[i], events'[i], batch, outcomes, maxAttempts)
  }

  ghost predicate RowAfter(e: OutboxEvent, e': OutboxEvent, batch: seq<OutboxEvent>, outcomes: Id -> Outcome,
      maxAttempts: nat) {
    e' == if HasId(batch, e.id) then Handle(e, outcomes(e.id), maxAttempts) else e
  }

  /** The rows a pass leaves. */
  function AfterPass(events: seq<OutboxEvent>, batch: seq<OutboxEvent>, outcomes: Id -> Outcome,
      m: nat): (r: seq<OutboxEvent>)
    ensures Passed(events, r, batch, outcomes, m)
  {
    seq(|events|, i requires 0 <= i < |events| =>
      if HasId(batch, events[i].id) then Handle(events[i], outcomes(events[i].id), m) else events[i])
  }

  function Deliveries(batch: seq<OutboxEvent>, outcomes: Id -> Outcome): seq<Id> {
    if batch == [] then []
    else
      var rest := Deliveries(batch[..|batch| - 1], outcomes);
      var id := batch[|batch| - 1].id;
      if outcomes(id).delivered then rest + [id] else rest
  }

  const DEFAULT_BATCH_SIZE: nat := 100
  const DEFAULT_MAX_ATTEMPTS: nat := 5

  class Publisher {
    var events: seq<OutboxEvent>
    var delivered: seq<Id>
    const batchSize: nat
    const maxAttempts: nat

    constructor (events: seq<OutboxEvent>, batchSize: nat, maxAttempts: nat)
      ensures this.events == events && delivered == []
      ensures this.batchSize == (if batchSize == 0 then 100 else batchSize) > 0
      ensures this.maxAttempts == (if maxAttempts == 0 then 5 else maxAttempts) > 0
    {
      this.events, delivered := events, [];
      this.batchSize := if batchSize == 0 then DEFAULT_BATCH_SIZE else batchSize;
      this.maxAttempts := if maxAttempts == 0 then DEFAULT_MAX_ATTEMPTS else maxAttempts;
    }

    /** UPDATE outbox_events ... WHERE id = $1 */
    method Store(id: Id, e: OutboxEvent)
      requires DistinctEvents(events) && e.id == id
      modifies this`events
      ensures |events| == |old(events)|
      ensures forall i :: 0 <= i < |events| ==> events[i] == if old(events)[i].id == id then e else old(events)[i]
    {
      var i := 0;
      while i < |events|
        invariant 0 <= i <= |events| == |old(events)|
        invariant forall j :: 0 <= j < i ==> events[j] == if old(events)[j].id == id then e else old(events)[j]
        invariant forall j :: i <= j < |events| ==> events[j] == old(events)[j]
      {
        if events[i].id == id {
          events := events[i := e];
        }
        i := i + 1;
      }
    }

    /** Count a failed delivery, and stop retrying once the attempts are used up. */
    method RecordFailure(event: OutboxEvent, outcome: Outcome)
      requires DistinctEvents(events) && event in events && !outcome.delivered
      modifies this`events
      ensures |events| == |old(events)|
      ensures forall i :: 0 <= i < |events| ==>
        events[i] == if old(events)[i].id == event.id then Handle(event, outcome, maxAttempts) else old(events)[i]
    {
      if !outcome.recorded {
        return;
      }
      var failed := event.(attempts := event.attempts + 1);
      Store(event.id, failed);
      if failed.attempts < maxAttempts {
        return;
      }
      if !outcome.buried {
        return;
      }
      Store(event.id, failed.(deadLettered := true));
    }

    /** Deliver one event and store how that went. */
    method PublishOne(event: OutboxEvent, outcome: Outcome)
      requires DistinctEvents(events) && event in events
      modifies this`events, this`delivered
      ensures |events| == |old(events)|
      ensures forall i :: 0 <= i < |events| ==>
        events[i] == if old(events)[i].id == event.id then Handle(event, outcome, maxAttempts) else old(events)[i]
      ensures delivered == old(delivered) + (if outcome.delivered then [event.id] else [])
    {
      if !outcome.delivered {
        RecordFailure(event, outcome);
        return;
      }
      delivered := delivered + [event.id];
      if outcome.marked {
        Store(event.id, event.(published := true));
      }
    }

    /** One pass over a fetched batch; a failed delivery does not stop the ones after it. */
    method ProcessEvents(batch: seq<OutboxEvent>, outcomes: Id -> Outcome)
      requires DistinctEvents(events) && Fetches(events, batch, batchSize)
      modifies this`events, this`delivered
      ensures Passed(old(events), events, batch, outcomes, maxAttempts)
      ensures delivered == old(delivered) + Deliveries(batch, outcomes)
    {
      hide Fetches, Passed, DistinctEvents, HasId, Handle;
      ghost var start := events;
      NothingYet(start, outcomes, maxAttempts);
      for k := 0 to |batch|
        invariant Passed(start, events, batch[..k], outcomes, maxAttempts)
        invariant delivered == old(delivered) + Deliveries(batch[..k], outcomes)
      {
        FetchedFromStore(start, batch, batchSize, k);
        KeepsIds(start, events, batch[..k], outcomes, maxAttempts);
        StillInStore(start, events, batch, k, outcomes, maxAttempts);
        ghost var before := events;
        PublishOne(batch[k], outcomes(batch[k].id));
        OneMore(start, before, events, batch, k, outcomes, maxAttempts);
        assert batch[..k + 1][..k] == batch[..k];
      }
      assert batch[..|batch|] == batch;
    }
  }

  lemma FetchedFromStore(events: seq<OutboxEvent>, batch: seq<OutboxEvent>, limit: nat, k: nat)
    requires Fetches(events, batch, limit) && k < |batch|
    ensures DistinctEvents(batch) && batch[k] in events
  {
  }

  lemma NothingYet(events: seq<OutboxEvent>, outcomes: Id -> Outcome, maxAttempts: nat)
    ensures Passed(events, events, [], outcomes, maxAttempts)
  {
  }

  lemma KeepsIds(events: seq<OutboxEvent>, events': seq<OutboxEvent>, batch: seq<OutboxEvent>,
      outcomes: Id -> Outcome, maxAttempts: nat)
    requires DistinctEvents(events) && Passed(events, events', batch, outcomes, maxAttempts)
    ensures DistinctEvents(events')
    ensures forall i :: 0 <= i < |events| ==> events'[i].id == events[i].id
  {
    forall i | 0 <= i < |events|
      ensures events'[i].id == events[i].id
    {
      assert RowAfter(events[i], events'[i], batch, outcomes, maxAttempts);
    }
  }

  lemma NotYet(batch: seq<OutboxEvent>, k: nat)
    requires DistinctEvents(batch) && k < |batch|
    ensures !HasId(batch[..k], batch[k].id)
    ensures forall id: Id :: HasId(batch[..k + 1], id) <==> HasId(batch[..k], id) || id == batch[k].id
  {
    forall id: Id
      ensures HasId(batch[..k + 1], id) <==> HasId(batch[..k], id) || id == batch[k].id
    {
      assert batch[..k + 1][k] == batch[k] && forall i :: 0 <= i < k ==> batch[..k + 1][i] == batch[..k][i];
    }
  }

  lemma StillInStore(events: seq<OutboxEvent>, now: seq<OutboxEvent>, batch: seq<OutboxEvent>, k: nat,
      outcomes: Id -> Outcome, maxAttempts: nat)
    requires DistinctEvents(batch) && k < |batch| && batch[k] in events
    requires Passed(events, now, batch[..k], outcomes, maxAttempts)
    ensures batch[k] in now
  {
    NotYet(batch, k);
    var i :| 0 <= i < |events| && events[i] == batch[k];
    assert RowAfter(events[i], now[i], batch[..k], outcomes, maxAttempts);
  }

  /** Handling the next event of the batch extends the pass by exactly that event. */
  lemma OneMore(events: seq<OutboxEvent>, before: seq<OutboxEvent>, after: seq<OutboxEvent>, batch: seq<OutboxEvent>,
      k: nat, outcomes: Id -> Outcome, maxAttempts: nat)
    requires DistinctEvents(events) && DistinctEvents(batch) && k < |batch| && batch[k] in events
    requires Passed(events, before, batch[..k], outcomes, maxAttempts)
    requires |after| == |before|
    requires forall i :: 0 <= i < |before| ==>
      after[i] == if before[i].id == batch[k].id then Handle(batch[k], outcomes(batch[k].id),
        maxAttempts) else before[i]
    ensures Passed(events, after, batch[..k + 1], outcomes, maxAttempts)
  {
    NotYet(batch, k);
    KeepsIds(events, before, batch[..k], outcomes, maxAttempts);
    var m :| 0 <= m < |events| && events[m] == batch[k];
    forall i | 0 <= i < |events|
      ensures RowAfter(events[i], after[i], batch[..k + 1], outcomes, maxAttempts)
    {
      assert RowAfter(events[i], before[i], batch[..k], outcomes, maxAttempts);
    }
  }

  /** A pass changes nothing but delivery bookkeeping: what an event says and its sequence number stay. */
  lemma PassKeepsFacts(events: seq<OutboxEvent>, events': seq<OutboxEvent>, batch: seq<OutboxEvent>,
      outcomes: Id -> Outcome, maxAttempts: nat, i: nat)
    requires Passed(events, events', batch, outcomes, maxAttempts) && i < |events|
    ensures events'[i].(published := events[i].published, attempts := events[i].attempts,
      deadLettered := events[i].deadLettered) == events[i]
  {
    assert RowAfter(events[i], events'[i], batch, outcomes, maxAttempts);
  }
}
