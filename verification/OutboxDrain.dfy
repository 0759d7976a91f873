/** What repeated passes of the publisher do: nothing stays in the queue. */
module OutboxDrain {
  import opened Domain
  import opened EventPublisher

  /** One pass in which every store write succeeds, whatever the receiving side answers. */
  ghost predicate GoodPass(events: seq<OutboxEvent>, events': seq<OutboxEvent>, batch: seq<OutboxEvent>,
      outcomes: Id -> Outcome, b: nat, m: nat) {
    && Fetches(events, batch, b)
    && Passed(events, events', batch, outcomes, m)
    && forall i :: 0 <= i < |batch| ==> outcomes(batch[i].id).Stored()
  }

  /** Pending events have attempts left. */
  ghost predicate AttemptsLeft(events: seq<OutboxEvent>, m: nat) {
    forall i :: 0 <= i < |events| && Pending(events[i]) ==> 0 <= events[i].attempts < m
  }

  // --------------------------------------------------------- counting rows

  function CountIn(events: seq<OutboxEvent>, batch: seq<OutboxEvent>): nat {
    if events == [] then 0
    else CountIn(events[..|events| - 1], batch) + (if HasId(batch, events[|events| - 1].id) then 1 else 0)
  }

  /** Every row of the batch is counted: the rows with a batch id are at least as many as the batch. */
  lemma {:induction false} BatchCounted(events: seq<OutboxEvent>, batch: seq<OutboxEvent>)
    requires DistinctEvents(batch)
    requires forall i :: 0 <= i < |batch| ==> batch[i] in events
    ensures CountIn(events, batch) >= |batch|
  {
    assert batch == [] || batch[0] in events;
    if events != [] {
      var n := |events| - 1;
      var last, rest := events[n], events[..n];
      assert events == rest + [last];
      if last in batch {
        var k :| 0 <= k < |batch| && batch[k] == last;
        var fewer := batch[..k] + batch[k + 1..];
        forall i | 0 <= i < |fewer|
          ensures fewer[i] in rest
        {
          var j := if i < k then i else i + 1;
          assert fewer[i] == batch[j] && batch[j].id != last.id;
        }
        assert DistinctEvents(fewer);
        BatchCounted(rest, fewer);
        assert forall i :: 0 <= i < |fewer| ==> fewer[i] == batch[if i < k then i else i + 1];
        CountFewer(rest, fewer, batch);
        assert HasId(batch, last.id);
      } else {
        BatchCounted(rest, batch);
      }
    }
  }

  lemma {:induction false} CountFewer(events: seq<OutboxEvent>, fewer: seq<OutboxEvent>, batch: seq<OutboxEvent>)
    requires forall i :: 0 <= i < |fewer| ==> fewer[i] in batch
    ensures CountIn(events, fewer) <= CountIn(events, batch)
  {
    if events != [] {
      CountFewer(events[..|events| - 1], fewer, batch);
    }
  }

  /** With only pending rows counted, counting as many as are pending counts all of them. */
  lemma {:induction false} CountsPending(events: seq<OutboxEvent>, batch: seq<OutboxEvent>)
    requires forall i :: 0 <= i < |events| && HasId(batch, events[i].id) ==> Pending(events[i])
    ensures CountIn(events, batch) <= PendingCount(events)
    ensures CountIn(events, batch) == PendingCount(events) ==>
      forall i :: 0 <= i < |events| && Pending(events[i]) ==> HasId(batch, events[i].id)
  {
    if events != [] {
      CountsPending(events[..|events| - 1], batch);
    }
  }

  // ------------------------------------------------------------ potential

  /** Failures the event can still take before it is given up. */
  function Remaining(e: OutboxEvent, m: nat): int {
    if Pending(e) then m - e.attempts else 0
  }

  function TotalRemaining(events: seq<OutboxEvent>, m: nat): int {
    if events == [] then 0
    else TotalRemaining(events[..|events| - 1], m) + Remaining(events[|events| - 1], m)
  }

  lemma PassRow(e: OutboxEvent, e': OutboxEvent, batch: seq<OutboxEvent>, outcomes: Id -> Outcome, m: nat)
    requires RowAfter(e, e', batch, outcomes, m)
    requires HasId(batch, e.id) ==> Pending(e) && outcomes(e.id).Stored()
    requires Pending(e) ==> 0 <= e.attempts < m
    ensures Pending(e') ==> Pending(e) && 0 <= e'.attempts < m
    ensures Remaining(e', m) <= Remaining(e, m) - (if HasId(batch, e.id) then 1 else 0)
  {
  }

  lemma {:induction false} PassDrains(events: seq<OutboxEvent>, events': seq<OutboxEvent>, batch: seq<OutboxEvent>,
      outcomes: Id -> Outcome, m: nat)
    requires Passed(events, events', batch, outcomes, m) && AttemptsLeft(events, m)
    requires forall i :: 0 <= i < |events| && HasId(batch, events[i].id) ==>
      Pending(events[i]) && outcomes(events[i].id).Stored()
    ensures TotalRemaining(events', m) <= TotalRemaining(events, m) - CountIn(events, batch)
    ensures AttemptsLeft(events', m)
    ensures PendingCount(events') <= PendingCount(events)
  {
    if events != [] {
      var n := |events| - 1;
      forall i | 0 <= i < n
        ensures RowAfter(events[..n][i], events'[..n][i], batch, outcomes, m)
      {
        assert RowAfter(events[i], events'[i], batch, outcomes, m);
      }
      PassDrains(events[..n], events'[..n], batch, outcomes, m);
      assert RowAfter(events[n], events'[n], batch, outcomes, m);
      PassRow(events[n], events'[n], batch, outcomes, m);
    }
  }

  lemma BatchOutcomes(events: seq<OutboxEvent>, batch: seq<OutboxEvent>, outcomes: Id -> Outcome)
    requires forall i :: 0 <= i < |batch| ==> outcomes(batch[i].id).Stored()
    ensures forall id: Id :: HasId(batch, id) ==> outcomes(id).Stored()
  {
  }

  /** One good pass uses up at least as many remaining failures as it fetched events. */
  lemma GoodPassDrains(events: seq<OutboxEvent>, events': seq<OutboxEvent>, batch: seq<OutboxEvent>,
      outcomes: Id -> Outcome, b: nat, m: nat)
    requires DistinctEvents(events) && AttemptsLeft(events, m) && GoodPass(events, events', batch, outcomes, b, m)
    ensures DistinctEvents(events') && AttemptsLeft(events', m)
    ensures PendingCount(events') <= PendingCount(events)
    ensures TotalRemaining(events', m) <= TotalRemaining(events, m) - |batch|
  {
    KeepsIds(events, events', batch, outcomes, m);
    BatchIsRows(events, batch, b);
    BatchOutcomes(events, batch, outcomes);
    PassDrains(events, events', batch, outcomes, m);
    BatchCounted(events, batch);
  }

  /** Every pending event has used up at least m - r of its attempts. */
  ghost predicate AtMostLeft(events: seq<OutboxEvent>, m: nat, r: int) {
    forall i :: 0 <= i < |events| && Pending(events[i]) ==> m - events[i].attempts <= r
  }

  /** A pass that fetches everything pending brings every pending event one failure closer to its end. */
  lemma FullPassAges(events: seq<OutboxEvent>, events': seq<OutboxEvent>, batch: seq<OutboxEvent>,
      outcomes: Id -> Outcome, b: nat, m: nat, r: int)
    requires DistinctEvents(events) && AttemptsLeft(events, m) && GoodPass(events, events', batch, outcomes, b, m)
    requires PendingCount(events) <= b && AtMostLeft(events, m, r)
    ensures AtMostLeft(events', m, r - 1)
  {
    BatchIsRows(events, batch, b);
    BatchOutcomes(events, batch, outcomes);
    BatchCounted(events, batch);
    CountsPending(events, batch);
    forall i | 0 <= i < |events'| && Pending(events'[i])
      ensures m - events'[i].attempts <= r - 1
    {
      assert RowAfter(events[i], events'[i], batch, outcomes, m);
      PassRow(events[i], events'[i], batch, outcomes, m);
    }
  }

  // ----------------------------------------------------------- drain bound

  /** One pass: what was fetched and how each delivery turned out. */
  datatype Pass = Pass(batch: seq<OutboxEvent>, outcomes: Id -> Outcome)

  /** The outbox before, between and after the passes, with no arrivals. */
  ghost predicate PassesRun(states: seq<seq<OutboxEvent>>, passes: seq<Pass>, b: nat, m: nat) {
    && |states| == |passes| + 1
    && forall k :: 0 <= k < |passes| ==> PassAt(states, passes, b, m, k)
  }

  ghost predicate PassAt(states: seq<seq<OutboxEvent>>, passes: seq<Pass>, b: nat, m: nat, k: nat)
    requires k < |passes| && |states| == |passes| + 1
  {
    GoodPass(states[k], states[k + 1], passes[k].batch, passes[k].outcomes, b, m)
  }

  lemma PassesTail(states: seq<seq<OutboxEvent>>, passes: seq<Pass>, b: nat, m: nat)
    requires PassesRun(states, passes, b, m) && passes != []
    ensures PassesRun(states[1..], passes[1..], b, m)
  {
    forall k | 0 <= k < |passes| - 1
      ensures PassAt(states[1..], passes[1..], b, m, k)
    {
      assert PassAt(states, passes, b, m, k + 1);
    }
  }

  lemma {:induction false} NoneLeft(events: seq<OutboxEvent>, m: nat)
    requires AttemptsLeft(events, m) && AtMostLeft(events, m, 0)
    ensures PendingCount(events) == 0
  {
    if events != [] {
      NoneLeft(events[..|events| - 1], m);
    }
  }

  /** Once the queue fits into one batch, r more passes empty it when no event has more than r failures left. */
  lemma {:induction false} ShortQueueDrains(states: seq<seq<OutboxEvent>>, passes: seq<Pass>, b: nat, m: nat, r: nat)
    requires PassesRun(states, passes, b, m) && |passes| >= r
    requires DistinctEvents(states[0]) && AttemptsLeft(states[0], m)
    requires PendingCount(states[0]) <= b && AtMostLeft(states[0], m, r)
    ensures PendingCount(states[|passes|]) == 0
    decreases |passes|
  {
    if passes == [] {
      NoneLeft(states[0], m);
    } else {
      assert PassAt(states, passes, b, m, 0);
      GoodPassDrains(states[0], states[1], passes[0].batch, passes[0].outcomes, b, m);
      FullPassAges(states[0], states[1], passes[0].batch, passes[0].outcomes, b, m, r);
      PassesTail(states, passes, b, m);
      if r == 0 {
        AgesDown(states[1], m);
        ShortQueueDrains(states[1..], passes[1..], b, m, 0);
      } else {
        ShortQueueDrains(states[1..], passes[1..], b, m, r - 1);
      }
    }
  }

  lemma AgesDown(events: seq<OutboxEvent>, m: nat)
    requires AtMostLeft(events, m, -1)
    ensures AtMostLeft(events, m, 0)
  {
  }

  lemma {:induction false} RemainingBounds(events: seq<OutboxEvent>, m: nat)
    requires AttemptsLeft(events, m)
    ensures PendingCount(events) <= TotalRemaining(events, m)
    ensures TotalRemaining(events, m) <= m * PendingCount(events)
  {
    if events != [] {
      RemainingBounds(events[..|events| - 1], m);
      var p := PendingCount(events[..|events| - 1]);
      assert m * (p + 1) == m * p + m;
    }
  }

  /** q full batches' worth of remaining failures, then at most m passes more. */
  lemma {:induction false} LongQueueDrains(states: seq<seq<OutboxEvent>>, passes: seq<Pass>, b: nat, m: nat, q: nat)
    requires b >= 1 && PassesRun(states, passes, b, m) && |passes| >= q + m
    requires DistinctEvents(states[0]) && AttemptsLeft(states[0], m)
    requires TotalRemaining(states[0], m) < b * (q + 1)
    ensures PendingCount(states[|passes|]) == 0
    decreases q
  {
    RemainingBounds(states[0], m);
    assert b * (q + 1) == b * q + b;
    if PendingCount(states[0]) < b {
      ShortQueueDrains(states, passes, b, m, m);
    } else {
      assert PassAt(states, passes, b, m, 0);
      GoodPassDrains(states[0], states[1], passes[0].batch, passes[0].outcomes, b, m);
      PassesTail(states, passes, b, m);
      LongQueueDrains(states[1..], passes[1..], b, m, q - 1);
    }
  }

  /**
   Drain bound: with n pending events, batches of b and m attempts each, after
   floor(m*n/b) + m passes every event is published or dead-lettered, whatever the
   receiving side answers; a poison event cannot hold up the queue.
  */
  lemma DrainBound(states: seq<seq<OutboxEvent>>, passes: seq<Pass>, b: nat, m: nat)
    requires b >= 1 && PassesRun(states, passes, b, m)
    requires DistinctEvents(states[0]) && AttemptsLeft(states[0], m)
    requires |passes| >= m * PendingCount(states[0]) / b + m
    ensures forall i :: 0 <= i < |states[|passes|]| ==>
      states[|passes|][i].published || states[|passes|][i].deadLettered
  {
    var total := m * PendingCount(states[0]);
    var q := total / b;
    RemainingBounds(states[0], m);
    DivisionBound(total, b);
    LongQueueDrains(states, passes, b, m, q);
    NothingPending(states[|passes|]);
  }

  lemma DivisionBound(total: nat, b: nat)
    requires b >= 1
    ensures total < b * (total / b + 1)
  {
    assert b * (total / b + 1) == b * (total / b) + b;
  }

  lemma {:induction false} NothingPending(events: seq<OutboxEvent>)
    requires PendingCount(events) == 0
    ensures forall i :: 0 <= i < |events| ==> !Pending(events[i])
  {
    if events != [] {
      NothingPending(events[..|events| - 1]);
    }
  }
}
