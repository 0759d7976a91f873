/** One publisher over any run of arrivals and passes: each event is delivered at most once and ends in one place. */
module PublisherSafety {
  import opened Domain
  import opened Projections
  import opened EventPublisher

  /** The outbox and every successful delivery so far. */
  datatype Queue = Queue(events: seq<OutboxEvent>, delivered: seq<Id>)

  datatype Move = Arrive(event: OutboxEvent) | Poll(batch: seq<OutboxEvent>, outcomes: Id -> Outcome)

  function Next(q: Queue, move: Move, m: nat): Queue {
    match move
    case Arrive(e) => q.(events := q.events + [e])
    case Poll(batch, outcomes) => Queue(AfterPass(q.events, batch, outcomes, m), q.delivered + Deliveries(batch,
      outcomes))
  }

  /** New events are new, and passes fetch what the query returns; deliveries and store writes turn out as they may. */
  ghost predicate Offered(q: Queue, move: Move, b: nat) {
    match move
    case Arrive(e) => Pending(e) && e.attempts == 0 && !HasId(q.events, e.id)
    case Poll(batch, _) => Fetches(q.events, batch, b)
  }

  /** Passes also store what they mean to. */
  ghost predicate Allowed(q: Queue, move: Move, b: nat) {
    && Offered(q, move, b)
    && (move.Poll? ==> forall i :: 0 <= i < |move.batch| ==> move.outcomes(move.batch[i].id).Stored())
  }

  function QueueAfter(moves: seq<Move>, m: nat): Queue {
    if moves == [] then Queue([], []) else Next(QueueAfter(moves[..|moves| - 1], m), moves[|moves| - 1], m)
  }

  ghost predicate AllowedRun(moves: seq<Move>, b: nat, m: nat) {
    moves == [] ||
    var n := |moves| - 1;
    AllowedRun(moves[..n], b, m) && Allowed(QueueAfter(moves[..n], m), moves[n], b)
  }

  ghost predicate RowSafe(e: OutboxEvent, delivered: seq<Id>, m: nat) {
    && !(e.published && e.deadLettered)
    && (if e.deadLettered then e.attempts == m else 0 <= e.attempts < m)
    && (e.published <==> e.id in delivered)
  }

  ghost predicate Safe(q: Queue, m: nat) {
    && DistinctEvents(q.events)
    && NoDuplicates(q.delivered)
    && (forall i :: 0 <= i < |q.events| ==> RowSafe(q.events[i], q.delivered, m))
    && (forall i :: 0 <= i < |q.delivered| ==> HasId(q.events, q.delivered[i]))
  }

  lemma {:induction false} DeliveriesOfBatch(batch: seq<OutboxEvent>, outcomes: Id -> Outcome)
    requires DistinctEvents(batch)
    ensures NoDuplicates(Deliveries(batch, outcomes))
    ensures forall id :: id in Deliveries(batch, outcomes) <==> HasId(batch, id) && outcomes(id).delivered
  {
    if batch != [] {
      var n := |batch| - 1;
      DeliveriesOfBatch(batch[..n], outcomes);
      NotYet(batch, n);
      assert batch[..n + 1] == batch;
    }
  }

  /** The row of the batch with this id. */
  predicate RowOf(batch: seq<OutboxEvent>, k: nat, id: Id) {
    k < |batch| && batch[k].id == id
  }

  lemma {:induction false} DeliveredInBatchOrder(batch: seq<OutboxEvent>, outcomes: Id -> Outcome, i: nat, j: nat)
    returns (a: nat, c: nat)
    requires i < j < |Deliveries(batch, outcomes)|
    ensures a < c && RowOf(batch, a, Deliveries(batch, outcomes)[i]) && RowOf(batch, c, Deliveries(batch, outcomes)[j])
  {
    var n := |batch| - 1;
    if j < |Deliveries(batch[..n], outcomes)| {
      a, c := DeliveredInBatchOrder(batch[..n], outcomes, i, j);
    } else {
      a := DeliveredFrom(batch[..n], outcomes, i);
      c := n;
    }
  }

  lemma {:induction false} DeliveredFrom(batch: seq<OutboxEvent>, outcomes: Id -> Outcome, i: nat) returns (a: nat)
    requires i < |Deliveries(batch, outcomes)|
    ensures RowOf(batch, a, Deliveries(batch, outcomes)[i])
  {
    var n := |batch| - 1;
    if i < |Deliveries(batch[..n], outcomes)| {
      a := DeliveredFrom(batch[..n], outcomes, i);
    } else {
      a := n;
    }
  }

  /** A pass delivers oldest first. */
  lemma OldestFirst(events: seq<OutboxEvent>, batch: seq<OutboxEvent>, outcomes: Id -> Outcome, b: nat, i: nat, j: nat)
    returns (a: nat, c: nat)
    requires Fetches(events, batch, b) && i < j < |Deliveries(batch, outcomes)|
    ensures RowOf(batch, a, Deliveries(batch, outcomes)[i]) && RowOf(batch, c, Deliveries(batch, outcomes)[j])
    ensures batch[a].createdAt <= batch[c].createdAt
  {
    a, c := DeliveredInBatchOrder(batch, outcomes, i, j);
  }

  lemma PollRowSafe(q: Queue, batch: seq<OutboxEvent>, outcomes: Id -> Outcome, b: nat, m: nat, i: nat)
    requires Safe(q, m) && Allowed(q, Poll(batch, outcomes), b) && i < |q.events|
    ensures RowSafe(AfterPass(q.events, batch, outcomes, m)[i], q.delivered + Deliveries(batch, outcomes), m)
  {
    var e, e', new_ := q.events[i], AfterPass(q.events, batch, outcomes, m)[i], Deliveries(batch, outcomes);
    DeliveriesOfBatch(batch, outcomes);
    BatchIsRows(q.events, batch, b);
    assert RowSafe(e, q.delivered, m) && RowAfter(e, e', batch, outcomes, m);
    assert e.id in q.delivered + new_ <==> e.id in q.delivered || e.id in new_;
    hide DistinctEvents, NoDuplicates, Safe, Deliveries, Fetches;
    if HasId(batch, e.id) {
      var k :| 0 <= k < |batch| && batch[k].id == e.id;
      assert outcomes(batch[k].id).Stored();
    }
  }

  lemma PassSafe(q: Queue, batch: seq<OutboxEvent>, outcomes: Id -> Outcome, b: nat, m: nat)
    requires Safe(q, m) && Allowed(q, Poll(batch, outcomes), b)
    ensures Safe(Next(q, Poll(batch, outcomes), m), m)
  {
    var q' := Next(q, Poll(batch, outcomes), m);
    var new_ := Deliveries(batch, outcomes);
    DeliveriesOfBatch(batch, outcomes);
    BatchIsRows(q.events, batch, b);
    KeepsIds(q.events, q'.events, batch, outcomes, m);
    forall i | 0 <= i < |q'.events|
      ensures RowSafe(q'.events[i], q'.delivered, m)
    {
      PollRowSafe(q, batch, outcomes, b, m, i);
    }
    forall i, j | 0 <= i < j < |q'.delivered|
      ensures q'.delivered[i] != q'.delivered[j]
    {
      if i < |q.delivered| <= j {
        NewDelivery(q, batch, outcomes, q'.delivered[j], b, m);
      }
    }
    forall i | 0 <= i < |q'.delivered|
      ensures HasId(q'.events, q'.delivered[i])
    {
      assert HasId(q.events, q'.delivered[i]);
      var k :| 0 <= k < |q.events| && q.events[k].id == q'.delivered[i];
      assert q'.events[k].id == q'.delivered[i];
    }
  }

  /** What a pass delivers had not been delivered before. */
  lemma NewDelivery(q: Queue, batch: seq<OutboxEvent>, outcomes: Id -> Outcome, id: Id, b: nat, m: nat)
    requires Safe(q, m) && Fetches(q.events, batch, b) && HasId(batch, id)
    ensures id !in q.delivered
  {
    BatchIsRows(q.events, batch, b);
    var k :| 0 <= k < |q.events| && q.events[k].id == id;
    assert RowSafe(q.events[k], q.delivered, m);
  }

  lemma ArriveSafe(q: Queue, e: OutboxEvent, b: nat, m: nat)
    requires m > 0 && Safe(q, m) && Allowed(q, Arrive(e), b)
    ensures Safe(Next(q, Arrive(e), m), m)
  {
    var q' := Next(q, Arrive(e), m);
    forall i | 0 <= i < |q'.events|
      ensures RowSafe(q'.events[i], q'.delivered, m)
    {
      assert i < |q.events| ==> RowSafe(q.events[i], q.delivered, m);
    }
    forall i | 0 <= i < |q.delivered|
      ensures HasId(q'.events, q.delivered[i])
    {
      var k :| 0 <= k < |q.events| && q.events[k].id == q.delivered[i];
      assert q'.events[k] == q.events[k];
    }
  }

  /**
   In every reachable state pending, published and dead-lettered split the events,
   pending ones have failed fewer than m times and dead ones exactly m times, and
   each event has been delivered once if it is published and never otherwise.
  */
  lemma {:induction false} ReachableSafe(moves: seq<Move>, b: nat, m: nat)
    requires m > 0 && AllowedRun(moves, b, m)
    ensures Safe(QueueAfter(moves, m), m)
  {
    if moves != [] {
      var n := |moves| - 1;
      ReachableSafe(moves[..n], b, m);
      match moves[n]
      case Arrive(e) => ArriveSafe(QueueAfter(moves[..n], m), e, b, m);
      case Poll(batch, outcomes) => PassSafe(QueueAfter(moves[..n], m), batch, outcomes, b, m);
    }
  }

  /** No pass from move k on attempts the event. */
  ghost predicate NotAttempted(moves: seq<Move>, k: nat, id: Id) {
    forall j :: k <= j < |moves| && moves[j].Poll? ==> !HasId(moves[j].batch, id)
  }

  lemma SettledStep(q: Queue, move: Move, b: nat, m: nat, i: nat)
    requires DistinctEvents(q.events) && Allowed(q, move, b)
    requires i < |q.events| && !Pending(q.events[i])
    ensures i < |Next(q, move, m).events| && Next(q, move, m).events[i] == q.events[i]
    ensures move.Poll? ==> !HasId(move.batch, q.events[i].id)
  {
    if move.Poll? {
      BatchIsRows(q.events, move.batch, b);
      assert RowAfter(q.events[i], Next(q, move, m).events[i], move.batch, move.outcomes, m);
    }
  }

  /** An event that is published or dead-lettered is never attempted again, and its row never changes again. */
  lemma {:induction false} SettledForGood(moves: seq<Move>, b: nat, m: nat, k: nat, i: nat)
    requires m > 0 && AllowedRun(moves, b, m) && k <= |moves|
    requires i < |QueueAfter(moves[..k], m).events| && !Pending(QueueAfter(moves[..k], m).events[i])
    ensures i < |QueueAfter(moves, m).events| && QueueAfter(moves, m).events[i] == QueueAfter(moves[..k], m).events[i]
    ensures NotAttempted(moves, k, QueueAfter(moves[..k], m).events[i].id)
  {
    hide Next, Allowed, HasId, RowSafe, DistinctEvents, NoDuplicates;
    if k == |moves| {
      assert moves[..k] == moves;
    } else {
      var n := |moves| - 1;
      assert moves[..n][..k] == moves[..k];
      SettledForGood(moves[..n], b, m, k, i);
      ReachableSafe(moves[..n], b, m);
      SettledStep(QueueAfter(moves[..n], m), moves[n], b, m, i);
      var id := QueueAfter(moves[..k], m).events[i].id;
      forall j | k <= j < |moves| && moves[j].Poll?
        ensures !HasId(moves[j].batch, id)
      {
        assert j < n ==> moves[..n][j] == moves[j];
      }
    }
  }

  // ------------------------------------------- store writes that may fail

  ghost predicate OfferedRun(moves: seq<Move>, b: nat, m: nat) {
    moves == [] ||
    var n := |moves| - 1;
    OfferedRun(moves[..n], b, m) && Offered(QueueAfter(moves[..n], m), moves[n], b)
  }

  /** The pass delivered the event but could not mark it published. */
  predicate MarkFailed(move: Move, id: Id) {
    move.Poll? && HasId(move.batch, id) && move.outcomes(id).delivered && !move.outcomes(id).marked
  }

  function FailedMarks(moves: seq<Move>, id: Id): nat {
    if moves == [] then 0
    else FailedMarks(moves[..|moves| - 1], id) + (if MarkFailed(moves[|moves| - 1], id) then 1 else 0)
  }

  predicate IsPublished(events: seq<OutboxEvent>, id: Id) {
    exists i :: 0 <= i < |events| && events[i].id == id && events[i].published
  }

  lemma {:induction false} CountOfDistinct(ids: seq<Id>, id: Id)
    requires NoDuplicates(ids)
    ensures multiset(ids)[id] == if id in ids then 1 else 0
  {
    if ids != [] {
      var n := |ids| - 1;
      CountOfDistinct(ids[..n], id);
      assert ids == ids[..n] + [ids[n]];
    }
  }

  lemma OfferedKeepsDistinct(q: Queue, move: Move, b: nat, m: nat)
    requires DistinctEvents(q.events) && Offered(q, move, b)
    ensures DistinctEvents(Next(q, move, m).events)
  {
    if move.Poll? {
      KeepsIds(q.events, Next(q, move, m).events, move.batch, move.outcomes, m);
    }
  }

  /** A pass publishes exactly the fetched events that it delivered and marked. */
  lemma PollPublishes(q: Queue, batch: seq<OutboxEvent>, outcomes: Id -> Outcome, b: nat, m: nat, id: Id)
    requires DistinctEvents(q.events) && Fetches(q.events, batch, b)
    ensures HasId(batch, id) ==> !IsPublished(q.events, id)
    ensures IsPublished(AfterPass(q.events, batch, outcomes, m), id) <==>
      IsPublished(q.events, id) || (HasId(batch, id) && outcomes(id).delivered && outcomes(id).marked)
  {
    BatchIsRows(q.events, batch, b);
    var after := AfterPass(q.events, batch, outcomes, m);
    assert forall i :: 0 <= i < |q.events| ==> RowAfter(q.events[i], after[i], batch, outcomes, m);
    if HasId(batch, id) {
      assert HasId(q.events, id);
      var k :| 0 <= k < |q.events| && q.events[k].id == id;
      assert RowAfter(q.events[k], after[k], batch, outcomes, m);
    } else {
      assert forall i :: 0 <= i < |q.events| && q.events[i].id == id ==> after[i] == q.events[i];
    }
  }

  lemma MoveCounts(q: Queue, move: Move, b: nat, m: nat, id: Id)
    requires DistinctEvents(q.events) && Offered(q, move, b)
    ensures var q' := Next(q, move, m);
      multiset(q'.delivered)[id] + (if IsPublished(q.events, id) then 1 else 0) ==
      multiset(q.delivered)[id] + (if IsPublished(q'.events, id) then 1 else 0)
      + (if MarkFailed(move, id) then 1 else 0)
  {
    var q' := Next(q, move, m);
    match move
    case Arrive(e) =>
      assert forall i :: 0 <= i < |q.events| ==> q'.events[i] == q.events[i];
    case Poll(batch, outcomes) =>
      DeliveriesOfBatch(batch, outcomes);
      CountOfDistinct(Deliveries(batch, outcomes), id);
      PollPublishes(q, batch, outcomes, b, m, id);
  }

  /**
   Whatever store writes fail, an event has been delivered once for each pass that
   delivered it and could not mark it, and once more if it is published. So it is
   sent twice only after such a failed mark.
  */
  lemma {:induction false} DeliveryCount(moves: seq<Move>, b: nat, m: nat, id: Id)
    requires OfferedRun(moves, b, m)
    ensures var q := QueueAfter(moves, m);
      && DistinctEvents(q.events)
      && multiset(q.delivered)[id] == FailedMarks(moves, id) + (if IsPublished(q.events, id) then 1 else 0)
      && (multiset(q.delivered)[id] > 1 ==> FailedMarks(moves, id) > 0)
  {
    hide DistinctEvents, Next, Offered, MarkFailed, IsPublished;
    if moves == [] {
      NothingSent(m, id);
    } else {
      var n := |moves| - 1;
      DeliveryCount(moves[..n], b, m, id);
      OfferedKeepsDistinct(QueueAfter(moves[..n], m), moves[n], b, m);
      MoveCounts(QueueAfter(moves[..n], m), moves[n], b, m, id);
    }
  }

  lemma NothingSent(m: nat, id: Id)
    ensures DistinctEvents(QueueAfter([], m).events) && !IsPublished(QueueAfter([], m).events, id)
  {
  }

  // ------------------------------------------ what a row says of its past

  /** The pass fetched the event and could not deliver it. */
  predicate Failed(move: Move, id: Id) {
    move.Poll? && HasId(move.batch, id) && !move.outcomes(id).delivered
  }

  /** The pass delivered the event and marked it published. */
  predicate Marked(move: Move, id: Id) {
    move.Poll? && HasId(move.batch, id) && move.outcomes(id).delivered && move.outcomes(id).marked
  }

  /** The failed delivery was counted in the row. */
  predicate Recorded(move: Move, id: Id) {
    Failed(move, id) && move.outcomes(id).recorded
  }

  function Failures(moves: seq<Move>, id: Id): nat {
    if moves == [] then 0
    else Failures(moves[..|moves| - 1], id) + (if Failed(moves[|moves| - 1], id) then 1 else 0)
  }

  /** The failures whose count was written back. */
  function RecordedFailures(moves: seq<Move>, id: Id): nat {
    if moves == [] then 0
    else RecordedFailures(moves[..|moves| - 1], id) + (if Recorded(moves[|moves| - 1], id) then 1 else 0)
  }

  predicate EverMarked(moves: seq<Move>, id: Id) {
    exists j :: 0 <= j < |moves| && Marked(moves[j], id)
  }

  /** Move j recorded a failure, the m-th or a later one, and could mark the event dead-lettered. */
  predicate BuriedAt(moves: seq<Move>, j: nat, id: Id, m: nat)
    requires j < |moves|
  {
    && Recorded(moves[j], id) && moves[j].outcomes(id).buried
    && RecordedFailures(moves[..j + 1], id) >= m
  }

  predicate EverBuried(moves: seq<Move>, id: Id, m: nat) {
    exists j :: 0 <= j < |moves| && BuriedAt(moves, j, id, m)
  }

  /** The event arrived as this row says, untried. */
  predicate ArrivedAs(moves: seq<Move>, e: OutboxEvent) {
    exists j :: 0 <= j < |moves| && moves[j] == Arrive(e.(published := false, attempts := 0, deadLettered := false))
  }

  ghost predicate RowTells(e: OutboxEvent, moves: seq<Move>, m: nat) {
    && e.attempts == RecordedFailures(moves, e.id)
    && (e.published <==> EverMarked(moves, e.id))
    && (e.deadLettered <==> EverBuried(moves, e.id, m))
    && ArrivedAs(moves, e)
  }

  /** One more move, as the counts and the witnesses see it. */
  lemma PastGrows(moves: seq<Move>, move: Move, id: Id, m: nat)
    ensures RecordedFailures(moves + [move], id) ==
      RecordedFailures(moves, id) + (if Recorded(move, id) then 1 else 0)
    ensures EverMarked(moves + [move], id) <==> EverMarked(moves, id) || Marked(move, id)
    ensures EverBuried(moves + [move], id, m) <==> EverBuried(moves, id, m) || BuriedNow(moves, move, id, m)
  {
    hide Marked, Failed, RecordedFailures;
    var n, all := |moves|, moves + [move];
    CountGrows(moves, move, id);
    assert all[n] == move && forall j :: 0 <= j < n ==> all[j] == moves[j];
    if EverBuried(all, id, m) {
      var j :| 0 <= j <= n && BuriedAt(all, j, id, m);
      assert if j < n then all[..j + 1] == moves[..j + 1] else all[..j + 1] == all;
      assert j < n ==> BuriedAt(moves, j, id, m);
    }
    if EverBuried(moves, id, m) {
      var j :| 0 <= j < n && BuriedAt(moves, j, id, m);
      assert all[..j + 1] == moves[..j + 1];
      assert BuriedAt(all, j, id, m);
    }
    assert all[..n + 1] == all;
    assert BuriedNow(moves, move, id, m) ==> BuriedAt(all, n, id, m);
  }

  predicate BuriedNow(moves: seq<Move>, move: Move, id: Id, m: nat) {
    Recorded(move, id) && move.outcomes(id).buried && RecordedFailures(moves, id) + 1 >= m
  }

  lemma CountGrows(moves: seq<Move>, move: Move, id: Id)
    ensures RecordedFailures(moves + [move], id) ==
      RecordedFailures(moves, id) + (if Recorded(move, id) then 1 else 0)
  {
    assert (moves + [move])[..|moves|] == moves;
  }

  lemma ArrivedGrows(moves: seq<Move>, move: Move, e: OutboxEvent)
    ensures ArrivedAs(moves, e) ==> ArrivedAs(moves + [move], e)
    ensures move == Arrive(e.(published := false, attempts := 0, deadLettered := false)) ==>
      ArrivedAs(moves + [move], e)
  {
    assert (moves + [move])[|moves|] == move;
    assert forall j :: 0 <= j < |moves| ==> (moves + [move])[j] == moves[j];
  }

  /** Nothing has happened to an event that is not there. */
  lemma {:induction false} NotThereYet(moves: seq<Move>, b: nat, m: nat, id: Id)
    requires OfferedRun(moves, b, m) && !HasId(QueueAfter(moves, m).events, id)
    ensures RecordedFailures(moves, id) == 0 && !EverMarked(moves, id) && !EverBuried(moves, id, m)
  {
    if moves != [] {
      var n := |moves| - 1;
      var q, move := QueueAfter(moves[..n], m), moves[n];
      assert moves == moves[..n] + [move];
      hide RecordedFailures, EverMarked, EverBuried;
      DeliveryCount(moves[..n], b, m, id);
      NotThereBefore(q, move, b, m, id);
      NotThereYet(moves[..n], b, m, id);
      PastGrows(moves[..n], move, id, m);
    }
  }

  lemma NotThereBefore(q: Queue, move: Move, b: nat, m: nat, id: Id)
    requires DistinctEvents(q.events) && Offered(q, move, b) && !HasId(Next(q, move, m).events, id)
    ensures !HasId(q.events, id) && !Failed(move, id) && !Marked(move, id)
  {
    var q' := Next(q, move, m);
    match move
    case Arrive(e) =>
      assert forall i :: 0 <= i < |q.events| ==> q'.events[i] == q.events[i];
    case Poll(batch, outcomes) =>
      KeepsIds(q.events, q'.events, batch, outcomes, m);
      BatchIsRows(q.events, batch, b);
      assert forall i :: 0 <= i < |q.events| ==> q'.events[i].id == q.events[i].id;
  }

  lemma PollTells(e: OutboxEvent, e': OutboxEvent, moves: seq<Move>, move: Move, m: nat)
    requires move.Poll? && RowTells(e, moves, m) && RowAfter(e, e', move.batch, move.outcomes, m)
    requires HasId(move.batch, e.id) ==> Pending(e)
    ensures RowTells(e', moves + [move], m)
  {
    hide RecordedFailures, EverMarked, EverBuried, ArrivedAs, HasId;
    PastGrows(moves, move, e.id, m);
    ArrivedGrows(moves, move, e);
    SameArrival(moves + [move], e, e');
  }

  lemma SameArrival(moves: seq<Move>, e: OutboxEvent, e': OutboxEvent)
    requires e'.(published := false, attempts := 0, deadLettered := false) ==
      e.(published := false, attempts := 0, deadLettered := false)
    ensures ArrivedAs(moves, e) ==> ArrivedAs(moves, e')
  {
  }

  lemma ArriveTells(e: OutboxEvent, moves: seq<Move>, move: Move, m: nat)
    requires RowTells(e, moves, m) && move.Arrive?
    ensures RowTells(e, moves + [move], m)
  {
    hide RecordedFailures, EverMarked, EverBuried, ArrivedAs;
    PastGrows(moves, move, e.id, m);
    ArrivedGrows(moves, move, e);
  }

  lemma NewTells(e: OutboxEvent, moves: seq<Move>, b: nat, m: nat)
    requires OfferedRun(moves, b, m) && Offered(QueueAfter(moves, m), Arrive(e), b)
    ensures RowTells(e, moves + [Arrive(e)], m)
  {
    NotThereYet(moves, b, m, e.id);
    PastGrows(moves, Arrive(e), e.id, m);
    hide RecordedFailures, EverMarked, EverBuried, ArrivedAs;
    assert e == e.(published := false, attempts := 0, deadLettered := false);
    ArrivedGrows(moves, Arrive(e), e);
  }

  /**
   Whatever store writes fail, a row is what its event's deliveries made of it: its
   attempts are the failures that were recorded, it is published exactly if a delivery
   was marked, and dead-lettered exactly if a recorded failure, the m-th or later, was
   marked so. All else is as it arrived.
  */
  lemma {:induction false} RowsTellTheirPast(moves: seq<Move>, b: nat, m: nat, i: nat)
    requires OfferedRun(moves, b, m) && i < |QueueAfter(moves, m).events|
    ensures RowTells(QueueAfter(moves, m).events[i], moves, m)
  {
    hide RowTells, HasId, Handle;
    var n := |moves| - 1;
    var q, move := QueueAfter(moves[..n], m), moves[n];
    assert moves == moves[..n] + [move];
    match move
    case Arrive(e) =>
      if i < |q.events| {
        RowsTellTheirPast(moves[..n], b, m, i);
        ArriveTells(q.events[i], moves[..n], move, m);
      } else {
        NewTells(e, moves[..n], b, m);
      }
    case Poll(batch, outcomes) =>
      RowsTellTheirPast(moves[..n], b, m, i);
      DeliveryCount(moves[..n], b, m, 0);
      BatchIsRows(q.events, batch, b);
      assert RowAfter(q.events[i], AfterPass(q.events, batch, outcomes, m)[i], batch, outcomes, m);
      PollTells(q.events[i], QueueAfter(moves, m).events[i], moves[..n], move, m);
  }

  lemma {:induction false} AllFailuresRecorded(moves: seq<Move>, b: nat, m: nat, id: Id)
    requires AllowedRun(moves, b, m)
    ensures OfferedRun(moves, b, m) && RecordedFailures(moves, id) == Failures(moves, id)
  {
    if moves != [] {
      var n := |moves| - 1;
      AllFailuresRecorded(moves[..n], b, m, id);
      if Failed(moves[n], id) {
        var k :| 0 <= k < |moves[n].batch| && moves[n].batch[k].id == id;
        assert moves[n].outcomes(moves[n].batch[k].id).Stored();
      }
    }
  }

  /**
   With store writes succeeding, attempts count the failed deliveries, and an event is
   dead-lettered exactly when m of its deliveries have failed, never earlier or later.
  */
  lemma DeadAfterExactly(moves: seq<Move>, b: nat, m: nat, i: nat)
    requires m > 0 && AllowedRun(moves, b, m) && i < |QueueAfter(moves, m).events|
    ensures var e := QueueAfter(moves, m).events[i];
      && e.attempts == Failures(moves, e.id) <= m
      && (e.deadLettered <==> Failures(moves, e.id) == m)
  {
    var e := QueueAfter(moves, m).events[i];
    AllFailuresRecorded(moves, b, m, e.id);
    RowsTellTheirPast(moves, b, m, i);
    ReachableSafe(moves, b, m);
    assert RowSafe(e, QueueAfter(moves, m).delivered, m);
  }
}
