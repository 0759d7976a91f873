/**
 The ledger and its publisher on one outbox. A pass changes delivery bookkeeping,
 which no ledger step reads; so what holds of the outbox of a ledger run holds
 with any passes in between.
*/
module PublishedLedger {
  import opened Wrappers
  import opened Domain
  import opened Ledger
  import opened Projections
  import opened Invariants
  import opened Reachability
  import opened Batches
  import opened Guarantees
  import opened EventPublisher

  /** A ledger step, or a pass of the publisher with whatever it fetched and however that went. */
  datatype Turn = Work(step: Step) | Publish(batch: seq<OutboxEvent>, outcomes: Id -> Outcome)

  function TakeTurn(l: Tables, turn: Turn, m: nat): Tables {
    match turn
    case Work(s) => Take(l, s)
    case Publish(batch, outcomes) => l.(outbox := AfterPass(l.outbox, batch, outcomes, m))
  }

  /** The tables after ledger steps and passes in any order, with at most m attempts for each event. */
  function AfterTurns(turns: seq<Turn>, m: nat): Tables {
    if turns == [] then EMPTY
    else TakeTurn(AfterTurns(turns[..|turns| - 1], m), turns[|turns| - 1], m)
  }

  function LedgerSteps(turns: seq<Turn>): seq<Step> {
    if turns == [] then []
    else
      var rest := LedgerSteps(turns[..|turns| - 1]);
      if turns[|turns| - 1].Work? then rest + [turns[|turns| - 1].step] else rest
  }

  // ------------------------------------------- rows without bookkeeping

  /** The row as the ledger inserted it. */
  function AsInserted(e: OutboxEvent): OutboxEvent {
    e.(published := false, attempts := 0, deadLettered := false)
  }

  function AllAsInserted(outbox: seq<OutboxEvent>): (r: seq<OutboxEvent>)
    ensures |r| == |outbox| && forall i :: 0 <= i < |r| ==> r[i] == AsInserted(outbox[i])
  {
    seq(|outbox|, i requires 0 <= i < |outbox| => AsInserted(outbox[i]))
  }

  function Unpublished(l: Tables): Tables {
    l.(outbox := AllAsInserted(l.outbox))
  }

  function UnpublishedResult(r: Result<Tables, Error>): Result<Tables, Error> {
    match r
    case Success(l) => Success(Unpublished(l))
    case Failure(e) => Failure(e)
  }

  /** A pass leaves every row as inserted but for its bookkeeping. */
  lemma PassUnseen(outbox: seq<OutboxEvent>, batch: seq<OutboxEvent>, outcomes: Id -> Outcome, m: nat)
    ensures AllAsInserted(AfterPass(outbox, batch, outcomes, m)) == AllAsInserted(outbox)
  {
    var after := AfterPass(outbox, batch, outcomes, m);
    forall i | 0 <= i < |outbox|
      ensures AsInserted(after[i]) == AsInserted(outbox[i])
    {
      PassKeepsFacts(outbox, after, batch, outcomes, m, i);
    }
  }

  lemma {:induction false} QueriesUnchanged(outbox: seq<OutboxEvent>, aggregate: Aggregate)
    ensures MaxSequence(AllAsInserted(outbox), aggregate) == MaxSequence(outbox, aggregate)
    ensures NamedTransfers(AllAsInserted(outbox)) == NamedTransfers(outbox)
    ensures EventsOf(AllAsInserted(outbox), aggregate) == AllAsInserted(EventsOf(outbox, aggregate))
  {
    if outbox != [] {
      var n := |outbox| - 1;
      QueriesUnchanged(outbox[..n], aggregate);
      assert AllAsInserted(outbox)[..n] == AllAsInserted(outbox[..n]);
    }
  }

  // ------------------------------------------------- steps do not see it

  lemma EmitUnseen(l: Tables, id: Id, aggregate: Aggregate, eventType: EventType, transfer: Option<Id>, now: Time)
    ensures Emit(Unpublished(l), id, aggregate, eventType, transfer, now) ==
      Unpublished(Emit(l, id, aggregate, eventType, transfer, now))
  {
    QueriesUnchanged(l.outbox, aggregate);
    var e := Emit(l, id, aggregate, eventType, transfer, now).outbox[|l.outbox|];
    assert AllAsInserted(l.outbox + [e]) == AllAsInserted(l.outbox) + [e];
  }

  lemma InsertUnseen(l: Tables, t: Transfer)
    ensures InsertTransfer(Unpublished(l), t) == UnpublishedResult(InsertTransfer(l, t))
  {
    hide AllAsInserted, HasReversal, HasTransfer;
  }

  lemma PostEntryUnseen(l: Tables, id: Id, account: Id, transfer: Id, amount: int, release: int, now: Time)
    requires account in l.accounts
    ensures PostEntry(Unpublished(l), id, account, transfer, amount, release, now) ==
      UnpublishedResult(PostEntry(l, id, account, transfer, amount, release, now))
  {
    hide AllAsInserted;
  }

  lemma PostTwoUnseen(l: Tables, t: Transfer, release: int, now: Time)
    requires t.from in l.accounts && t.to in l.accounts
    ensures PostTwo(Unpublished(l), t, release, now) == UnpublishedResult(PostTwo(l, t, release, now))
  {
    SameRowsUnpublished(l);
    hide Unpublished, PostEntry;
    PostEntryUnseen(l, t.id + 1, t.from, t.id, -t.amount, release, now);
    PostKeepsKeys(l, t.id + 1, t.from, t.id, -t.amount, release, now);
    var first := PostEntry(l, t.id + 1, t.from, t.id, -t.amount, release, now);
    if first.Success? {
      SameRowsUnpublished(first.value);
      PostEntryUnseen(first.value, t.id + 2, t.to, t.id, t.amount, 0, now);
    }
  }

  lemma SameRowsUnpublished(l: Tables)
    ensures Unpublished(l).accounts == l.accounts
  {
  }

  lemma MoveUnseen(l: Tables, t: Transfer, release: int, now: Time)
    requires t.from in l.accounts && t.to in l.accounts
    ensures Move(Unpublished(l), t, release, now) == UnpublishedResult(Move(l, t, release, now))
  {
    SameRowsUnpublished(l);
    hide Unpublished, InsertTransfer, PostEntry;
    InsertUnseen(l, t);
    InsertKeepsAccounts(l, t);
    if InsertTransfer(l, t).Success? {
      SameRowsUnpublished(InsertTransfer(l, t).value);
      PostTwoUnseen(InsertTransfer(l, t).value, t, release, now);
    }
  }

  lemma PostTransferUnseen(l: Tables, input: TransferInput, base: Id, now: Time)
    ensures PostTransfer(Unpublished(l), input, base, now) == UnpublishedResult(PostTransfer(l, input, base, now))
  {
    hide AllAsInserted, Move, Emit;
    if input.from in l.accounts && input.to in l.accounts {
      var t := Transfer(base, input.from, input.to, input.amount, now, input.reversed);
      MoveUnseen(l, t, 0, now);
      if Move(l, t, 0, now).Success? {
        EmitUnseen(Move(l, t, 0, now).value, base + 3, TransferAggregate(base), TransferEventType(t), Some(base), now);
      }
    }
  }

  lemma {:induction false} PostAllUnseen(l: Tables, inputs: seq<TransferInput>, base: Id, now: Time)
    ensures PostAll(Unpublished(l), inputs, base, now) == UnpublishedResult(PostAll(l, inputs, base, now))
  {
    hide Unpublished, PostTransfer;
    if inputs != [] {
      var n := |inputs| - 1;
      PostAllUnseen(l, inputs[..n], base, now);
      if PostAll(l, inputs[..n], base, now).Success? {
        PostTransferUnseen(PostAll(l, inputs[..n], base, now).value, inputs[n], base + 4 * n, now);
      }
    }
  }

  lemma HoldFundsUnseen(l: Tables, account: Id, amount: int, base: Id, now: Time)
    ensures HoldFunds(Unpublished(l), account, amount, base, now) ==
      UnpublishedResult(HoldFunds(l, account, amount, base, now))
  {
    hide AllAsInserted, Emit;
    if account in l.accounts {
      var a := l.accounts[account];
      var l1 := l.(holdIds := l.holdIds + [base], holds := l.holds[base := Hold(base, account, amount, Active)]);
      var updated := UpdateAccount(l1, account, a.balance, a.encumbered + amount);
      if updated.Success? {
        EmitUnseen(updated.value, base + 1, HoldAggregate(base), HoldCreated, None, now);
      }
    }
  }

  lemma VoidHoldUnseen(l: Tables, hold: Id, base: Id, now: Time)
    ensures VoidHold(Unpublished(l), hold, base, now) == UnpublishedResult(VoidHold(l, hold, base, now))
  {
    hide AllAsInserted, Emit;
    if hold in l.holds && l.holds[hold].account in l.accounts {
      var h := l.holds[hold];
      var a := l.accounts[h.account];
      var l1 := l.(holds := l.holds[hold := h.(status := Voided)]);
      var encumbered := if a.encumbered - h.amount < 0 then 0 else a.encumbered - h.amount;
      var updated := UpdateAccount(l1, h.account, a.balance, encumbered);
      if updated.Success? {
        EmitUnseen(updated.value, base, HoldAggregate(hold), HoldVoided, None, now);
      }
    }
  }

  lemma CaptureHoldUnseen(l: Tables, hold: Id, to: Id, base: Id, now: Time)
    ensures CaptureHold(Unpublished(l), hold, to, base, now) == UnpublishedResult(CaptureHold(l, hold, to, base, now))
  {
    hide AllAsInserted, Emit, Move;
    if hold in l.holds && l.holds[hold].account in l.accounts && to in l.accounts {
      var h := l.holds[hold];
      var t := Transfer(base, h.account, to, h.amount, now, None);
      MoveUnseen(l, t, h.amount, now);
      var moved := Move(l, t, h.amount, now);
      if moved.Success? {
        var l2 := moved.value.(holds := moved.value.holds[hold := h.(status := Captured)]);
        EmitUnseen(l2, base + 3, HoldAggregate(hold), HoldCaptured, Some(base), now);
      }
    }
  }

  lemma ApplyUnseen(l: Tables, c: Command, base: Id, now: Time)
    ensures Apply(Unpublished(l), c, base, now) == UnpublishedResult(Apply(l, c, base, now))
  {
    hide AllAsInserted, PostAll, HoldFunds, VoidHold, CaptureHold;
    match c
    case Batch(inputs) => PostAllUnseen(l, inputs, base, now);
    case Reverse(original) =>
      if HasTransfer(l.transfers, original) {
        PostAllUnseen(l, [ReversalOf(FindTransfer(l.transfers, original).value)], base, now);
      }
    case PlaceHold(account, amount) => HoldFundsUnseen(l, account, amount, base, now);
    case Void(hold) => VoidHoldUnseen(l, hold, base, now);
    case Capture(hold, to) => CaptureHoldUnseen(l, hold, to, base, now);
    case Open(_, _, _) =>
  }

  /** With any passes in between, the tables are those of the ledger steps alone, but for delivery bookkeeping. */
  lemma {:induction false} PassesUnseen(turns: seq<Turn>, m: nat)
    ensures Unpublished(AfterTurns(turns, m)) == Run(LedgerSteps(turns))
  {
    hide Unpublished, Apply, AfterPass, AllAsInserted;
    if turns == [] {
      NothingToPublish();
    } else {
      var n := |turns| - 1;
      var l := AfterTurns(turns[..n], m);
      PassesUnseen(turns[..n], m);
      match turns[n]
      case Work(s) =>
        ApplyUnseen(l, s.command, s.base, s.at);
        var steps := LedgerSteps(turns[..n]);
        assert (steps + [s])[..|steps|] == steps;
      case Publish(batch, outcomes) => PassTurn(l, batch, outcomes, m);
    }
  }

  lemma NothingToPublish()
    ensures Unpublished(EMPTY) == EMPTY
  {
  }

  lemma PassTurn(l: Tables, batch: seq<OutboxEvent>, outcomes: Id -> Outcome, m: nat)
    ensures Unpublished(TakeTurn(l, Publish(batch, outcomes), m)) == Unpublished(l)
  {
    PassUnseen(l.outbox, batch, outcomes, m);
  }

  // --------------------------------------------------------- guarantees

  /** With any passes in between: sequence numbers are 1..k in commit order, k at most two; event ids are distinct. */
  lemma PublishedSequences(turns: seq<Turn>, m: nat, aggregate: Aggregate)
    requires FreshRun(LedgerSteps(turns))
    ensures var outbox := AfterTurns(turns, m).outbox;
      && Numbered(EventsOf(outbox, aggregate)) && |EventsOf(outbox, aggregate)| <= 2
      && MaxSequence(outbox, aggregate) == |EventsOf(outbox, aggregate)|
      && DistinctEvents(outbox)
  {
    PassesUnseen(turns, m);
    SequencesAreGapless(LedgerSteps(turns), aggregate);
    ReachableInvariant(LedgerSteps(turns));
    hide Run, Invariant, AfterTurns, LedgerSteps, FreshRun;
    var outbox := AfterTurns(turns, m).outbox;
    QueriesUnchanged(outbox, aggregate);
    var es := EventsOf(outbox, aggregate);
    forall i | 0 <= i < |es|
      ensures es[i].sequence == i + 1
    {
      assert AllAsInserted(es)[i].sequence == i + 1;
    }
    DistinctAsInserted(outbox);
  }

  lemma DistinctAsInserted(outbox: seq<OutboxEvent>)
    requires DistinctEvents(AllAsInserted(outbox))
    ensures DistinctEvents(outbox)
  {
    forall i, j | 0 <= i < j < |outbox|
      ensures outbox[i].id != outbox[j].id
    {
      assert AllAsInserted(outbox)[i].id != AllAsInserted(outbox)[j].id;
    }
  }

  /** With any passes in between: each committed transfer is named by exactly one event, of the right kind. */
  lemma PublishedNames(turns: seq<Turn>, m: nat, k: nat) returns (i: nat)
    requires FreshRun(LedgerSteps(turns)) && k < |AfterTurns(turns, m).transfers|
    ensures var l := AfterTurns(turns, m);
      && SoleName(l.outbox, i, l.transfers[k].id)
      && NamedTransfers(l.outbox) == TransferIds(l.transfers)
      && Announces(Unpublished(l), AsInserted(l.outbox[i]), l.transfers[k])
  {
    PassesUnseen(turns, m);
    var l := AfterTurns(turns, m);
    i := EveryTransferAnnounced(LedgerSteps(turns), k);
    hide Run, AfterTurns, LedgerSteps, FreshRun, Announces;
    QueriesUnchanged(l.outbox, TransferAggregate(0));
    forall j | 0 <= j < |l.outbox| && l.outbox[j].transfer == Some(l.transfers[k].id)
      ensures j == i
    {
      assert AllAsInserted(l.outbox)[j].transfer == Some(l.transfers[k].id);
    }
  }
}
