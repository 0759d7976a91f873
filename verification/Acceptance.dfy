/**
 Exactly which commands a reachable ledger accepts, in terms a caller could check
 beforehand, and what error each of the others is refused with.
*/
module Acceptance {
  import opened Wrappers
  import opened Domain
  import opened Ledger
  import opened Projections
  import opened Invariants
  import opened Reachability
  import opened Guarantees
  import opened Batches
  import opened TransferUseCase

  /** The account can give the amount: it may go negative, or that much is neither spent nor held. */
  predicate CanGive(l: Tables, account: Id, amount: int) {
    && account in l.accounts
    && (l.accounts[account].allowNegative || l.accounts[account].balance - l.accounts[account].encumbered >= amount)
  }

  /** The account can take the amount: it may go positive, or stays at or below zero. */
  predicate CanTake(l: Tables, account: Id, amount: int) {
    account in l.accounts && (l.accounts[account].allowPositive || l.accounts[account].balance + amount <= 0)
  }

  predicate SameCurrency(l: Tables, a: Id, b: Id) {
    a in l.accounts && b in l.accounts && l.accounts[a].currency == l.accounts[b].currency
  }

  /** No transfer is linked to this one. */
  predicate NotReversed(l: Tables, id: Id) {
    forall i :: 0 <= i < |l.transfers| ==> l.transfers[i].reversed != Some(id)
  }

  /** A link to a committed transfer not yet reversed; a row may also name itself. */
  predicate LinkFree(l: Tables, link: Option<Id>, own: Id) {
    link.Some? ==>
      && NotReversed(l, link.value)
      && (link.value == own || exists i :: 0 <= i < |l.transfers| && l.transfers[i].id == link.value)
  }

  // ------------------------------------------------------------ transfers

  /** The giver can give, the taker can take, and the link is free. */
  predicate TransferAllowed(l: Tables, input: TransferInput, base: Id) {
    && input.from != input.to && input.amount > 0
    && SameCurrency(l, input.from, input.to)
    && CanGive(l, input.from, input.amount) && CanTake(l, input.to, input.amount)
    && LinkFree(l, input.reversed, base)
  }

  /** The reason a transfer that is not allowed is refused: the first of these that applies. */
  function WhyNotTransfer(l: Tables, input: TransferInput): Error {
    if input.from == input.to then SameAccount
    else if input.amount <= 0 then InvalidAmount
    else if input.from !in l.accounts || input.to !in l.accounts then AccountNotFound
    else if !SameCurrency(l, input.from, input.to) then CurrencyMismatch
    else if !CanGive(l, input.from, input.amount) then NegativeBalanceNotAllowed
    else if !CanTake(l, input.to, input.amount) then PositiveBalanceNotAllowed
    else if input.reversed.Some? && !NotReversed(l, input.reversed.value) then TransferAlreadyReversed
    else ReversedTransferMissing
  }

  lemma TransferDecided(l: Tables, input: TransferInput, base: Id, now: Time)
    requires AllPermitted(l.accounts)
    ensures var r :=
        if CheckInput(input).Fail? then Failure(CheckInput(input).error) else PostTransfer(l, input, base, now);
      && (r.Success? <==> TransferAllowed(l, input, base))
      && (r.Failure? ==> r.error == WhyNotTransfer(l, input))
  {
    TransferNeverChecked(l, input, base, now);
  }

  lemma TransferAcceptedIff(steps: seq<Step>, input: TransferInput, base: Id, now: Time)
    requires FreshRun(steps)
    ensures var r := Apply(Run(steps), Batch([input]), base, now);
      && (r.Success? <==> TransferAllowed(Run(steps), input, base))
      && (r.Failure? ==> r.error == WhyNotTransfer(Run(steps), input))
  {
    ReachableInvariant(steps);
    hide Run, FreshRun, PostTransfer, CreateBatch, TransferAllowed, WhyNotTransfer, AllPermitted;
    SingleBatch(Run(steps), input, base, now);
    TransferDecided(Run(steps), input, base, now);
  }

  lemma {:induction false} FirstBadInput(inputs: seq<TransferInput>)
    ensures CheckInputs(inputs).Pass? <==>
      forall i :: 0 <= i < |inputs| ==> inputs[i].from != inputs[i].to && inputs[i].amount > 0
    ensures CheckInputs(inputs).Fail? ==>
      exists i :: 0 <= i < |inputs| && FirstRefused(inputs, i, CheckInputs(inputs).error)
  {
    if inputs != [] {
      var n := |inputs| - 1;
      FirstBadInput(inputs[..n]);
      if CheckInputs(inputs[..n]).Fail? {
        var i :| 0 <= i < n && FirstRefused(inputs[..n], i, CheckInputs(inputs).error);
        assert FirstRefused(inputs, i, CheckInputs(inputs).error);
      } else if CheckInputs(inputs).Fail? {
        assert FirstRefused(inputs, n, CheckInputs(inputs).error);
      }
    }
  }

  /**
   Before any transfer is posted, a batch is refused for the first input that cannot be
   a transfer, and then for a missing account; Batches.BatchIsOneByOne has the rest.
  */
  lemma BatchRefusedFirst(l: Tables, inputs: seq<TransferInput>, base: Id, now: Time)
    ensures var r := Apply(l, Batch(inputs), base, now);
      if exists i :: 0 <= i < |inputs| && (inputs[i].from == inputs[i].to || inputs[i].amount <= 0)
      then r.Failure? && exists i :: 0 <= i < |inputs| && FirstRefused(inputs, i, r.error)
      else (exists i :: 0 <= i < |inputs| && (inputs[i].from !in l.accounts || inputs[i].to !in l.accounts)) ==>
        r == Failure(AccountNotFound)
  {
    FirstBadInput(inputs);
  }

  /** Not reversed yet, and the receiver can give the amount back to a sender that can take it. */
  predicate ReversalAllowed(l: Tables, t: Transfer) {
    NotReversed(l, t.id) && CanGive(l, t.to, t.amount) && CanTake(l, t.from, t.amount)
  }

  function WhyNotReversal(l: Tables, t: Transfer): Error {
    if !CanGive(l, t.to, t.amount) then NegativeBalanceNotAllowed
    else if !CanTake(l, t.from, t.amount) then PositiveBalanceNotAllowed
    else TransferAlreadyReversed
  }

  /** What a committed transfer already vouches for. */
  lemma ReversalDecided(l: Tables, t: Transfer, base: Id)
    requires Paired(l.accounts, l.transfers, l.entries) && t in l.transfers
    ensures TransferAllowed(l, ReversalOf(t), base) <==> ReversalAllowed(l, t)
    ensures !ReversalAllowed(l, t) ==> WhyNotTransfer(l, ReversalOf(t)) == WhyNotReversal(l, t)
  {
    var i :| 0 <= i < |l.transfers| && l.transfers[i] == t;
    assert ValidTransfer(l.accounts, l.transfers[i]);
  }

  lemma KnownReversal(steps: seq<Step>, t: Transfer, base: Id, now: Time)
    requires FreshRun(steps) && FindTransfer(Run(steps).transfers, t.id) == Some(t)
    ensures var r := Apply(Run(steps), Reverse(t.id), base, now);
      && (r.Success? <==> ReversalAllowed(Run(steps), t))
      && (r.Failure? ==> r.error == WhyNotReversal(Run(steps), t))
  {
    hide *;
    ReachableRows(steps);
    ReverseIsBatch(Run(steps), t, base, now);
    TransferAcceptedIff(steps, ReversalOf(t), base, now);
    ReversalDecided(Run(steps), t, base);
  }

  lemma ReverseIsBatch(l: Tables, t: Transfer, base: Id, now: Time)
    requires FindTransfer(l.transfers, t.id) == Some(t)
    ensures Apply(l, Reverse(t.id), base, now) == Apply(l, Batch([ReversalOf(t)]), base, now)
  {
    hide CreateBatch, FindTransfer;
  }

  lemma ReachableRows(steps: seq<Step>)
    requires FreshRun(steps)
    ensures var l := Run(steps);
      && AllPermitted(l.accounts) && HoldsBacked(l.accounts, l.holdIds, l.holds)
      && Paired(l.accounts, l.transfers, l.entries) && NoDuplicates(TransferIds(l.transfers))
  {
    ReachableInvariant(steps);
    hide Run, FreshRun, AllPermitted, HoldsBacked, Paired, NoDuplicates;
  }

  /** A transfer can be reversed exactly when it exists, has not been reversed, and its receiver can give it back. */
  lemma ReversalAcceptedIff(steps: seq<Step>, original: Id, base: Id, now: Time)
    requires FreshRun(steps)
    ensures var l, r := Run(steps), Apply(Run(steps), Reverse(original), base, now);
      && (forall k :: 0 <= k < |l.transfers| && l.transfers[k].id == original ==>
            && (r.Success? <==> ReversalAllowed(l, l.transfers[k]))
            && (r.Failure? ==> r.error == WhyNotReversal(l, l.transfers[k])))
      && ((forall k :: 0 <= k < |l.transfers| ==> l.transfers[k].id != original) ==> r == Failure(TransferNotFound))
  {
    ReachableInvariant(steps);
    var l := Run(steps);
    forall k | 0 <= k < |l.transfers| && l.transfers[k].id == original
      ensures FindTransfer(l.transfers, original) == Some(l.transfers[k])
    {
      FoundByItsId(l, k);
    }
    hide Run, FreshRun, Apply, Invariant, ReversalAllowed, WhyNotReversal;
    forall k | 0 <= k < |l.transfers| && l.transfers[k].id == original
      ensures var r := Apply(l, Reverse(original), base, now);
        && (r.Success? <==> ReversalAllowed(l, l.transfers[k]))
        && (r.Failure? ==> r.error == WhyNotReversal(l, l.transfers[k]))
    {
      KnownReversal(steps, l.transfers[k], base, now);
    }
    if forall k :: 0 <= k < |l.transfers| ==> l.transfers[k].id != original {
      UnknownReversal(l, original, base, now);
    }
  }

  lemma UnknownReversal(l: Tables, original: Id, base: Id, now: Time)
    requires forall k :: 0 <= k < |l.transfers| ==> l.transfers[k].id != original
    ensures Apply(l, Reverse(original), base, now) == Failure(TransferNotFound)
  {
  }

  lemma FoundByItsId(l: Tables, k: nat)
    requires NoDuplicates(TransferIds(l.transfers)) && k < |l.transfers|
    ensures FindTransfer(l.transfers, l.transfers[k].id) == Some(l.transfers[k])
  {
    var id := l.transfers[k].id;
    assert HasTransfer(l.transfers, id);
    var t := FindTransfer(l.transfers, id).value;
    var i :| 0 <= i < |l.transfers| && l.transfers[i] == t;
    SameTransfer(l.transfers, i, k);
  }

  // ---------------------------------------------------------------- holds

  function WhyNotHold(l: Tables, account: Id, amount: int): Error {
    if amount <= 0 then InvalidAmount
    else if account !in l.accounts then AccountNotFound
    else NegativeBalanceNotAllowed
  }

  lemma HoldAcceptedIff(steps: seq<Step>, account: Id, amount: int, base: Id, now: Time)
    requires FreshRun(steps)
    ensures var r := Apply(Run(steps), PlaceHold(account, amount), base, now);
      && (r.Success? <==> amount > 0 && CanGive(Run(steps), account, amount))
      && (r.Failure? ==> r.error == WhyNotHold(Run(steps), account, amount))
  {
    hide *;
    ReachableRows(steps);
    HoldDecided(Run(steps), account, amount, base, now);
  }

  lemma HoldDecided(l: Tables, account: Id, amount: int, base: Id, now: Time)
    requires AllPermitted(l.accounts)
    ensures var r := Apply(l, PlaceHold(account, amount), base, now);
      && (r.Success? <==> amount > 0 && CanGive(l, account, amount))
      && (r.Failure? ==> r.error == WhyNotHold(l, account, amount))
  {
    hide Emit;
  }

  /** Only the hold's status decides whether it can be voided. */
  lemma VoidAcceptedIff(steps: seq<Step>, hold: Id, base: Id, now: Time)
    requires FreshRun(steps)
    ensures var l, r := Run(steps), Apply(Run(steps), Void(hold), base, now);
      && (r.Success? <==> hold in l.holds && l.holds[hold].status == Active)
      && (r.Failure? ==> r.error == if hold !in l.holds then HoldNotFound else HoldNotActive)
  {
    if hold in Run(steps).holds && Run(steps).holds[hold].status == Active {
      VoidRestoresAvailable(steps, hold, base, now);
    }
  }

  predicate CaptureAllowed(l: Tables, hold: Id, to: Id) {
    && hold in l.holds && l.holds[hold].status == Active
    && to != l.holds[hold].account && SameCurrency(l, l.holds[hold].account, to)
    && CanTake(l, to, l.holds[hold].amount)
  }

  function WhyNotCapture(l: Tables, hold: Id, to: Id): Error {
    if hold !in l.holds then HoldNotFound
    else if l.holds[hold].status != Active then HoldNotActive
    else if to !in l.accounts then AccountNotFound
    else if !SameCurrency(l, l.holds[hold].account, to) then CurrencyMismatch
    else if !CanTake(l, to, l.holds[hold].amount) then PositiveBalanceNotAllowed
    else TransfersCheck
  }

  /** Capturing needs no funds beyond the hold: what was held is always there to be taken. */
  lemma CaptureAcceptedIff(steps: seq<Step>, hold: Id, to: Id, base: Id, now: Time)
    requires FreshRun(steps)
    ensures var r := Apply(Run(steps), Capture(hold, to), base, now);
      && (r.Success? <==> CaptureAllowed(Run(steps), hold, to))
      && (r.Failure? ==> r.error == WhyNotCapture(Run(steps), hold, to))
  {
    hide *;
    ReachableRows(steps);
    CaptureDecided(Run(steps), hold, to, base, now);
  }

  lemma CaptureDecided(l: Tables, hold: Id, to: Id, base: Id, now: Time)
    requires AllPermitted(l.accounts) && HoldsBacked(l.accounts, l.holdIds, l.holds)
    ensures var r := Apply(l, Capture(hold, to), base, now);
      && (r.Success? <==> CaptureAllowed(l, hold, to))
      && (r.Failure? ==> r.error == WhyNotCapture(l, hold, to))
  {
    if hold in l.holds && l.holds[hold].status == Active {
      ReleaseCovered(l, hold);
    }
  }

  // ------------------------------------------------------------- refusals

  /** The database itself failed; the tables had no say. */
  predicate OfTheDatabase(e: Error) {
    e == Deadlock || e == SerializationFailure || e == Unavailable
  }

  lemma {:induction false} PostAllRefusal(l: Tables, inputs: seq<TransferInput>, base: Id, now: Time)
    ensures var r := PostAll(l, inputs, base, now); r.Failure? ==> !OfTheDatabase(r.error)
  {
    hide PostTransfer;
    if inputs != [] {
      var n := |inputs| - 1;
      PostAllRefusal(l, inputs[..n], base, now);
      if PostAll(l, inputs[..n], base, now).Success? {
        PostTransferRefusal(PostAll(l, inputs[..n], base, now).value, inputs[n], base + 4 * n, now);
      }
    }
  }

  lemma PostTransferRefusal(l: Tables, input: TransferInput, base: Id, now: Time)
    ensures var r := PostTransfer(l, input, base, now); r.Failure? ==> !OfTheDatabase(r.error)
  {
  }

  /**
   What the tables refuse is never taken for a failure of the database: a refused
   command is not run again, and the two kinds of error never meet.
  */
  lemma RefusalIsFinal(l: Tables, c: Command, base: Id, now: Time)
    ensures var r := Apply(l, c, base, now);
      r.Failure? ==> !OfTheDatabase(r.error) && !r.error.Retryable() && !r.error.IsFault()
  {
    match c
    case Batch(inputs) =>
      CheckedInputsNoSchemaError(inputs);
      PostAllRefusal(l, inputs, base, now);
    case Reverse(original) =>
      if HasTransfer(l.transfers, original) {
        var inputs := [ReversalOf(FindTransfer(l.transfers, original).value)];
        CheckedInputsNoSchemaError(inputs);
        PostAllRefusal(l, inputs, base, now);
      }
    case _ =>
  }
}
