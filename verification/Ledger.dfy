/**
 The tables, the SQL statements that change them, and the committed effect of
 each use case as a function of the tables it finds.

 Every function reads current rows only; the use cases read each account once,
 keep it in memory and write absolute values. Modules TransferUseCase and
 HoldUseCase prove that the two agree.
*/
module Ledger {
  import opened Wrappers
  import opened Domain

  /** accountIds and holdIds list the rows of accounts and holds in insertion order. */
  datatype Tables = Tables(
    accountIds: seq<Id>, accounts: map<Id, Account>,
    transfers: seq<Transfer>, entries: seq<Entry>,
    holdIds: seq<Id>, holds: map<Id, Hold>,
    outbox: seq<OutboxEvent>)

  const EMPTY := Tables([], map[], [], [], [], map[], [])

  // ---------------------------------------------------------------- queries

  predicate HasTransfer(transfers: seq<Transfer>, id: Id) {
    exists i :: 0 <= i < |transfers| && transfers[i].id == id
  }

  predicate HasReversal(transfers: seq<Transfer>, id: Id) {
    exists i :: 0 <= i < |transfers| && transfers[i].reversed == Some(id)
  }

  function FindTransfer(transfers: seq<Transfer>, id: Id): (r: Option<Transfer>)
    ensures r.Some? <==> HasTransfer(transfers, id)
    ensures r.Some? ==> r.value in transfers && r.value.id == id
  {
    if transfers == [] then None
    else if transfers[0].id == id then Some(transfers[0])
    else
      assert forall i :: 1 <= i < |transfers| ==> transfers[i] == transfers[1..][i - 1];
      FindTransfer(transfers[1..], id)
  }

  /** COALESCE(MAX(aggregate_sequence), 0) over the rows of one aggregate. */
  function MaxSequence(outbox: seq<OutboxEvent>, aggregate: Aggregate): int {
    if outbox == [] then 0
    else
      var last := outbox[|outbox| - 1];
      var rest := MaxSequence(outbox[..|outbox| - 1], aggregate);
      if last.aggregate == aggregate && last.sequence > rest then last.sequence else rest
  }

  // ------------------------------------------------------------- statements

  /** INSERT INTO transfers: CHECK, unique reversal index, reversal foreign key. */
  function InsertTransfer(l: Tables, t: Transfer): Result<Tables, Error> {
    if t.amount <= 0 || t.from == t.to then Failure(TransfersCheck)
    else if t.reversed.Some? && HasReversal(l.transfers, t.reversed.value) then Failure(TransferAlreadyReversed)
    else if t.reversed.Some? && t.reversed.value != t.id && !HasTransfer(l.transfers, t.reversed.value)
    then Failure(ReversedTransferMissing)
    else Success(l.(transfers := l.transfers + [t]))
  }

  /** UPDATE accounts: every form of it bumps the version and is checked at once. */
  function UpdateAccount(l: Tables, id: Id, balance: int, encumbered: int): Result<Tables, Error>
    requires id in l.accounts
  {
    var row := l.accounts[id];
    var row' := row.(balance := balance, encumbered := encumbered, version := row.version + 1);
    if row'.Permitted() then Success(l.(accounts := l.accounts[id := row'])) else Failure(AccountsCheck)
  }

  /** The entry that posting `amount` to account a leaves behind. */
  function EntryFor(a: Account, id: Id, transfer: Id, amount: int, now: Time): Entry {
    Entry(id, a.id, transfer, amount, a.balance, a.balance + amount, a.version + 1, now)
  }

  /** Append an entry and move the account's balance by it, releasing encumbered funds. */
  function PostEntry(l: Tables, id: Id, account: Id, transfer: Id, amount: int, release: int, now: Time)
    : Result<Tables, Error>
    requires account in l.accounts
  {
    var a := l.accounts[account];
    var l1 := l.(entries := l.entries + [EntryFor(a, id, transfer, amount, now)]);
    UpdateAccount(l1, account, a.balance + amount, a.encumbered - release)
  }

  /** INSERT INTO outbox_events with the next sequence number of its aggregate. */
  function Emit(l: Tables, id: Id, aggregate: Aggregate, eventType: EventType, transfer: Option<Id>,
      now: Time): Tables {
    var sequence := MaxSequence(l.outbox, aggregate) + 1;
    l.(outbox := l.outbox + [OutboxEvent(id, aggregate, eventType, transfer, sequence, now, false, 0, false)])
  }

  lemma InsertKeepsAccounts(l: Tables, t: Transfer)
    ensures InsertTransfer(l, t).Success? ==> InsertTransfer(l, t).value.accounts == l.accounts
  {
  }

  lemma PostKeepsKeys(l: Tables, id: Id, account: Id, transfer: Id, amount: int, release: int, now: Time)
    requires account in l.accounts
    ensures PostEntry(l, id, account, transfer, amount, release, now).Success? ==>
      PostEntry(l, id, account, transfer, amount, release, now).value.accounts.Keys == l.accounts.Keys
  {
  }

  // -------------------------------------------------------------- use cases

  function OpenAccount(l: Tables, currency: Currency, allowNegative: bool, allowPositive: bool, base: Id): Tables {
    l.(accountIds := l.accountIds + [base],
       accounts := l.accounts[base := Account(base, currency, 0, 0, 0, allowNegative, allowPositive)])
  }

  /** Insert a transfer and post both of its entries. */
  function Move(l: Tables, t: Transfer, release: int, now: Time): Result<Tables, Error>
    requires t.from in l.accounts && t.to in l.accounts
  {
    var l1 :- InsertTransfer(l, t);
    var l2 :- PostEntry(l1, t.id + 1, t.from, t.id, -t.amount, release, now);
    PostEntry(l2, t.id + 2, t.to, t.id, t.amount, 0, now)
  }

  function TransferEventType(t: Transfer): EventType {
    if t.reversed.Some? then TransferReversed else TransferCreated
  }

  function PostTransfer(l: Tables, input: TransferInput, base: Id, now: Time): Result<Tables, Error> {
    if input.from !in l.accounts || input.to !in l.accounts then Failure(AccountNotFound)
    else
      var from, to := l.accounts[input.from], l.accounts[input.to];
      if from.currency != to.currency then Failure(CurrencyMismatch) else
      :- from.ValidateDebit(input.amount);
      :- to.ValidateCredit(input.amount);
      var t := Transfer(base, input.from, input.to, input.amount, now, input.reversed);
      :- t.Validate();
      var l1 :- Move(l, t, 0, now);
      Success(Emit(l1, base + 3, TransferAggregate(base), TransferEventType(t), Some(base), now))
  }

  /** Transfers one after another, four ids each. */
  function PostAll(l: Tables, inputs: seq<TransferInput>, base: Id, now: Time): Result<Tables, Error> {
    if inputs == [] then Success(l)
    else
      var n := |inputs| - 1;
      var l1 :- PostAll(l, inputs[..n], base, now);
      PostTransfer(l1, inputs[n], base + 4 * n, now)
  }

  function CheckInput(input: TransferInput): Check<Error> {
    if input.from == input.to then Fail(SameAccount)
    else if input.amount <= 0 then Fail(InvalidAmount)
    else Pass
  }

  function CheckInputs(inputs: seq<TransferInput>): Check<Error> {
    if inputs == [] then Pass
    else if CheckInputs(inputs[..|inputs| - 1]).Fail? then CheckInputs(inputs[..|inputs| - 1])
    else CheckInput(inputs[|inputs| - 1])
  }

  predicate AllKnown(l: Tables, inputs: seq<TransferInput>) {
    forall i :: 0 <= i < |inputs| ==> inputs[i].from in l.accounts && inputs[i].to in l.accounts
  }

  function CreateBatch(l: Tables, inputs: seq<TransferInput>, base: Id, now: Time): Result<Tables, Error> {
    if CheckInputs(inputs).Fail? then Failure(CheckInputs(inputs).error)
    else if !AllKnown(l, inputs) then Failure(AccountNotFound)
    else PostAll(l, inputs, base, now)
  }

  /** The input that undoes a transfer. */
  function ReversalOf(t: Transfer): TransferInput {
    TransferInput(t.to, t.from, t.amount, Some(t.id))
  }

  function HoldFunds(l: Tables, account: Id, amount: int, base: Id, now: Time): Result<Tables, Error> {
    if amount <= 0 then Failure(InvalidAmount)
    else if account !in l.accounts then Failure(AccountNotFound)
    else
      var a := l.accounts[account];
      :- a.ValidateDebit(amount);
      var l1 := l.(holdIds := l.holdIds + [base], holds := l.holds[base := Hold(base, account, amount, Active)]);
      var l2 :- UpdateAccount(l1, account, a.balance, a.encumbered + amount);
      Success(Emit(l2, base + 1, HoldAggregate(base), HoldCreated, None, now))
  }

  function VoidHold(l: Tables, hold: Id, base: Id, now: Time): Result<Tables, Error> {
    if hold !in l.holds then Failure(HoldNotFound)
    else
      var h := l.holds[hold];
      if h.status != Active then Failure(HoldNotActive)
      else if h.account !in l.accounts then Failure(AccountNotFound)
      else
        var a := l.accounts[h.account];
        var l1 := l.(holds := l.holds[hold := h.(status := Voided)]);
        var encumbered := if a.encumbered - h.amount < 0 then 0 else a.encumbered - h.amount;
        var l2 :- UpdateAccount(l1, h.account, a.balance, encumbered);
        Success(Emit(l2, base, HoldAggregate(hold), HoldVoided, None, now))
  }

  /** No transfer.Validate and no debit check here: only the schema stops a capture to the hold's own account. */
  function CaptureHold(l: Tables, hold: Id, to: Id, base: Id, now: Time): Result<Tables, Error> {
    if hold !in l.holds then Failure(HoldNotFound)
    else
      var h := l.holds[hold];
      if h.status != Active then Failure(HoldNotActive)
      else if h.account !in l.accounts || to !in l.accounts then Failure(AccountNotFound)
      else if l.accounts[h.account].currency != l.accounts[to].currency then Failure(CurrencyMismatch)
      else
        :- l.accounts[to].ValidateCredit(h.amount);
        var l1 :- Move(l, Transfer(base, h.account, to, h.amount, now, None), h.amount, now);
        var l2 := l1.(holds := l1.holds[hold := h.(status := Captured)]);
        Success(Emit(l2, base + 3, HoldAggregate(hold), HoldCaptured, Some(base), now))
  }

  // ------------------------------------------------------------------- runs

  datatype Command =
    | Open(currency: Currency, allowNegative: bool, allowPositive: bool)
    | Batch(inputs: seq<TransferInput>)
    | Reverse(original: Id)
    | PlaceHold(account: Id, amount: int)
    | Void(hold: Id)
    | Capture(hold: Id, to: Id)

  /** How many ids a command draws when it commits. */
  function Need(c: Command): nat {
    match c
    case Open(_, _, _) => 1
    case Batch(inputs) => 4 * |inputs|
    case Reverse(_) => 4
    case PlaceHold(_, _) => 2
    case Void(_) => 1
    case Capture(_, _) => 4
  }

  function Apply(l: Tables, c: Command, base: Id, now: Time): Result<Tables, Error> {
    match c
    case Open(currency, allowNegative, allowPositive) =>
      Success(OpenAccount(l, currency, allowNegative, allowPositive, base))
    case Batch(inputs) => CreateBatch(l, inputs, base, now)
    case Reverse(original) =>
      (match FindTransfer(l.transfers, original)
       case None => Failure(TransferNotFound)
       case Some(t) => CreateBatch(l, [ReversalOf(t)], base, now))
    case PlaceHold(account, amount) => HoldFunds(l, account, amount, base, now)
    case Void(hold) => VoidHold(l, hold, base, now)
    case Capture(hold, to) => CaptureHold(l, hold, to, base, now)
  }

  /** A command with the first id it draws and the clock reading it uses. */
  datatype Step = Step(command: Command, base: Id, at: Time)

  function Take(l: Tables, s: Step): Tables {
    match Apply(l, s.command, s.base, s.at)
    case Success(l') => l'
    case Failure(_) => l
  }

  /** The tables after a run from an empty database; refused steps change nothing. */
  function Run(steps: seq<Step>): Tables {
    if steps == [] then EMPTY
    else Take(Run(steps[..|steps| - 1]), steps[|steps| - 1])
  }

  predicate Unused(l: Tables, id: Id) {
    && id !in l.accounts
    && id !in l.holds
    && (forall i :: 0 <= i < |l.transfers| ==> l.transfers[i].id != id)
    && (forall i :: 0 <= i < |l.entries| ==> l.entries[i].id != id)
    && (forall i :: 0 <= i < |l.outbox| ==> l.outbox[i].id != id)
  }

  ghost predicate Fresh(l: Tables, base: Id, n: nat) {
    forall id: Id :: base <= id < base + n ==> Unused(l, id)
  }

  /** What the id generator promises: the ids a step draws are in no row yet. */
  ghost predicate FreshRun(steps: seq<Step>) {
    steps == [] ||
    var n := |steps| - 1;
    FreshRun(steps[..n]) && Fresh(Run(steps[..n]), steps[n].base, Need(steps[n].command))
  }
}
