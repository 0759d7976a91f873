/**
 What each accepted command leaves behind, row by row, after every run with fresh
 ids: the rows it asked for, the amounts it asked for, and nothing else.
*/
module Effects {
  import opened Wrappers
  import opened Domain
  import opened Ledger
  import opened Projections
  import opened Invariants
  import opened Reachability
  import opened EntryChain
  import opened HistoricalBalance
  import opened Batches

  /** The tables after one more step. */
  lemma OneMoreStep(steps: seq<Step>, s: Step)
    ensures Run(steps + [s]) == Take(Run(steps), s)
  {
    assert (steps + [s])[..|steps|] == steps;
  }

  /** A row as inserted: at the given time, not yet sent, never tried. */
  predicate NewEvent(e: OutboxEvent, aggregate: Aggregate, eventType: EventType, transfer: Option<Id>, now: Time) {
    && e.aggregate == aggregate && e.eventType == eventType && e.transfer == transfer && e.createdAt == now
    && !e.published && e.attempts == 0 && !e.deadLettered
  }

  /** Every account but the given ones is as before, and none is new. */
  ghost predicate OtherAccountsSame(l: Tables, l': Tables, changed: set<Id>) {
    && l'.accountIds == l.accountIds && l'.accounts.Keys == l.accounts.Keys
    && forall id :: id in l.accounts && id !in changed ==> l'.accounts[id] == l.accounts[id]
  }

  /** The account's row is as before but for its balances, and its version is one higher. */
  predicate Rebalanced(a: Account, a': Account, balance: int, encumbered: int) {
    && a'.id == a.id && a'.currency == a.currency
    && a'.allowNegative == a.allowNegative && a'.allowPositive == a.allowPositive
    && a'.balance == a.balance + balance && a'.encumbered == a.encumbered + encumbered
    && a'.version == a.version + 1
  }

  // ------------------------------------------------------------- accounts

  /** One new account, as asked for and empty; everything else as before. */
  ghost predicate OpenedAs(l: Tables, l': Tables, id: Id, currency: Currency, allowNegative: bool,
      allowPositive: bool) {
    && id !in l.accounts && l'.accounts.Keys == l.accounts.Keys + {id} && l'.accountIds == l.accountIds + [id]
    && l'.accounts[id].id == id && l'.accounts[id].currency == currency
    && l'.accounts[id].allowNegative == allowNegative && l'.accounts[id].allowPositive == allowPositive
    && l'.accounts[id].balance == l'.accounts[id].encumbered == l'.accounts[id].version == 0
    && (forall other :: other in l.accounts ==> l'.accounts[other] == l.accounts[other])
    && l'.transfers == l.transfers && l'.entries == l.entries && l'.outbox == l.outbox
    && l'.holdIds == l.holdIds && l'.holds == l.holds
  }

  lemma OpenEffect(steps: seq<Step>, currency: Currency, allowNegative: bool, allowPositive: bool, base: Id, at: Time)
    requires FreshRun(steps) && Fresh(Run(steps), base, 1)
    ensures var s := Step(Open(currency, allowNegative, allowPositive), base, at);
      OpenedAs(Run(steps), Run(steps + [s]), base, currency, allowNegative, allowPositive)
  {
    OneMoreStep(steps, Step(Open(currency, allowNegative, allowPositive), base, at));
    hide Run, FreshRun;
    assert Unused(Run(steps), base);
  }

  /** What an account was opened with stays; its version never goes back. */
  ghost predicate AccountsKept(l: Tables, l': Tables) {
    forall id :: id in l.accounts ==>
      && id in l'.accounts && AccountKept(l.accounts[id], l'.accounts[id])
  }

  predicate AccountKept(a: Account, a': Account) {
    && a'.id == a.id && a'.currency == a.currency
    && a'.allowNegative == a.allowNegative && a'.allowPositive == a.allowPositive
    && a'.version >= a.version
  }

  lemma PostTransferAccountsKept(l: Tables, input: TransferInput, base: Id, now: Time)
    requires PostTransfer(l, input, base, now).Success?
    ensures AccountsKept(l, PostTransfer(l, input, base, now).value)
  {
    MoveShape(l, Transfer(base, input.from, input.to, input.amount, now, input.reversed), 0, now);
  }

  lemma {:induction false} PostAllAccountsKept(l: Tables, inputs: seq<TransferInput>, base: Id, now: Time)
    requires PostAll(l, inputs, base, now).Success?
    ensures AccountsKept(l, PostAll(l, inputs, base, now).value)
  {
    hide PostTransfer;
    if inputs != [] {
      var n := |inputs| - 1;
      PostAllAccountsKept(l, inputs[..n], base, now);
      PostTransferAccountsKept(PostAll(l, inputs[..n], base, now).value, inputs[n], base + 4 * n, now);
    }
  }

  lemma StepAccountsKept(l: Tables, s: Step)
    requires Fresh(l, s.base, Need(s.command))
    ensures AccountsKept(l, Take(l, s))
  {
    if Apply(l, s.command, s.base, s.at).Success? {
      hide PostAll, Move;
      match s.command
      case Open(_, _, _) => assert Unused(l, s.base);
      case Batch(inputs) => PostAllAccountsKept(l, inputs, s.base, s.at);
      case Reverse(original) =>
        PostAllAccountsKept(l, [ReversalOf(FindTransfer(l.transfers, original).value)], s.base, s.at);
      case PlaceHold(_, _) =>
      case Void(_) =>
      case Capture(hold, to) =>
        MoveShape(l, Transfer(s.base, l.holds[hold].account, to, l.holds[hold].amount, s.at, None),
          l.holds[hold].amount, s.at);
    }
  }

  /** No account is ever removed, and its id, currency and balance policy are those it was opened with. */
  lemma {:induction false} AccountLifecycle(steps: seq<Step>, k: nat)
    requires FreshRun(steps) && k <= |steps|
    ensures AccountsKept(Run(steps[..k]), Run(steps))
  {
    hide Take, Fresh;
    if k == |steps| {
      assert steps[..k] == steps;
    } else {
      var n := |steps| - 1;
      AccountLifecycle(steps[..n], k);
      assert steps[..n][..k] == steps[..k];
      StepAccountsKept(Run(steps[..n]), steps[n]);
    }
  }

  // ------------------------------------------------------------ transfers

  /** What the inputs add to the account's balance. */
  function NetMoved(inputs: seq<TransferInput>, account: Id): int {
    if inputs == [] then 0
    else
      var last := inputs[|inputs| - 1];
      NetMoved(inputs[..|inputs| - 1], account)
      + (if last.to == account then last.amount else 0) - (if last.from == account then last.amount else 0)
  }

  /** How often the inputs post to the account. */
  function Postings(inputs: seq<TransferInput>, account: Id): nat {
    if inputs == [] then 0
    else
      var last := inputs[|inputs| - 1];
      Postings(inputs[..|inputs| - 1], account)
      + (if last.to == account then 1 else 0) + (if last.from == account then 1 else 0)
  }

  /** Only the account's balance and version moved. */
  predicate MovedBy(a: Account, a': Account, balance: int, postings: nat) {
    && a'.id == a.id && a'.currency == a.currency && a'.encumbered == a.encumbered
    && a'.allowNegative == a.allowNegative && a'.allowPositive == a.allowPositive
    && a'.balance == a.balance + balance && a'.version == a.version + postings
  }

  predicate AsAsked(t: Transfer, input: TransferInput, now: Time) {
    && t.from == input.from && t.to == input.to && t.amount == input.amount
    && t.reversed == input.reversed && t.createdAt == now
  }

  predicate DebitAndCredit(t: Transfer, debit: Entry, credit: Entry) {
    && debit.transfer == t.id && debit.account == t.from && debit.amount == -t.amount && debit.createdAt == t.createdAt
    && credit.transfer == t.id && credit.account == t.to && credit.amount == t.amount && credit.createdAt == t.createdAt
  }

  predicate OwnEvent(t: Transfer, e: OutboxEvent) {
    NewEvent(e, TransferAggregate(t.id), if t.reversed.Some? then TransferReversed else TransferCreated, Some(t.id),
      t.createdAt)
  }

  /** Row i of what a batch appended: a transfer as asked, its entries and its event. */
  predicate PostedAt(l: Tables, l': Tables, inputs: seq<TransferInput>, now: Time, i: nat)
    requires i < |inputs| && |l'.transfers| == |l.transfers| + |inputs|
    requires |l'.entries| == |l.entries| + 2 * |inputs| && |l'.outbox| == |l.outbox| + |inputs|
  {
    var t := l'.transfers[|l.transfers| + i];
    && AsAsked(t, inputs[i], now)
    && DebitAndCredit(t, l'.entries[|l.entries| + 2 * i], l'.entries[|l.entries| + 2 * i + 1])
    && OwnEvent(t, l'.outbox[|l.outbox| + i])
  }

  ghost predicate AllMoved(l: Tables, l': Tables, inputs: seq<TransferInput>) {
    && l'.accounts.Keys == l.accounts.Keys
    && forall id :: id in l.accounts ==>
         MovedBy(l.accounts[id], l'.accounts[id], NetMoved(inputs, id), Postings(inputs, id))
  }

  ghost predicate AllPosted(l: Tables, l': Tables, inputs: seq<TransferInput>, now: Time) {
    && l.transfers <= l'.transfers && |l'.transfers| == |l.transfers| + |inputs|
    && l.entries <= l'.entries && |l'.entries| == |l.entries| + 2 * |inputs|
    && l.outbox <= l'.outbox && |l'.outbox| == |l.outbox| + |inputs|
    && forall i :: 0 <= i < |inputs| ==> PostedAt(l, l', inputs, now, i)
  }

  /** Every transfer as asked for, in order, each with its two entries and its event; nothing else. */
  ghost predicate BatchDone(l: Tables, l': Tables, inputs: seq<TransferInput>, now: Time) {
    && AllMoved(l, l', inputs) && AllPosted(l, l', inputs, now)
    && l'.accountIds == l.accountIds && l'.holdIds == l.holdIds && l'.holds == l.holds
  }

  lemma OneMoved(l: Tables, input: TransferInput, base: Id, now: Time)
    requires PostTransfer(l, input, base, now).Success?
    ensures AllMoved(l, PostTransfer(l, input, base, now).value, [input])
  {
    MoveShape(l, Transfer(base, input.from, input.to, input.amount, now, input.reversed), 0, now);
    assert [input][..0] == [];
  }

  lemma OneDone(l: Tables, input: TransferInput, base: Id, now: Time)
    requires RowsKeyed(l) && PostTransfer(l, input, base, now).Success?
    ensures var l' := PostTransfer(l, input, base, now).value;
      BatchDone(l, l', [input], now) && RowsKeyed(l')
  {
    OneMoved(l, input, base, now);
    MoveShape(l, Transfer(base, input.from, input.to, input.amount, now, input.reversed), 0, now);
    hide AllMoved;
  }

  lemma NetThen(inputs: seq<TransferInput>, input: TransferInput, id: Id)
    ensures NetMoved(inputs + [input], id) == NetMoved(inputs, id) + NetMoved([input], id)
    ensures Postings(inputs + [input], id) == Postings(inputs, id) + Postings([input], id)
  {
    assert (inputs + [input])[..|inputs|] == inputs && [input][..0] == [];
    assert NetMoved([], id) == 0 && Postings([], id) == 0;
  }

  lemma MovedThen(l: Tables, l1: Tables, l': Tables, inputs: seq<TransferInput>, input: TransferInput)
    requires AllMoved(l, l1, inputs) && AllMoved(l1, l', [input])
    ensures AllMoved(l, l', inputs + [input])
  {
    hide NetMoved, Postings;
    forall id | id in l.accounts
      ensures MovedBy(l.accounts[id], l'.accounts[id], NetMoved(inputs + [input], id), Postings(inputs + [input], id))
    {
      NetThen(inputs, input, id);
      assert MovedBy(l.accounts[id], l1.accounts[id], NetMoved(inputs, id), Postings(inputs, id));
      assert MovedBy(l1.accounts[id], l'.accounts[id], NetMoved([input], id), Postings([input], id));
    }
  }

  lemma PostedThen(l: Tables, l1: Tables, l': Tables, inputs: seq<TransferInput>, input: TransferInput, now: Time)
    requires AllPosted(l, l1, inputs, now) && AllPosted(l1, l', [input], now)
    ensures AllPosted(l, l', inputs + [input], now)
  {
    hide AsAsked, DebitAndCredit, OwnEvent;
    forall i | 0 <= i <= |inputs|
      ensures PostedAt(l, l', inputs + [input], now, i)
    {
      if i < |inputs| {
        assert PostedAt(l, l1, inputs, now, i);
      } else {
        assert PostedAt(l1, l', [input], now, 0);
      }
    }
  }

  lemma DoneThen(l: Tables, l1: Tables, l': Tables, inputs: seq<TransferInput>, input: TransferInput, now: Time)
    requires BatchDone(l, l1, inputs, now) && BatchDone(l1, l', [input], now)
    ensures BatchDone(l, l', inputs + [input], now)
  {
    hide AllMoved, AllPosted;
    MovedThen(l, l1, l', inputs, input);
    PostedThen(l, l1, l', inputs, input, now);
  }

  lemma {:induction false} PostAllDone(l: Tables, inputs: seq<TransferInput>, base: Id, now: Time)
    requires RowsKeyed(l) && PostAll(l, inputs, base, now).Success?
    ensures BatchDone(l, PostAll(l, inputs, base, now).value, inputs, now)
    ensures RowsKeyed(PostAll(l, inputs, base, now).value)
  {
    hide BatchDone, PostTransfer, RowsKeyed;
    if inputs == [] {
      NothingDone(l, now);
    } else {
      var n := |inputs| - 1;
      PostAllDone(l, inputs[..n], base, now);
      var l1 := PostAll(l, inputs[..n], base, now).value;
      OneDone(l1, inputs[n], base + 4 * n, now);
      assert inputs == inputs[..n] + [inputs[n]];
      DoneThen(l, l1, PostAll(l, inputs, base, now).value, inputs[..n], inputs[n], now);
    }
  }

  lemma NothingDone(l: Tables, now: Time)
    ensures BatchDone(l, l, [], now)
  {
  }

  /** An accepted batch moves exactly what it was asked to, between the accounts it was asked to. */
  lemma BatchEffect(steps: seq<Step>, inputs: seq<TransferInput>, base: Id, at: Time)
    requires FreshRun(steps) && Apply(Run(steps), Batch(inputs), base, at).Success?
    ensures BatchDone(Run(steps), Run(steps + [Step(Batch(inputs), base, at)]), inputs, at)
  {
    OneMoreStep(steps, Step(Batch(inputs), base, at));
    ReachableRowsKeyed(steps);
    hide Run, FreshRun, BatchDone, PostAll;
    PostAllDone(Run(steps), inputs, base, at);
  }

  /** An accepted reversal moves the original's amount back and is linked to it. */
  lemma ReversalEffect(steps: seq<Step>, original: Id, base: Id, at: Time) returns (k: nat)
    requires FreshRun(steps) && Apply(Run(steps), Reverse(original), base, at).Success?
    ensures k < |Run(steps).transfers| && Run(steps).transfers[k].id == original
    ensures var t := Run(steps).transfers[k];
      BatchDone(Run(steps), Run(steps + [Step(Reverse(original), base, at)]),
        [TransferInput(t.to, t.from, t.amount, Some(original))], at)
  {
    OneMoreStep(steps, Step(Reverse(original), base, at));
    ReachableRowsKeyed(steps);
    hide Run, FreshRun, BatchDone, PostAll;
    var l := Run(steps);
    var t := FindTransfer(l.transfers, original).value;
    k :| 0 <= k < |l.transfers| && l.transfers[k] == t;
    PostAllDone(l, [TransferInput(t.to, t.from, t.amount, Some(original))], base, at);
  }

  // ---------------------------------------------------------------- holds

  /** One new active hold of the amount on the account, whose available balance is that much lower; nothing else. */
  ghost predicate HoldPlaced(l: Tables, l': Tables, hold: Id, account: Id, amount: int, now: Time) {
    && hold !in l.holds && l'.holds.Keys == l.holds.Keys + {hold} && l'.holdIds == l.holdIds + [hold]
    && l'.holds[hold].id == hold && l'.holds[hold].account == account
    && l'.holds[hold].amount == amount && l'.holds[hold].status == Active
    && (forall h :: h in l.holds ==> l'.holds[h] == l.holds[h])
    && account in l.accounts && OtherAccountsSame(l, l', {account})
    && Rebalanced(l.accounts[account], l'.accounts[account], 0, amount)
    && l'.accounts[account].AvailableBalance() == l.accounts[account].AvailableBalance() - amount
    && l'.transfers == l.transfers && l'.entries == l.entries
    && |l'.outbox| == |l.outbox| + 1 && l.outbox <= l'.outbox
    && NewEvent(l'.outbox[|l.outbox|], HoldAggregate(hold), HoldCreated, None, now)
  }

  lemma HoldEffect(steps: seq<Step>, account: Id, amount: int, base: Id, at: Time)
    requires FreshRun(steps) && Fresh(Run(steps), base, 2)
    requires Apply(Run(steps), PlaceHold(account, amount), base, at).Success?
    ensures HoldPlaced(Run(steps), Run(steps + [Step(PlaceHold(account, amount), base, at)]), base, account, amount, at)
  {
    OneMoreStep(steps, Step(PlaceHold(account, amount), base, at));
    hide Run, FreshRun;
    assert Unused(Run(steps), base);
  }

  /** The hold has the new status and is otherwise as it was, as is every other hold. */
  ghost predicate HoldEnded(l: Tables, l': Tables, hold: Id, status: HoldStatus) {
    && hold in l.holds && l'.holds.Keys == l.holds.Keys && l'.holdIds == l.holdIds
    && l'.holds[hold].id == l.holds[hold].id && l'.holds[hold].account == l.holds[hold].account
    && l'.holds[hold].amount == l.holds[hold].amount && l'.holds[hold].status == status
    && forall h :: h in l.holds && h != hold ==> l'.holds[h] == l.holds[h]
  }

  /** The hold is voided and its amount no longer encumbered; nothing else. */
  ghost predicate HoldVoidedAs(l: Tables, l': Tables, hold: Id, now: Time) {
    && HoldEnded(l, l', hold, Voided)
    && var h := l.holds[hold];
    && h.account in l.accounts && OtherAccountsSame(l, l', {h.account})
    && Rebalanced(l.accounts[h.account], l'.accounts[h.account], 0, -h.amount)
    && l'.transfers == l.transfers && l'.entries == l.entries
    && |l'.outbox| == |l.outbox| + 1 && l.outbox <= l'.outbox
    && NewEvent(l'.outbox[|l.outbox|], HoldAggregate(hold), HoldVoided, None, now)
  }

  lemma VoidEffect(steps: seq<Step>, hold: Id, base: Id, at: Time)
    requires FreshRun(steps) && Apply(Run(steps), Void(hold), base, at).Success?
    ensures HoldVoidedAs(Run(steps), Run(steps + [Step(Void(hold), base, at)]), hold, at)
  {
    OneMoreStep(steps, Step(Void(hold), base, at));
    ReachableInvariant(steps);
    hide Run, FreshRun;
    ReleaseCovered(Run(steps), hold);
    VoidDone(Run(steps), hold, base, at);
  }

  lemma VoidDone(l: Tables, hold: Id, base: Id, now: Time)
    requires HoldsBacked(l.accounts, l.holdIds, l.holds) && VoidHold(l, hold, base, now).Success?
    requires l.accounts[l.holds[hold].account].encumbered >= l.holds[hold].amount
    ensures HoldVoidedAs(l, VoidHold(l, hold, base, now).value, hold, now)
  {
  }

  /** The hold is captured, its amount moved from its account to the target and no longer encumbered; nothing else. */
  ghost predicate HoldCapturedAs(l: Tables, l': Tables, hold: Id, to: Id, now: Time) {
    && HoldEnded(l, l', hold, Captured)
    && var h := l.holds[hold];
    && h.account in l.accounts && to in l.accounts && h.account != to && OtherAccountsSame(l, l', {h.account, to})
    && Rebalanced(l.accounts[h.account], l'.accounts[h.account], -h.amount, -h.amount)
    && Rebalanced(l.accounts[to], l'.accounts[to], h.amount, 0)
    && |l'.transfers| == |l.transfers| + 1 && l.transfers <= l'.transfers
    && |l'.entries| == |l.entries| + 2 && l.entries <= l'.entries
    && |l'.outbox| == |l.outbox| + 1 && l.outbox <= l'.outbox
    && var t := l'.transfers[|l.transfers|];
    && AsAsked(t, TransferInput(h.account, to, h.amount, None), now)
    && DebitAndCredit(t, l'.entries[|l.entries|], l'.entries[|l.entries| + 1])
    && NewEvent(l'.outbox[|l.outbox|], HoldAggregate(hold), HoldCaptured, Some(t.id), now)
  }

  lemma CaptureEffect(steps: seq<Step>, hold: Id, to: Id, base: Id, at: Time)
    requires FreshRun(steps) && Apply(Run(steps), Capture(hold, to), base, at).Success?
    ensures HoldCapturedAs(Run(steps), Run(steps + [Step(Capture(hold, to), base, at)]), hold, to, at)
  {
    OneMoreStep(steps, Step(Capture(hold, to), base, at));
    ReachableRowsKeyed(steps);
    hide Run, FreshRun;
    CaptureDone(Run(steps), hold, to, base, at);
  }

  lemma CaptureDone(l: Tables, hold: Id, to: Id, base: Id, now: Time)
    requires RowsKeyed(l) && CaptureHold(l, hold, to, base, now).Success?
    ensures HoldCapturedAs(l, CaptureHold(l, hold, to, base, now).value, hold, to, now)
  {
    var h := l.holds[hold];
    MoveShape(l, Transfer(base, h.account, to, h.amount, now, None), h.amount, now);
  }
}
