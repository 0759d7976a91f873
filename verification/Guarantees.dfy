/** What the invariant says to a reader: statements about every reachable ledger. */
module Guarantees {
  import opened Wrappers
  import opened Domain
  import opened Ledger
  import opened Projections
  import opened Invariants
  import opened Reachability
  import opened EntryChain
  import opened Batches

  // --------------------------------------------------------- conservation

  /** Money is moved, never made: each balance is the sum of its entries, and each currency sums to zero. */
  lemma Conservation(steps: seq<Step>)
    requires FreshRun(steps)
    ensures var l := Run(steps);
      && (forall id :: id in l.accounts ==> l.accounts[id].balance == SumAmounts(EntriesOf(l.entries, id)))
      && Lists(l.accountIds, l.accounts)
      && (forall currency :: CurrencyTotal(l.accountIds, l.accounts, currency) == 0)
  {
    ReachableInvariant(steps);
    var l := Run(steps);
    forall id | id in l.accounts
      ensures l.accounts[id].balance == SumAmounts(EntriesOf(l.entries, id))
    {
      assert Tracked(l.accounts, l.entries, History(steps), id);
      ChainedTelescopes(EntriesOf(l.entries, id), l.accounts[id].balance);
    }
  }

  predicate OwnEntries(entries: seq<Entry>, t: Transfer, i: nat, j: nat) {
    && i < j < |entries|
    && Opposite(t, entries[i], entries[j])
    && entries[i].account != entries[j].account
    && forall k :: 0 <= k < |entries| && entries[k].transfer == t.id ==> k == i || k == j
  }

  /** Each transfer has exactly two entries, opposite in amount and on different accounts; no other entries exist. */
  lemma DoubleEntry(steps: seq<Step>)
    requires FreshRun(steps)
    ensures var l := Run(steps);
      && |l.entries| == 2 * |l.transfers|
      && (forall k :: 0 <= k < |l.transfers| ==> OwnEntries(l.entries, l.transfers[k], 2 * k, 2 * k + 1))
  {
    ReachableInvariant(steps);
    var l := Run(steps);
    forall k | 0 <= k < |l.transfers|
      ensures OwnEntries(l.entries, l.transfers[k], 2 * k, 2 * k + 1)
    {
      PairOwned(l, k);
    }
  }

  lemma PairOwned(l: Tables, k: nat)
    requires Paired(l.accounts, l.transfers, l.entries) && NoDuplicates(TransferIds(l.transfers))
    requires k < |l.transfers|
    ensures OwnEntries(l.entries, l.transfers[k], 2 * k, 2 * k + 1)
  {
    assert ValidTransfer(l.accounts, l.transfers[k]) && Opposite(l.transfers[k], l.entries[2 * k],
      l.entries[2 * k + 1]);
    forall m | 0 <= m < |l.entries| && l.entries[m].transfer == l.transfers[k].id
      ensures m == 2 * k || m == 2 * k + 1
    {
      var p := m / 2;
      assert Opposite(l.transfers[p], l.entries[2 * p], l.entries[2 * p + 1]);
      assert TransferIds(l.transfers)[p] == TransferIds(l.transfers)[k];
    }
  }

  // ------------------------------------------------------- encumbrance

  /** The encumbered balance is the sum of the account's active holds, so releasing any of them is covered. */
  lemma EncumbranceIsActiveHolds(steps: seq<Step>)
    requires FreshRun(steps)
    ensures var l := Run(steps);
      && Lists(l.holdIds, l.holds)
      && (forall id :: id in l.accounts ==>
            l.accounts[id].encumbered == ActiveSum(l.holdIds, l.holds, id) >= 0)
      && (forall h :: h in l.holds && l.holds[h].status == Active ==>
            l.holds[h].account in l.accounts && l.accounts[l.holds[h].account].encumbered >= l.holds[h].amount > 0)
  {
    ReachableInvariant(steps);
    var l := Run(steps);
    forall id | id in l.accounts
      ensures ActiveSum(l.holdIds, l.holds, id) >= 0
    {
      ActiveSumBounds(l.holdIds, l.holds, 0, id);
    }
    forall h | h in l.holds && l.holds[h].status == Active
      ensures l.accounts[l.holds[h].account].encumbered >= l.holds[h].amount
    {
      ReleaseCovered(l, h);
    }
  }

  /** Voiding a hold gives back exactly the available balance that placing it took, however much happened in between. */
  lemma VoidRestoresAvailable(steps: seq<Step>, hold: Id, base: Id, now: Time)
    requires FreshRun(steps)
    requires hold in Run(steps).holds && Run(steps).holds[hold].status == Active
    ensures VoidHold(Run(steps), hold, base, now).Success?
    ensures var l, l' := Run(steps), VoidHold(Run(steps), hold, base, now).value;
      var h := l.holds[hold];
      && h.account in l.accounts && h.account in l'.accounts
      && l'.accounts[h.account].AvailableBalance() == l.accounts[h.account].AvailableBalance() + h.amount
      && l'.accounts[h.account].balance == l.accounts[h.account].balance
      && l'.holds == l.holds[hold := h.(status := Voided)]
  {
    EncumbranceIsActiveHolds(steps);
    PolicyEverywhere(steps);
  }

  // -------------------------------------------------------- balance policy

  /** No account outside its policy: in particular one that allows neither sign stays at zero. */
  lemma PolicyEverywhere(steps: seq<Step>)
    requires FreshRun(steps)
    ensures forall id :: id in Run(steps).accounts ==>
      var a := Run(steps).accounts[id];
      && a.Permitted()
      && (!a.allowNegative ==> 0 <= a.encumbered <= a.balance)
      && (!a.allowPositive ==> a.balance <= 0)
      && (!a.allowNegative && !a.allowPositive ==> a.balance == a.encumbered == 0)
  {
    ReachableInvariant(steps);
  }

  /** From permitted rows, the updates of one transfer are all permitted, one statement at a time. */
  lemma TransferNeverChecked(l: Tables, input: TransferInput, base: Id, now: Time)
    requires AllPermitted(l.accounts)
    ensures PostTransfer(l, input, base, now) != Failure(AccountsCheck)
    ensures PostTransfer(l, input, base, now) != Failure(TransfersCheck)
    ensures PostTransfer(l, input, base, now).Success? ==> AllPermitted(PostTransfer(l, input, base,
      now).value.accounts)
  {
    if PostTransfer(l, input, base, now).Success? {
      MoveShape(l, Transfer(base, input.from, input.to, input.amount, now, input.reversed), 0, now);
    }
  }

  lemma {:induction false} BatchNeverChecked(l: Tables, inputs: seq<TransferInput>, base: Id, now: Time)
    requires AllPermitted(l.accounts)
    ensures PostAll(l, inputs, base, now) != Failure(AccountsCheck)
    ensures PostAll(l, inputs, base, now) != Failure(TransfersCheck)
    ensures PostAll(l, inputs, base, now).Success? ==> AllPermitted(PostAll(l, inputs, base, now).value.accounts)
  {
    hide AllPermitted, PostTransfer;
    if inputs != [] {
      var n := |inputs| - 1;
      BatchNeverChecked(l, inputs[..n], base, now);
      if PostAll(l, inputs[..n], base, now).Success? {
        TransferNeverChecked(PostAll(l, inputs[..n], base, now).value, inputs[n], base + 4 * n, now);
      }
    }
  }

  lemma {:induction false} CheckedInputsNoSchemaError(inputs: seq<TransferInput>)
    ensures CheckInputs(inputs).Fail? ==>
      CheckInputs(inputs).error == SameAccount || CheckInputs(inputs).error == InvalidAmount
  {
    if inputs != [] {
      CheckedInputsNoSchemaError(inputs[..|inputs| - 1]);
    }
  }

  /** A capture that the transfers table refuses: its target is the hold's own account. */
  predicate SelfCapture(l: Tables, c: Command) {
    && c.Capture? && c.hold in l.holds && l.holds[c.hold].status == Active
    && l.holds[c.hold].account == c.to && c.to in l.accounts
    && l.accounts[c.to].ValidateCredit(l.holds[c.hold].amount).Pass?
  }

  /**
   On a reachable ledger the use cases' own checks decide: no statement of any
   command ever meets an accounts CHECK constraint, after any row update. The
   transfers CHECK is met in exactly one case, a capture to the hold's own account.
  */
  lemma SchemaNeverMet(steps: seq<Step>, c: Command, base: Id, now: Time)
    requires FreshRun(steps)
    ensures Apply(Run(steps), c, base, now) != Failure(AccountsCheck)
    ensures Apply(Run(steps), c, base, now) == Failure(TransfersCheck) <==> SelfCapture(Run(steps), c)
  {
    hide Apply, Run;
    ReachableInvariant(steps);
    var l := Run(steps);
    match c
    case Batch(inputs) => BatchSchema(l, inputs, base, now);
    case Reverse(original) => ReverseSchema(l, original, base, now);
    case Capture(hold, to) => CaptureSchema(l, hold, to, base, now);
    case Open(_, _, _) => OneUpdateSchema(l, c, base, now);
    case PlaceHold(_, _) => OneUpdateSchema(l, c, base, now);
    case Void(_) => OneUpdateSchema(l, c, base, now);
  }

  lemma BatchSchema(l: Tables, inputs: seq<TransferInput>, base: Id, now: Time)
    requires AllPermitted(l.accounts)
    ensures Apply(l, Batch(inputs), base, now) != Failure(AccountsCheck)
    ensures Apply(l, Batch(inputs), base, now) != Failure(TransfersCheck)
  {
    CheckedInputsNoSchemaError(inputs);
    BatchNeverChecked(l, inputs, base, now);
  }

  lemma ReverseSchema(l: Tables, original: Id, base: Id, now: Time)
    requires AllPermitted(l.accounts)
    ensures Apply(l, Reverse(original), base, now) != Failure(AccountsCheck)
    ensures Apply(l, Reverse(original), base, now) != Failure(TransfersCheck)
  {
    match FindTransfer(l.transfers, original)
    case None =>
    case Some(t) => BatchSchema(l, [ReversalOf(t)], base, now);
  }

  lemma CaptureSchema(l: Tables, hold: Id, to: Id, base: Id, now: Time)
    requires AllPermitted(l.accounts) && HoldsBacked(l.accounts, l.holdIds, l.holds)
    ensures Apply(l, Capture(hold, to), base, now) != Failure(AccountsCheck)
    ensures Apply(l, Capture(hold, to), base, now) == Failure(TransfersCheck) <==> SelfCapture(l, Capture(hold, to))
  {
    if hold in l.holds && l.holds[hold].status == Active {
      ReleaseCovered(l, hold);
    }
  }

  lemma OneUpdateSchema(l: Tables, c: Command, base: Id, now: Time)
    requires c.Open? || c.PlaceHold? || c.Void?
    requires AllPermitted(l.accounts) && HoldsBacked(l.accounts, l.holdIds, l.holds)
    ensures Apply(l, c, base, now) != Failure(AccountsCheck)
    ensures Apply(l, c, base, now) != Failure(TransfersCheck)
  {
  }

  /**
   CaptureHold with its combined update split in two, balance first: the row in
   between is refused exactly when the account disallows negatives and has less
   available than the hold's amount.
  */
  lemma SplitCaptureRefused(a: Account, amount: int)
    requires a.Permitted() && amount > 0 && a.encumbered >= amount
    ensures a.(balance := a.balance - amount, encumbered := a.encumbered - amount).Permitted()
    ensures !a.(balance := a.balance - amount).Permitted() <==> !a.allowNegative && a.AvailableBalance() < amount
  {
  }

  /** CaptureHold's four writes on a single account, both halves computed from the row as first read. */
  function UncheckedSelfCapture(l: Tables, account: Id, amount: int, base: Id, now: Time): Tables
    requires account in l.accounts
  {
    var a := l.accounts[account];
    var debited := a.(balance := a.balance - amount, encumbered := a.encumbered - amount, version := a.version + 1);
    var credited := debited.(balance := a.balance + amount, version := debited.version + 1);
    l.(entries := l.entries + [EntryFor(a, base + 1, base, -amount, now)] + [EntryFor(a, base + 2, base, amount, now)],
       accounts := l.accounts[account := credited])
  }

  /**
   What the transfers CHECK prevents: let through, a capture to the hold's own
   account would lose its debit to the later credit and leave the balance above the
   sum of its entries by the amount captured.
  */
  lemma SelfCaptureWouldMint(l: Tables, account: Id, amount: int, base: Id, now: Time)
    requires account in l.accounts && l.accounts[account].id == account && amount > 0
    requires l.accounts[account].balance == SumAmounts(EntriesOf(l.entries, account))
    ensures var l' := UncheckedSelfCapture(l, account, amount, base, now);
      l'.accounts[account].balance == SumAmounts(EntriesOf(l'.entries, account)) + amount
  {
    var a := l.accounts[account];
    var e1, e2 := EntryFor(a, base + 1, base, -amount, now), EntryFor(a, base + 2, base, amount, now);
    var es := EntriesOf(l.entries, account);
    EntriesOfAppend(l.entries, e1, account);
    EntriesOfAppend(l.entries + [e1], e2, account);
    assert (es + [e1])[..|es|] == es && (es + [e1] + [e2])[..|es| + 1] == es + [e1];
  }

  const OPEN_WORLD := Step(Open("USD", true, true), 0, 0)
  const OPEN_WALLET := Step(Open("USD", false, true), 1, 0)
  const FUND := TransferInput(0, 1, 10, None)

  ghost predicate UnusedFrom(l: Tables, first: Id) {
    forall id: Id :: id >= first ==> Unused(l, id)
  }

  function TwoAccounts(): Tables {
    OpenAccount(OpenAccount(EMPTY, "USD", true, true, 0), "USD", false, true, 1)
  }

  lemma TwoAccountsReachable()
    ensures FreshRun([OPEN_WORLD, OPEN_WALLET]) && Run([OPEN_WORLD, OPEN_WALLET]) == TwoAccounts()
  {
    var steps := [OPEN_WORLD, OPEN_WALLET];
    assert steps[..1] == [OPEN_WORLD] && [OPEN_WORLD][..0] == [];
    assert FreshRun([OPEN_WORLD]);
    assert Run([OPEN_WORLD]) == OpenAccount(EMPTY, "USD", true, true, 0);
  }

  lemma FundingMoves()
    ensures PostTransfer(TwoAccounts(), FUND, 2, 0).Success?
    ensures var l := PostTransfer(TwoAccounts(), FUND, 2, 0).value;
      && UnusedFrom(l, 6) && l.holds == map[]
      && 0 in l.accounts && l.accounts[0] == Account(0, "USD", -10, 0, 1, true, true)
      && 1 in l.accounts && l.accounts[1] == Account(1, "USD", 10, 0, 1, false, true)
  {
    var t := Transfer(2, 0, 1, 10, 0, None);
    assert Move(TwoAccounts(), t, 0, 0).Success?;
    MoveShape(TwoAccounts(), t, 0, 0);
  }

  lemma FundingSucceeds()
    ensures Apply(TwoAccounts(), Batch([FUND]), 2, 0).Success?
    ensures var l := Apply(TwoAccounts(), Batch([FUND]), 2, 0).value;
      && UnusedFrom(l, 6) && l.holds == map[]
      && 0 in l.accounts && l.accounts[0] == Account(0, "USD", -10, 0, 1, true, true)
      && 1 in l.accounts && l.accounts[1] == Account(1, "USD", 10, 0, 1, false, true)
  {
    FundingMoves();
    SingleBatch(TwoAccounts(), FUND, 2, 0);
    hide PostTransfer, UnusedFrom, TwoAccounts;
  }

  lemma FundedWallet()
    ensures var steps := [OPEN_WORLD, OPEN_WALLET, Step(Batch([FUND]), 2, 0)];
      && FreshRun(steps) && Run(steps).holds == map[] && UnusedFrom(Run(steps), 6)
      && 0 in Run(steps).accounts && Run(steps).accounts[0] == Account(0, "USD", -10, 0, 1, true, true)
      && 1 in Run(steps).accounts && Run(steps).accounts[1] == Account(1, "USD", 10, 0, 1, false, true)
  {
    hide Apply;
    var steps := [OPEN_WORLD, OPEN_WALLET, Step(Batch([FUND]), 2, 0)];
    TwoAccountsReachable();
    FundingSucceeds();
    assert steps[..2] == [OPEN_WORLD, OPEN_WALLET];
    assert Fresh(TwoAccounts(), 2, 4);
  }

  /** Such an account is reachable: fund it and hold all of it. */
  lemma SplitCaptureReachable() returns (steps: seq<Step>, hold: Id)
    ensures FreshRun(steps)
    ensures hold in Run(steps).holds && Run(steps).holds[hold].status == Active
    ensures var l := Run(steps); var h := l.holds[hold];
      && h.account in l.accounts
      && !l.accounts[h.account].(balance := l.accounts[h.account].balance - h.amount).Permitted()
  {
    FundedWallet();
    var before := [OPEN_WORLD, OPEN_WALLET, Step(Batch([FUND]), 2, 0)];
    steps, hold := before + [Step(PlaceHold(1, 10), 6, 0)], 6;
    assert steps[..3] == before;
    assert HoldFunds(Run(before), 1, 10, 6, 0).Success?;
  }

  const HOLD_FOUR := Step(PlaceHold(1, 4), 6, 0)
  const FIVE_MORE := Step(Batch([TransferInput(0, 1, 5, None)]), 8, 0)

  /** With four of its ten held, the wallet can still take five more. */
  lemma MoreAfterHold(l: Tables)
    requires l.holds == map[] && UnusedFrom(l, 6)
    requires 0 in l.accounts && l.accounts[0] == Account(0, "USD", -10, 0, 1, true, true)
    requires 1 in l.accounts && l.accounts[1] == Account(1, "USD", 10, 0, 1, false, true)
    ensures Apply(l, HOLD_FOUR.command, 6, 0).Success?
    ensures var l' := Apply(l, HOLD_FOUR.command, 6, 0).value;
      UnusedFrom(l', 8) && Apply(l', FIVE_MORE.command, 8, 0).Success?
  {
    var l' := Apply(l, HOLD_FOUR.command, 6, 0).value;
    forall id: Id | id >= 8
      ensures Unused(l', id)
    {
      assert Unused(l, id);
    }
    var input := TransferInput(0, 1, 5, None);
    assert [input][..0] == [] && CheckInputs([input]) == Pass;
    assert PostAll(l', [input], 8, 0) == PostTransfer(l', input, 8, 0);
    assert Move(l', Transfer(8, 0, 1, 5, 0, None), 0, 0).Success?;
  }

  lemma FundedHistory()
    ensures History([OPEN_WORLD, OPEN_WALLET, Step(Batch([FUND]), 2, 0)]) == [Posted(0), Posted(1)]
  {
    hide Apply;
    var steps := [OPEN_WORLD, OPEN_WALLET, Step(Batch([FUND]), 2, 0)];
    TwoAccountsReachable();
    FundingSucceeds();
    assert steps[..2] == [OPEN_WORLD, OPEN_WALLET] && steps[..2][..1] == [OPEN_WORLD] && [OPEN_WORLD][..0] == [];
    assert History([OPEN_WORLD]) == [] && History(steps[..2]) == [];
    assert [FUND][..0] == [] && BatchTouches([FUND]) == [Posted(0), Posted(1)];
  }

  lemma OneGap()
    ensures Gaps([Posted(0), Posted(1), Encumbered(1), Posted(0), Posted(1)], 1) == [0, 1]
  {
    hide Gaps, PendingHolds, HoldUpdates;
    NoGaps();
    var none: seq<Touch> := [];
    var funded := none + [Posted(0)] + [Posted(1)];
    HistoryAppend(none, Posted(0), 1);
    HistoryAppend(none + [Posted(0)], Posted(1), 1);
    HistoryAppend(funded, Encumbered(1), 1);
    var held := funded + [Encumbered(1)];
    HistoryAppend(held, Posted(0), 1);
    HistoryAppend(held + [Posted(0)], Posted(1), 1);
    assert held + [Posted(0)] + [Posted(1)] == [Posted(0), Posted(1), Encumbered(1), Posted(0), Posted(1)];
  }

  lemma NoGaps()
    ensures Gaps([], 1) == [] && PendingHolds([], 1) == 0
  {
  }

  /**
   A chain reported broken though nothing was tampered with: fund a wallet, hold some
   of it, fund it again. The walk reports that version 3 follows version 1.
  */
  lemma HonestChainBroken() returns (steps: seq<Step>)
    ensures FreshRun(steps) && 1 in Run(steps).accounts
    ensures forall rows: seq<Entry> :: ListsByVersion(rows, Run(steps).entries, 1) ==>
      |rows| == 2 && BreaksOf(rows) == [Break(rows[1].id, 1, VersionGap(3, 1))]
  {
    var funded := [OPEN_WORLD, OPEN_WALLET, Step(Batch([FUND]), 2, 0)];
    var held := funded + [HOLD_FOUR];
    steps := held + [FIVE_MORE];
    assert steps[..4] == held && held[..3] == funded;
    FundedWallet();
    FundedHistory();
    MoreAfterHold(Run(funded));
    HonestRun(funded, held, steps);
    OneGap();
    hide *;
    forall rows: seq<Entry> | ListsByVersion(rows, Run(steps).entries, 1)
      ensures |rows| == 2 && BreaksOf(rows) == [Break(rows[1].id, 1, VersionGap(3, 1))]
    {
      ChainVerdict(steps, 1, rows);
      TwoRowsOneGap(rows);
    }
  }

  lemma HonestRun(funded: seq<Step>, held: seq<Step>, steps: seq<Step>)
    requires held == funded + [HOLD_FOUR] && steps == held + [FIVE_MORE]
    requires FreshRun(funded) && UnusedFrom(Run(funded), 6) && 1 in Run(funded).accounts
    requires History(funded) == [Posted(0), Posted(1)]
    requires Apply(Run(funded), HOLD_FOUR.command, 6, 0).Success?
    requires UnusedFrom(Apply(Run(funded), HOLD_FOUR.command, 6, 0).value, 8)
    requires Apply(Apply(Run(funded), HOLD_FOUR.command, 6, 0).value, FIVE_MORE.command, 8, 0).Success?
    ensures FreshRun(steps) && 1 in Run(steps).accounts
    ensures History(steps) == [Posted(0), Posted(1), Encumbered(1), Posted(0), Posted(1)]
  {
    assert steps[..|held|] == held && held[..|funded|] == funded;
    var input := TransferInput(0, 1, 5, None);
    assert [input][..0] == [] && BatchTouches([input]) == [Posted(0), Posted(1)];
    PostAllKeys(Run(held), [input], 8, 0);
    hide Apply;
    assert FreshRun(held);
    assert History(held) == History(funded) + [Encumbered(1)];
    assert History(steps) == History(held) + [Posted(0), Posted(1)];
  }

  lemma TwoRowsOneGap(rows: seq<Entry>)
    requires |rows| == 2
    requires BreaksAt(rows, 0) == GapBreak(rows, 0, 0) && BreaksAt(rows, 1) == GapBreak(rows, 1, 1)
    ensures BreaksOf(rows) == [Break(rows[1].id, 1, VersionGap(3, 1))]
  {
    assert Linked(rows, 0);
    assert BreaksBefore(rows, 1) == BreaksBefore(rows, 0) + BreaksAt(rows, 0);
  }

  // --------------------------------------------------------- hold lifecycle

  /** l' keeps every hold of l, and changed none that was no longer active. */
  ghost predicate HoldsProgress(l: Tables, l': Tables) {
    forall h :: h in l.holds ==>
      && h in l'.holds
      && l'.holds[h].(status := l.holds[h].status) == l.holds[h]
      && (l.holds[h].status != Active ==> l'.holds[h] == l.holds[h])
  }

  lemma PostTransferHolds(l: Tables, input: TransferInput, base: Id, now: Time)
    requires PostTransfer(l, input, base, now).Success?
    ensures PostTransfer(l, input, base, now).value.holds == l.holds
  {
    MoveShape(l, Transfer(base, input.from, input.to, input.amount, now, input.reversed), 0, now);
  }

  lemma {:induction false} PostAllHolds(l: Tables, inputs: seq<TransferInput>, base: Id, now: Time)
    requires PostAll(l, inputs, base, now).Success?
    ensures PostAll(l, inputs, base, now).value.holds == l.holds
  {
    hide PostTransfer;
    if inputs != [] {
      var n := |inputs| - 1;
      PostAllHolds(l, inputs[..n], base, now);
      PostTransferHolds(PostAll(l, inputs[..n], base, now).value, inputs[n], base + 4 * n, now);
    }
  }

  lemma ApplyHoldsProgress(l: Tables, s: Step)
    requires Fresh(l, s.base, Need(s.command))
    ensures HoldsProgress(l, Take(l, s))
  {
    if Apply(l, s.command, s.base, s.at).Success? {
      match s.command
      case Open(_, _, _) =>
      case Batch(inputs) => PostAllHolds(l, inputs, s.base, s.at);
      case Reverse(original) => PostAllHolds(l, [ReversalOf(FindTransfer(l.transfers, original).value)], s.base, s.at);
      case PlaceHold(_, _) => assert Unused(l, s.base);
      case Void(_) =>
      case Capture(hold, to) =>
        MoveShape(l, Transfer(s.base, l.holds[hold].account, to, l.holds[hold].amount, s.at, None),
          l.holds[hold].amount, s.at);
    }
  }

  /** Over any run: account and amount of a hold never change, and once voided or captured it never changes again. */
  lemma {:induction false} HoldLifecycle(steps: seq<Step>, k: nat)
    requires FreshRun(steps) && k <= |steps|
    ensures HoldsProgress(Run(steps[..k]), Run(steps))
  {
    if k == |steps| {
      assert steps[..k] == steps;
    } else {
      var n := |steps| - 1;
      HoldLifecycle(steps[..n], k);
      assert steps[..n][..k] == steps[..k];
      ApplyHoldsProgress(Run(steps[..n]), steps[n]);
    }
  }

  // ------------------------------------------------------------------ events

  /** The event at index i is the only one whose payload names the transfer. */
  ghost predicate SoleName(outbox: seq<OutboxEvent>, i: nat, transfer: Id) {
    && i < |outbox| && outbox[i].transfer == Some(transfer)
    && forall j :: 0 <= j < |outbox| && outbox[j].transfer == Some(transfer) ==> j == i
  }

  lemma {:induction false} NamesAreIndexed(outbox: seq<OutboxEvent>, id: Id) returns (i: nat)
    requires NoDuplicates(NamedTransfers(outbox)) && id in NamedTransfers(outbox)
    ensures SoleName(outbox, i, id)
  {
    var n := |outbox| - 1;
    var rest, e := outbox[..n], outbox[n];
    var names := NamedTransfers(rest);
    assert forall k :: 0 <= k < |names| ==> names[k] == NamedTransfers(outbox)[k];
    if e.transfer == Some(id) {
      i := n;
      assert NamedTransfers(outbox)[|names|] == id;
      assert id !in names;
      NamesOccur(rest, id);
      assert forall j :: 0 <= j < n ==> outbox[j] == rest[j];
    } else {
      i := NamesAreIndexed(rest, id);
      assert forall j :: 0 <= j < n ==> outbox[j] == rest[j];
    }
  }

  lemma {:induction false} NamesOccur(outbox: seq<OutboxEvent>, id: Id)
    ensures id in NamedTransfers(outbox) <==> exists j :: 0 <= j < |outbox| && outbox[j].transfer == Some(id)
  {
    if outbox != [] {
      var n := |outbox| - 1;
      NamesOccur(outbox[..n], id);
      assert outbox == outbox[..n] + [outbox[n]];
      if outbox[n].transfer == Some(id) {
        var names := NamedTransfers(outbox);
        assert names[|names| - 1] == id;
      }
    }
  }

  /** The hold was captured by this transfer: its second event names it, and account and amount are the transfer's. */
  ghost predicate CapturedBy(l: Tables, hold: Id, t: Transfer) {
    var es := EventsOf(l.outbox, HoldAggregate(hold));
    && hold in l.holds && l.holds[hold].status == Captured
    && |es| == 2 && es[1].eventType == HoldCaptured && es[1].transfer == Some(t.id)
    && l.holds[hold].account == t.from && l.holds[hold].amount == t.amount && t.reversed == None
  }

  /** The event announces the transfer: as a transfer of its own, or as the capture of the one hold it captured. */
  ghost predicate Announces(l: Tables, e: OutboxEvent, t: Transfer) {
    match e.aggregate
    case TransferAggregate(id) =>
      && id == t.id
      && (e.eventType == TransferReversed <==> t.reversed.Some?)
      && (e.eventType == TransferCreated <==> t.reversed.None?)
      && forall hold :: !CapturedBy(l, hold, t)
    case HoldAggregate(id) =>
      && e.eventType == HoldCaptured && CapturedBy(l, id, t)
      && forall hold :: CapturedBy(l, hold, t) ==> hold == id
  }

  /** A capturing event is an event of the outbox that names the transfer, on the hold's own aggregate. */
  lemma CaptureEvent(l: Tables, hold: Id, t: Transfer) returns (j: nat)
    requires CapturedBy(l, hold, t)
    ensures j < |l.outbox| && l.outbox[j].transfer == Some(t.id) && l.outbox[j].aggregate == HoldAggregate(hold)
  {
    EventsOfMembers(l.outbox, HoldAggregate(hold));
    var e := EventsOf(l.outbox, HoldAggregate(hold))[1];
    j :| 0 <= j < |l.outbox| && l.outbox[j] == e;
  }

  lemma SameTransfer(transfers: seq<Transfer>, i: nat, j: nat)
    requires NoDuplicates(TransferIds(transfers))
    requires i < |transfers| && j < |transfers| && transfers[i].id == transfers[j].id
    ensures i == j
  {
    assert TransferIds(transfers)[i] == TransferIds(transfers)[j];
  }

  /** An event on a transfer's aggregate that names a transfer is that transfer's own event. */
  lemma OwnEventAnnounces(l: Tables, e: OutboxEvent, k: nat)
    requires TransfersAnnounced(l.transfers, l.outbox) && NoDuplicates(TransferIds(l.transfers))
    requires k < |l.transfers| && e in l.outbox && e.transfer == Some(l.transfers[k].id)
    requires e.aggregate.TransferAggregate?
    ensures e.aggregate.id == l.transfers[k].id && HasTransferType(e, l.transfers[k])
  {
    EventsOfMembers(l.outbox, e.aggregate);
    var es := EventsOf(l.outbox, e.aggregate);
    assert e in es;
    assert HasTransfer(l.transfers, e.aggregate.id);
    var i :| 0 <= i < |l.transfers| && l.transfers[i].id == e.aggregate.id;
    assert TransferStory(EventsOf(l.outbox, TransferAggregate(l.transfers[i].id)), l.transfers[i]);
    assert e == es[0];
    SameTransfer(l.transfers, i, k);
  }

  /** An event on a hold's aggregate that names a transfer is the hold's capture by it. */
  lemma HoldEventAnnounces(l: Tables, e: OutboxEvent, k: nat)
    requires HoldsAnnounced(l.transfers, l.holds, l.outbox) && NoDuplicates(TransferIds(l.transfers))
    requires k < |l.transfers| && e in l.outbox && e.transfer == Some(l.transfers[k].id)
    requires e.aggregate.HoldAggregate?
    ensures e.eventType == HoldCaptured && CapturedBy(l, e.aggregate.id, l.transfers[k])
  {
    var hold := e.aggregate.id;
    EventsOfMembers(l.outbox, e.aggregate);
    var es := EventsOf(l.outbox, HoldAggregate(hold));
    assert e in es;
    assert hold in l.holds && HoldStory(es, l.holds[hold], l.transfers);
    assert e == es[0] || e == es[1];
    var i :| 0 <= i < |l.transfers| && e.transfer == Some(l.transfers[i].id) &&
      l.transfers[i].from == l.holds[hold].account && l.transfers[i].amount == l.holds[hold].amount &&
      l.transfers[i].reversed == None;
    SameTransfer(l.transfers, i, k);
  }

  /**
   Every committed transfer is named by exactly one event of the outbox: its own
   transfer event, of the right type, or the event of exactly one captured hold,
   whose account and amount are the transfer's. The names appear in the order in
   which the transfers were committed.
  */
  lemma EveryTransferAnnounced(steps: seq<Step>, k: nat) returns (i: nat)
    requires FreshRun(steps) && k < |Run(steps).transfers|
    ensures SoleName(Run(steps).outbox, i, Run(steps).transfers[k].id)
    ensures Announces(Run(steps), Run(steps).outbox[i], Run(steps).transfers[k])
    ensures NamedTransfers(Run(steps).outbox) == TransferIds(Run(steps).transfers)
  {
    ReachableInvariant(steps);
    var l := Run(steps);
    hide Run, HoldsAnnounced, Announces, CapturedBy;
    assert TransferIds(l.transfers)[k] == l.transfers[k].id;
    i := NamesAreIndexed(l.outbox, l.transfers[k].id);
    SoleNameAnnounces(l, i, k);
  }

  lemma SoleNameAnnounces(l: Tables, i: nat, k: nat)
    requires HoldsAnnounced(l.transfers, l.holds, l.outbox) && TransfersAnnounced(l.transfers, l.outbox)
    requires NoDuplicates(TransferIds(l.transfers))
    requires k < |l.transfers| && SoleName(l.outbox, i, l.transfers[k].id)
    ensures Announces(l, l.outbox[i], l.transfers[k])
  {
    hide HoldsAnnounced, TransfersAnnounced, CapturedBy;
    var e, t := l.outbox[i], l.transfers[k];
    forall hold | CapturedBy(l, hold, t)
      ensures e.aggregate == HoldAggregate(hold)
    {
      var j := CaptureEvent(l, hold, t);
    }
    match e.aggregate
    case TransferAggregate(_) => OwnEventAnnounces(l, e, k);
    case HoldAggregate(_) => HoldEventAnnounces(l, e, k);
  }

  /** Each aggregate's events carry the sequence numbers 1..k in commit order, with k at most two. */
  lemma SequencesAreGapless(steps: seq<Step>, aggregate: Aggregate)
    requires FreshRun(steps)
    ensures var es := EventsOf(Run(steps).outbox, aggregate);
      Numbered(es) && |es| <= 2 && MaxSequence(Run(steps).outbox, aggregate) == |es|
  {
    ReachableInvariant(steps);
    AnnouncedSequences(Run(steps), aggregate);
  }

  lemma AnnouncedSequences(l: Tables, aggregate: Aggregate)
    requires HoldsAnnounced(l.transfers, l.holds, l.outbox) && TransfersAnnounced(l.transfers, l.outbox)
    ensures var es := EventsOf(l.outbox, aggregate);
      Numbered(es) && |es| <= 2 && MaxSequence(l.outbox, aggregate) == |es|
  {
    match aggregate {
      case TransferAggregate(id) =>
        if HasTransfer(l.transfers, id) {
          var i :| 0 <= i < |l.transfers| && l.transfers[i].id == id;
          assert TransferStory(EventsOf(l.outbox, TransferAggregate(l.transfers[i].id)), l.transfers[i]);
        }
      case HoldAggregate(id) =>
        assert if id in l.holds then HoldStory(EventsOf(l.outbox, HoldAggregate(id)), l.holds[id], l.transfers)
               else EventsOf(l.outbox, HoldAggregate(id)) == [];
    }
    MaxSequenceCounts(l.outbox, aggregate);
  }

  /** Each hold has one event per committed step of its life, and no hold event exists without its hold. */
  lemma EveryHoldStepAnnounced(steps: seq<Step>, hold: Id)
    requires FreshRun(steps)
    ensures var l := Run(steps); var es := EventsOf(l.outbox, HoldAggregate(hold));
      if hold in l.holds then HoldStory(es, l.holds[hold], l.transfers) else es == []
  {
    ReachableInvariant(steps);
  }

  /**
   Captured holds and capture transfers match one to one. A captured hold was captured
   by exactly one transfer; EveryTransferAnnounced has the other half, that a transfer
   announced on a hold captured that hold and no other.
  */
  lemma CapturesMatchTransfers(steps: seq<Step>, hold: Id) returns (k: nat)
    requires FreshRun(steps)
    requires hold in Run(steps).holds && Run(steps).holds[hold].status == Captured
    ensures var l := Run(steps);
      && k < |l.transfers| && CapturedBy(l, hold, l.transfers[k])
      && (forall j :: 0 <= j < |l.transfers| && CapturedBy(l, hold, l.transfers[j]) ==> j == k)
      && (forall other :: CapturedBy(l, other, l.transfers[k]) ==> other == hold)
  {
    EveryHoldStepAnnounced(steps, hold);
    ReachableInvariant(steps);
    hide Run, CapturedBy, HoldStory;
    k := CapturingTransfer(Run(steps), hold);
    CapturedOnce(Run(steps), hold, k);
    var i := EveryTransferAnnounced(steps, k);
    CapturesOnce(Run(steps), i, hold, k);
  }

  lemma CapturingTransfer(l: Tables, hold: Id) returns (k: nat)
    requires hold in l.holds && l.holds[hold].status == Captured
    requires HoldStory(EventsOf(l.outbox, HoldAggregate(hold)), l.holds[hold], l.transfers)
    ensures k < |l.transfers| && CapturedBy(l, hold, l.transfers[k])
  {
    hide EventsOf;
    var e := EventsOf(l.outbox, HoldAggregate(hold))[1];
    k :| 0 <= k < |l.transfers| && e.transfer == Some(l.transfers[k].id) &&
      l.transfers[k].from == l.holds[hold].account && l.transfers[k].amount == l.holds[hold].amount &&
      l.transfers[k].reversed == None;
  }

  lemma CapturedOnce(l: Tables, hold: Id, k: nat)
    requires NoDuplicates(TransferIds(l.transfers))
    requires k < |l.transfers| && CapturedBy(l, hold, l.transfers[k])
    ensures forall j :: 0 <= j < |l.transfers| && CapturedBy(l, hold, l.transfers[j]) ==> j == k
  {
    hide EventsOf;
    forall j | 0 <= j < |l.transfers| && CapturedBy(l, hold, l.transfers[j])
      ensures j == k
    {
      SameTransfer(l.transfers, j, k);
    }
  }

  lemma CapturesOnce(l: Tables, i: nat, hold: Id, k: nat)
    requires k < |l.transfers| && SoleName(l.outbox, i, l.transfers[k].id) && CapturedBy(l, hold, l.transfers[k])
    ensures forall other :: CapturedBy(l, other, l.transfers[k]) ==> other == hold
  {
    hide CapturedBy;
    forall other | CapturedBy(l, other, l.transfers[k])
      ensures other == hold
    {
      var p := CaptureEvent(l, other, l.transfers[k]);
      var q := CaptureEvent(l, hold, l.transfers[k]);
    }
  }
}
