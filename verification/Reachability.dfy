/** Every step keeps the invariant, so every run with fresh ids ends in it. */
module Reachability {
  import opened Wrappers
  import opened Domain
  import opened Ledger
  import opened Projections
  import opened Invariants

  lemma EmptyInvariant()
    ensures Invariant(EMPTY, [])
  {
  }

  lemma RowIds(accounts: map<Id, Account>, entries: seq<Entry>, log: seq<Touch>, t: Transfer)
    requires AllTracked(accounts, entries, log) && t.from in accounts && t.to in accounts
    ensures accounts[t.from].id == t.from && accounts[t.to].id == t.to
  {
    assert Tracked(accounts, entries, log, t.from) && Tracked(accounts, entries, log, t.to);
  }

  lemma EmitDistinct(l: Tables, id: Id, aggregate: Aggregate, eventType: EventType, transfer: Option<Id>, now: Time)
    requires DistinctIds(l)
    requires forall i :: 0 <= i < |l.outbox| ==> l.outbox[i].id != id
    ensures DistinctIds(Emit(l, id, aggregate, eventType, transfer, now))
  {
  }

  lemma PostTransferKeeps(l: Tables, log: seq<Touch>, input: TransferInput, base: Id, now: Time)
    requires Invariant(l, log) && Fresh(l, base, 4)
    requires PostTransfer(l, input, base, now).Success?
    ensures Invariant(PostTransfer(l, input, base, now).value, log + [Posted(input.from), Posted(input.to)])
  {
    hide AllTracked, HoldsBacked, Balanced, Paired, DistinctIds, ReversedOnce, HoldsAnnounced, TransfersAnnounced, Move;
    var t := Transfer(base, input.from, input.to, input.amount, now, input.reversed);
    MoveShape(l, t, 0, now);
    var l1 := Move(l, t, 0, now).value;
    RowIds(l.accounts, l.entries, log, t);
    MoveTracked(l, log, t, 0, now, l1);
    MoveBalanced(l, t, 0, now, l1);
    MovePaired(l, t, 0, now, l1);
    MoveDistinct(l, t, 0, now, l1);
    MoveHoldsBacked(l, t, now, l1);
    assert Unused(l, base) && Unused(l, base + 3);
    TransferEventAnnounced(l, t, base + 3, now);
    EmitDistinct(l1, base + 3, TransferAggregate(base), TransferEventType(t), Some(base), now);
  }

  /** The ids a transfer leaves alone are still unused after it. */
  lemma PostTransferFresh(l: Tables, input: TransferInput, base: Id, now: Time, rest: nat)
    requires Fresh(l, base, 4 + rest)
    requires PostTransfer(l, input, base, now).Success?
    ensures Fresh(PostTransfer(l, input, base, now).value, base + 4, rest)
  {
    var t := Transfer(base, input.from, input.to, input.amount, now, input.reversed);
    MoveShape(l, t, 0, now);
    var l' := PostTransfer(l, input, base, now).value;
    forall id: Id | base + 4 <= id < base + 4 + rest
      ensures Unused(l', id)
    {
      assert Unused(l, id);
    }
  }

  lemma {:induction false} PostAllKeeps(l: Tables, log: seq<Touch>, inputs: seq<TransferInput>, base: Id, now: Time,
      rest: nat)
    requires Invariant(l, log) && Fresh(l, base, 4 * |inputs| + rest)
    requires PostAll(l, inputs, base, now).Success?
    ensures Invariant(PostAll(l, inputs, base, now).value, log + BatchTouches(inputs))
    ensures Fresh(PostAll(l, inputs, base, now).value, base + 4 * |inputs|, rest)
  {
    hide Invariant, Unused, PostTransfer;
    if inputs == [] {
      assert log + [] == log;
    } else {
      var n := |inputs| - 1;
      PostAllKeeps(l, log, inputs[..n], base, now, 4 + rest);
      var l1 := PostAll(l, inputs[..n], base, now).value;
      FreshPrefix(l1, base + 4 * n, 4, rest);
      PostTransferKeeps(l1, log + BatchTouches(inputs[..n]), inputs[n], base + 4 * n, now);
      PostTransferFresh(l1, inputs[n], base + 4 * n, now, rest);
      assert log + BatchTouches(inputs) ==
             log + BatchTouches(inputs[..n]) + [Posted(inputs[n].from), Posted(inputs[n].to)];
    }
  }

  lemma FreshPrefix(l: Tables, base: Id, n: nat, rest: nat)
    requires Fresh(l, base, n + rest)
    ensures Fresh(l, base, n)
  {
    forall id: Id | base <= id < base + n
      ensures Unused(l, id)
    {
      assert base <= id < base + (n + rest);
    }
  }

  lemma OpenTracked(l: Tables, log: seq<Touch>, a: Account)
    requires AllTracked(l.accounts, l.entries, log)
    requires a.id !in l.accounts && a.balance == a.version == 0
    ensures AllTracked(l.accounts[a.id := a], l.entries, log)
  {
    var accounts' := l.accounts[a.id := a];
    forall id: Id
      ensures Tracked(accounts', l.entries, log, id)
    {
      assert Tracked(l.accounts, l.entries, log, id);
    }
  }

  lemma OpenBalanced(l: Tables, a: Account)
    requires Balanced(l.accountIds, l.accounts)
    requires a.id !in l.accounts && a.balance == 0
    ensures Balanced(l.accountIds + [a.id], l.accounts[a.id := a])
  {
    var ids', accounts' := l.accountIds + [a.id], l.accounts[a.id := a];
    forall c: Currency
      ensures CurrencyTotal(ids', accounts', c) == 0
    {
      assert ids'[..|l.accountIds|] == l.accountIds;
      CurrencyTotalInsert(l.accountIds, l.accounts, a.id, a, c);
    }
    assert ids'[|l.accountIds|] == a.id;
  }

  lemma OpenPaired(l: Tables, a: Account)
    requires Paired(l.accounts, l.transfers, l.entries)
    requires a.id !in l.accounts
    ensures Paired(l.accounts[a.id := a], l.transfers, l.entries)
  {
    forall k | 0 <= k < |l.transfers|
      ensures ValidTransfer(l.accounts[a.id := a], l.transfers[k])
    {
      assert ValidTransfer(l.accounts, l.transfers[k]);
    }
  }

  lemma OpenKeeps(l: Tables, log: seq<Touch>, currency: Currency, allowNegative: bool, allowPositive: bool, base: Id)
    requires Invariant(l, log) && Unused(l, base)
    ensures Invariant(OpenAccount(l, currency, allowNegative, allowPositive, base), log)
  {
    hide AllTracked, Balanced, Paired, ReversedOnce, HoldsAnnounced, TransfersAnnounced;
    var a := Account(base, currency, 0, 0, 0, allowNegative, allowPositive);
    OpenTracked(l, log, a);
    OpenBalanced(l, a);
    OpenPaired(l, a);
    NoHoldsYet(l.accounts, l.holdIds, l.holds, base);
  }

  lemma NoHoldsYet(accounts: map<Id, Account>, ids: seq<Id>, holds: map<Id, Hold>, id: Id)
    requires HoldsBacked(accounts, ids, holds) && id !in accounts
    ensures ActiveSum(ids, holds, id) == 0
  {
    NoActiveHolds(ids, holds, id);
  }

  lemma {:induction false} NoActiveHolds(ids: seq<Id>, holds: map<Id, Hold>, id: Id)
    requires forall i :: 0 <= i < |ids| ==> ids[i] in holds && holds[ids[i]].account != id
    ensures ActiveSum(ids, holds, id) == 0
  {
    if ids != [] {
      NoActiveHolds(ids[..|ids| - 1], holds, id);
    }
  }

  lemma AccountsReplaced(l: Tables, account: Id, encumbered: int)
    requires Balanced(l.accountIds, l.accounts) && Paired(l.accounts, l.transfers, l.entries)
    requires account in l.accounts
    ensures
      var a := l.accounts[account];
      var accounts' := l.accounts[account := a.(encumbered := encumbered, version := a.version + 1)];
      Balanced(l.accountIds, accounts') && Paired(accounts', l.transfers, l.entries)
  {
    var a := l.accounts[account];
    var a' := a.(encumbered := encumbered, version := a.version + 1);
    var accounts' := l.accounts[account := a'];
    forall currency
      ensures CurrencyTotal(l.accountIds, accounts', currency) == 0
    {
      CurrencyTotalUpdate(l.accountIds, l.accounts, account, a', currency);
    }
    forall k | 0 <= k < |l.transfers|
      ensures ValidTransfer(accounts', l.transfers[k])
    {
      assert ValidTransfer(l.accounts, l.transfers[k]);
    }
  }

  /** A new active hold whose amount is added to its account's encumbered balance. */
  lemma NewHoldBacked(l: Tables, h: Hold, accounts': map<Id, Account>)
    requires HoldsBacked(l.accounts, l.holdIds, l.holds)
    requires h.id !in l.holds && h.status == Active && h.amount > 0 && h.account in l.accounts
    requires accounts'.Keys == l.accounts.Keys
    requires forall id :: id in l.accounts ==>
      accounts'[id].encumbered == l.accounts[id].encumbered + (if id == h.account then h.amount else 0)
    ensures HoldsBacked(accounts', l.holdIds + [h.id], l.holds[h.id := h])
  {
    var ids', holds' := l.holdIds + [h.id], l.holds[h.id := h];
    assert ids'[..|l.holdIds|] == l.holdIds && ids'[|l.holdIds|] == h.id;
    forall id | id in accounts'
      ensures accounts'[id].encumbered == ActiveSum(ids', holds', id)
    {
      ActiveSumInsert(l.holdIds, l.holds, h.id, h, id);
    }
  }

  lemma HoldKeeps(l: Tables, log: seq<Touch>, account: Id, amount: int, base: Id, now: Time)
    requires Invariant(l, log) && Fresh(l, base, 2)
    requires HoldFunds(l, account, amount, base, now).Success?
    ensures Invariant(HoldFunds(l, account, amount, base, now).value, log + [Encumbered(account)])
  {
    hide AllTracked, HoldsBacked, Balanced, Paired, DistinctIds, ReversedOnce, HoldsAnnounced, TransfersAnnounced;
    var l' := HoldFunds(l, account, amount, base, now).value;
    var a := l.accounts[account];
    assert Unused(l, base) && Unused(l, base + 1);
    EncumberTracked(l.accounts, l.entries, log, account, a.encumbered + amount);
    AccountsReplaced(l, account, a.encumbered + amount);
    NewHoldBacked(l, Hold(base, account, amount, Active), l'.accounts);
    HoldEventAnnounced(l, l'.holds, base, base + 1, HoldCreated, now);
    EmitDistinct(l, base + 1, HoldAggregate(base), HoldCreated, None, now);
    DistinctFrame(Emit(l, base + 1, HoldAggregate(base), HoldCreated, None, now), l');
  }

  lemma DistinctFrame(l: Tables, l': Tables)
    requires DistinctIds(l)
    requires l'.transfers == l.transfers && l'.entries == l.entries && l'.outbox == l.outbox
    ensures DistinctIds(l')
  {
  }

  /** Ending an active hold, by void or capture, with its amount released. */
  lemma EndHoldBacked(l: Tables, hold: Id, status: HoldStatus, accounts': map<Id, Account>)
    requires HoldsBacked(l.accounts, l.holdIds, l.holds)
    requires hold in l.holds && l.holds[hold].status == Active && status != Active
    requires accounts'.Keys == l.accounts.Keys
    requires forall id :: id in l.accounts ==>
      accounts'[id].encumbered ==
        l.accounts[id].encumbered - (if id == l.holds[hold].account then l.holds[hold].amount else 0)
    ensures HoldsBacked(accounts', l.holdIds, l.holds[hold := l.holds[hold].(status := status)])
  {
    forall id | id in accounts'
      ensures accounts'[id].encumbered == ActiveSum(l.holdIds, l.holds[hold := l.holds[hold].(status := status)], id)
    {
      ActiveSumEnd(l.holdIds, l.holds, hold, status, id);
    }
  }

  /** The zero clamp of VoidHold and the release of CaptureHold never go below zero. */
  lemma ReleaseCovered(l: Tables, hold: Id)
    requires HoldsBacked(l.accounts, l.holdIds, l.holds)
    requires hold in l.holds && l.holds[hold].status == Active
    ensures l.accounts[l.holds[hold].account].encumbered >= l.holds[hold].amount
  {
    ActiveSumBounds(l.holdIds, l.holds, hold, l.holds[hold].account);
  }

  lemma VoidKeeps(l: Tables, log: seq<Touch>, hold: Id, base: Id, now: Time)
    requires Invariant(l, log) && Fresh(l, base, 1)
    requires VoidHold(l, hold, base, now).Success?
    ensures Invariant(VoidHold(l, hold, base, now).value, log + [Encumbered(l.holds[hold].account)])
  {
    hide AllTracked, HoldsBacked, Balanced, Paired, DistinctIds, ReversedOnce, HoldsAnnounced, TransfersAnnounced;
    var l' := VoidHold(l, hold, base, now).value;
    var h := l.holds[hold];
    var a := l.accounts[h.account];
    assert Unused(l, base);
    ReleaseCovered(l, hold);
    EncumberTracked(l.accounts, l.entries, log, h.account, a.encumbered - h.amount);
    AccountsReplaced(l, h.account, a.encumbered - h.amount);
    HoldEventAnnounced(l, l'.holds, hold, base, HoldVoided, now);
    EndHoldBacked(l, hold, Voided, l'.accounts);
    EmitDistinct(l, base, HoldAggregate(hold), HoldVoided, None, now);
    DistinctFrame(Emit(l, base, HoldAggregate(hold), HoldVoided, None, now), l');
  }

  lemma CaptureKeeps(l: Tables, log: seq<Touch>, hold: Id, to: Id, base: Id, now: Time)
    requires Invariant(l, log) && Fresh(l, base, 4)
    requires CaptureHold(l, hold, to, base, now).Success?
    ensures Invariant(CaptureHold(l, hold, to, base, now).value, log + [Posted(l.holds[hold].account), Posted(to)])
  {
    hide AllTracked, HoldsBacked, Balanced, Paired, DistinctIds, ReversedOnce, HoldsAnnounced, TransfersAnnounced, Move;
    var l' := CaptureHold(l, hold, to, base, now).value;
    var h := l.holds[hold];
    var t := Transfer(base, h.account, to, h.amount, now, None);
    MoveShape(l, t, h.amount, now);
    var l1 := Move(l, t, h.amount, now).value;
    RowIds(l.accounts, l.entries, log, t);
    MoveTracked(l, log, t, h.amount, now, l1);
    MoveBalanced(l, t, h.amount, now, l1);
    MovePaired(l, t, h.amount, now, l1);
    MoveDistinct(l, t, h.amount, now, l1);
    EndHoldBacked(l, hold, Captured, l'.accounts);
    assert Unused(l, base) && Unused(l, base + 3);
    CaptureEventAnnounced(l, t, hold, base + 3, now);
    EmitDistinct(l1, base + 3, HoldAggregate(hold), HoldCaptured, Some(base), now);
    DistinctFrame(Emit(l1, base + 3, HoldAggregate(hold), HoldCaptured, Some(base), now), l');
  }

  lemma ApplyKeeps(l: Tables, log: seq<Touch>, c: Command, base: Id, now: Time)
    requires Invariant(l, log) && Fresh(l, base, Need(c))
    requires Apply(l, c, base, now).Success?
    ensures Invariant(Apply(l, c, base, now).value, log + Touches(l, c))
  {
    hide Invariant;
    match c
    case Open(currency, allowNegative, allowPositive) =>
      assert Unused(l, base);
      OpenKeeps(l, log, currency, allowNegative, allowPositive, base);
      assert log + [] == log;
    case Batch(inputs) =>
      PostAllKeeps(l, log, inputs, base, now, 0);
    case Reverse(original) =>
      var t := FindTransfer(l.transfers, original).value;
      PostAllKeeps(l, log, [ReversalOf(t)], base, now, 0);
      assert BatchTouches([ReversalOf(t)]) == [Posted(t.to), Posted(t.from)] by {
        assert [ReversalOf(t)][..0] == [];
      }
    case PlaceHold(account, amount) => HoldKeeps(l, log, account, amount, base, now);
    case Void(hold) => VoidKeeps(l, log, hold, base, now);
    case Capture(hold, to) => CaptureKeeps(l, log, hold, to, base, now);
  }

  /** Every run with fresh ids ends in tables that satisfy the invariant for its own history. */
  lemma {:induction false} ReachableInvariant(steps: seq<Step>)
    requires FreshRun(steps)
    ensures Invariant(Run(steps), History(steps))
  {
    hide Invariant;
    if steps == [] {
      EmptyInvariant();
    } else {
      var n := |steps| - 1;
      ReachableInvariant(steps[..n]);
      var l, s := Run(steps[..n]), steps[n];
      if Apply(l, s.command, s.base, s.at).Success? {
        ApplyKeeps(l, History(steps[..n]), s.command, s.base, s.at);
      } else {
        assert History(steps) == History(steps[..n]) + [];
        assert History(steps[..n]) + [] == History(steps[..n]);
      }
    }
  }
}
