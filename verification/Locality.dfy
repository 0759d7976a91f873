/**
 What one command reads and writes. A command computed on a partial view of the
 tables writes absolute rows and appends; merging those writes into any tables
 that agree with the view on what was read is the same as running the command
 on those tables.
*/
module Locality {
  import opened Wrappers
  import opened Domain
  import opened Ledger
  import opened Projections
  import opened Invariants

  /** The ids a command may draw. */
  predicate InRange(c: Command, base: Id, id: Id) {
    base <= id < base + Need(c)
  }

  /** The aggregates whose events a command may append. */
  predicate Concerns(c: Command, base: Id, aggregate: Aggregate) {
    || InRange(c, base, aggregate.id)
    || (c.Void? && aggregate == HoldAggregate(c.hold))
    || (c.Capture? && aggregate == HoldAggregate(c.hold))
  }

  /** The reversal links a command may insert. */
  predicate UsesKey(c: Command, key: Id) {
    c.Batch? && exists i :: 0 <= i < |c.inputs| && c.inputs[i].reversed == Some(key)
  }

  /** v' has everything v has, in place, and possibly more at the ends. */
  ghost predicate Grows(v: Tables, v': Tables) {
    && v.accountIds <= v'.accountIds && v.transfers <= v'.transfers && v.entries <= v'.entries
    && v.holdIds <= v'.holdIds && v.outbox <= v'.outbox
    && v.accounts.Keys <= v'.accounts.Keys && v.holds.Keys <= v'.holds.Keys
  }

  /** Everything v' has that v had not is within the command's reach. */
  ghost predicate Additions(v: Tables, v': Tables, c: Command, base: Id) {
    && Grows(v, v')
    && (forall id :: id in v'.accounts ==> id in v.accounts || (c.Open? && id == base))
    && (forall id :: id in v'.holds ==> id in v.holds || (c.PlaceHold? && id == base))
    && (forall i :: |v.transfers| <= i < |v'.transfers| ==> AddedTransfer(v'.transfers[i], c, base))
    && (forall i :: |v.entries| <= i < |v'.entries| ==> InRange(c, base, v'.entries[i].id))
    && (forall i :: |v.outbox| <= i < |v'.outbox| ==> AddedEvent(v'.outbox[i], c, base))
  }

  predicate AddedTransfer(t: Transfer, c: Command, base: Id) {
    InRange(c, base, t.id) && (t.reversed.Some? ==> UsesKey(c, t.reversed.value))
  }

  predicate AddedEvent(e: OutboxEvent, c: Command, base: Id) {
    InRange(c, base, e.id) && Concerns(c, base, e.aggregate)
  }

  /** The rows appended to make new_ out of old_. */
  function Appended<T>(old_: seq<T>, new_: seq<T>): seq<T> {
    if |old_| <= |new_| then new_[|old_|..] else []
  }

  /** The writes that turned v into v', applied to l: absolute rows, and appended rows. */
  function Merge(l: Tables, v: Tables, v': Tables): Tables {
    Tables(
      l.accountIds + Appended(v.accountIds, v'.accountIds), l.accounts + v'.accounts,
      l.transfers + Appended(v.transfers, v'.transfers), l.entries + Appended(v.entries, v'.entries),
      l.holdIds + Appended(v.holdIds, v'.holdIds), l.holds + v'.holds,
      l.outbox + Appended(v.outbox, v'.outbox))
  }

  /** The rows of v are the rows of l. */
  ghost predicate SameRows(v: Tables, l: Tables) {
    && (forall id :: id in v.accounts ==> id in l.accounts && l.accounts[id] == v.accounts[id])
    && (forall id :: id in v.holds ==> id in l.holds && l.holds[id] == v.holds[id])
  }

  /** Queries a command makes of tables it has no row lock on come out the same. */
  ghost predicate SameAnswers(v: Tables, l: Tables, c: Command, base: Id) {
    && (forall aggregate :: Concerns(c, base, aggregate) ==> MaxSequence(v.outbox, aggregate) == MaxSequence(l.outbox,
      aggregate))
    && (forall key: Id :: UsesKey(c, key) ==> (HasReversal(v.transfers, key) <==> HasReversal(l.transfers, key)))
    && (forall id: Id :: HasTransfer(v.transfers, id) ==> HasTransfer(l.transfers, id))
  }

  /** l' and v' arose from l and v by the same writes, and still agree. */
  ghost predicate Lockstep(v: Tables, l: Tables, v': Tables, l': Tables, c: Command, base: Id) {
    Additions(v, v', c, base) && l' == Merge(l, v, v') && SameRows(v', l') && SameAnswers(v', l', c, base)
  }

  lemma LockstepRefl(v: Tables, l: Tables, c: Command, base: Id)
    requires SameRows(v, l) && SameAnswers(v, l, c, base)
    ensures Lockstep(v, l, v, l, c, base)
  {
    assert l.accounts + v.accounts == l.accounts;
    assert l.holds + v.holds == l.holds;
  }

  lemma SuffixTrans<T>(l: seq<T>, v: seq<T>, v1: seq<T>, v2: seq<T>)
    requires v <= v1 <= v2
    ensures l + Appended(v, v1) + Appended(v1, v2) == l + Appended(v, v2)
  {
  }

  lemma AdditionsTrans(v: Tables, v1: Tables, v2: Tables, c: Command, base: Id)
    requires Additions(v, v1, c, base) && Additions(v1, v2, c, base)
    ensures Additions(v, v2, c, base)
  {
    hide AddedTransfer, AddedEvent, InRange;
  }

  lemma MergeTrans(l: Tables, v: Tables, v1: Tables, v2: Tables)
    requires Grows(v, v1) && Grows(v1, v2)
    ensures Merge(Merge(l, v, v1), v1, v2) == Merge(l, v, v2)
  {
    SuffixTrans(l.accountIds, v.accountIds, v1.accountIds, v2.accountIds);
    SuffixTrans(l.transfers, v.transfers, v1.transfers, v2.transfers);
    SuffixTrans(l.entries, v.entries, v1.entries, v2.entries);
    SuffixTrans(l.holdIds, v.holdIds, v1.holdIds, v2.holdIds);
    SuffixTrans(l.outbox, v.outbox, v1.outbox, v2.outbox);
    hide Appended;
    assert l.accounts + v1.accounts + v2.accounts == l.accounts + v2.accounts;
    assert l.holds + v1.holds + v2.holds == l.holds + v2.holds;
  }

  lemma LockstepTrans(v: Tables, l: Tables, v1: Tables, l1: Tables, v2: Tables, l2: Tables, c: Command, base: Id)
    requires Lockstep(v, l, v1, l1, c, base) && Lockstep(v1, l1, v2, l2, c, base)
    ensures Lockstep(v, l, v2, l2, c, base)
  {
    assert Grows(v, v1) && Grows(v1, v2);
    hide Additions, Grows, Merge, SameRows, SameAnswers;
    AdditionsTrans(v, v1, v2, c, base);
    MergeTrans(l, v, v1, v2);
  }

  lemma LockstepAgrees(v: Tables, l: Tables, v': Tables, l': Tables, c: Command, base: Id)
    requires Lockstep(v, l, v', l', c, base)
    ensures SameRows(v', l') && SameAnswers(v', l', c, base)
  {
    hide Additions, Merge, SameRows, SameAnswers;
  }

  lemma SameRow(v: Tables, l: Tables, account: Id)
    requires SameRows(v, l) && account in v.accounts
    ensures account in l.accounts && l.accounts[account] == v.accounts[account]
  {
  }

  // ------------------------------------------------------- single statements

  lemma InsertLockstep(v: Tables, l: Tables, t: Transfer, c: Command, base: Id)
    requires SameRows(v, l) && SameAnswers(v, l, c, base)
    requires AddedTransfer(t, c, base)
    requires InsertTransfer(v, t).Success?
    ensures InsertTransfer(l, t).Success?
    ensures Lockstep(v, l, InsertTransfer(v, t).value, InsertTransfer(l, t).value, c, base)
  {
    var v', l' := v.(transfers := v.transfers + [t]), l.(transfers := l.transfers + [t]);
    LockstepRefl(v, l, c, base);
    assert v'.transfers[|v.transfers|..] == [t];
    assert Merge(l, v, v').transfers == l'.transfers;
    forall id: Id
      ensures HasReversal(v'.transfers, id) <==> HasReversal(v.transfers, id) || t.reversed == Some(id)
      ensures HasReversal(l'.transfers, id) <==> HasReversal(l.transfers, id) || t.reversed == Some(id)
      ensures HasTransfer(v'.transfers, id) <==> HasTransfer(v.transfers, id) || t.id == id
      ensures HasTransfer(l'.transfers, id) <==> HasTransfer(l.transfers, id) || t.id == id
    {
      HasAppend(v.transfers, t, id);
      HasAppend(l.transfers, t, id);
    }
  }

  lemma RowMerge(v: Tables, l: Tables, id: Id, row: Account)
    requires SameRows(v, l) && id in v.accounts
    ensures var v', l' := v.(accounts := v.accounts[id := row]), l.(accounts := l.accounts[id := row]);
      l' == Merge(l, v, v') && SameRows(v', l')
  {
    var v' := v.(accounts := v.accounts[id := row]);
    assert l.accounts + v'.accounts == l.accounts[id := row];
    assert l.holds + v.holds == l.holds;
  }

  lemma UpdateLockstep(v: Tables, l: Tables, id: Id, balance: int, encumbered: int, c: Command, base: Id)
    requires SameRows(v, l) && SameAnswers(v, l, c, base)
    requires id in v.accounts && UpdateAccount(v, id, balance, encumbered).Success?
    ensures id in l.accounts && UpdateAccount(l, id, balance, encumbered).Success?
    ensures Lockstep(v, l, UpdateAccount(v, id, balance, encumbered).value, UpdateAccount(l, id, balance,
      encumbered).value, c, base)
  {
    hide HasReversal, HasTransfer, UsesKey, MaxSequence, Concerns, AddedTransfer, AddedEvent, InRange, SameRows, Merge;
    SameRow(v, l, id);
    RowMerge(v, l, id, UpdateAccount(v, id, balance, encumbered).value.accounts[id]);
  }

  lemma EntryLockstep(v: Tables, l: Tables, e: Entry, c: Command, base: Id)
    requires SameRows(v, l) && SameAnswers(v, l, c, base) && InRange(c, base, e.id)
    ensures Lockstep(v, l, v.(entries := v.entries + [e]), l.(entries := l.entries + [e]), c, base)
  {
    var v' := v.(entries := v.entries + [e]);
    LockstepRefl(v, l, c, base);
    assert v'.entries[|v.entries|..] == [e];
  }

  lemma PostEntryLockstep(v: Tables, l: Tables, id: Id, account: Id, transfer: Id, amount: int, release: int,
      now: Time, c: Command, base: Id)
    requires SameRows(v, l) && SameAnswers(v, l, c, base) && InRange(c, base, id)
    requires account in v.accounts && PostEntry(v, id, account, transfer, amount, release, now).Success?
    ensures account in l.accounts && PostEntry(l, id, account, transfer, amount, release, now).Success?
    ensures Lockstep(v, l, PostEntry(v, id, account, transfer, amount, release, now).value,
                     PostEntry(l, id, account, transfer, amount, release, now).value, c, base)
  {
    hide Lockstep, SameRows, SameAnswers, UpdateAccount, InRange, EntryFor;
    var a := v.accounts[account];
    var e := EntryFor(a, id, transfer, amount, now);
    var v1, l1 := v.(entries := v.entries + [e]), l.(entries := l.entries + [e]);
    SameRow(v, l, account);
    EntryId(a, id, transfer, amount, now);
    EntryLockstep(v, l, e, c, base);
    LockstepAgrees(v, l, v1, l1, c, base);
    UpdateLockstep(v1, l1, account, a.balance + amount, a.encumbered - release, c, base);
    LockstepTrans(v, l, v1, l1, PostEntry(v, id, account, transfer, amount, release, now).value,
                  PostEntry(l, id, account, transfer, amount, release, now).value, c, base);
  }

  lemma EntryId(a: Account, id: Id, transfer: Id, amount: int, now: Time)
    ensures EntryFor(a, id, transfer, amount, now).id == id
  {
  }

  /** Appending the same event to two outboxes keeps the same answers about sequence numbers. */
  lemma EmitAnswers(o: seq<OutboxEvent>, p: seq<OutboxEvent>, e: OutboxEvent, aggregate: Aggregate)
    requires MaxSequence(o, aggregate) == MaxSequence(p, aggregate)
    ensures MaxSequence(o + [e], aggregate) == MaxSequence(p + [e], aggregate)
  {
    EventsOfAppend(o, e, aggregate);
    EventsOfAppend(p, e, aggregate);
  }

  lemma EventLockstep(v: Tables, l: Tables, e: OutboxEvent, c: Command, base: Id)
    requires SameRows(v, l) && SameAnswers(v, l, c, base) && AddedEvent(e, c, base)
    ensures Lockstep(v, l, v.(outbox := v.outbox + [e]), l.(outbox := l.outbox + [e]), c, base)
  {
    hide HasReversal, HasTransfer, UsesKey, MaxSequence, Concerns;
    var v', l' := v.(outbox := v.outbox + [e]), l.(outbox := l.outbox + [e]);
    LockstepRefl(v, l, c, base);
    assert v'.outbox[|v.outbox|..] == [e];
    forall other | Concerns(c, base, other)
      ensures MaxSequence(v'.outbox, other) == MaxSequence(l'.outbox, other)
    {
      EmitAnswers(v.outbox, l.outbox, e, other);
    }
  }

  lemma SameSequence(v: Tables, l: Tables, c: Command, base: Id, aggregate: Aggregate)
    requires SameAnswers(v, l, c, base) && Concerns(c, base, aggregate)
    ensures MaxSequence(v.outbox, aggregate) == MaxSequence(l.outbox, aggregate)
  {
  }

  lemma EmitLockstep(v: Tables, l: Tables, id: Id, aggregate: Aggregate, eventType: EventType, transfer: Option<Id>,
      now: Time, c: Command, base: Id)
    requires SameRows(v, l) && SameAnswers(v, l, c, base)
    requires InRange(c, base, id) && Concerns(c, base, aggregate)
    ensures Lockstep(v, l, Emit(v, id, aggregate, eventType, transfer, now), Emit(l, id, aggregate, eventType,
      transfer, now), c, base)
  {
    SameSequence(v, l, c, base, aggregate);
    hide MaxSequence, SameRows, SameAnswers, Lockstep, InRange, Concerns;
    var sequence := MaxSequence(v.outbox, aggregate) + 1;
    EventLockstep(v, l, OutboxEvent(id, aggregate, eventType, transfer, sequence, now, false, 0, false), c, base);
  }

  lemma HoldRowMerge(v: Tables, l: Tables, h: Hold)
    requires SameRows(v, l) && h.id in v.holds
    ensures var v', l' := v.(holds := v.holds[h.id := h]), l.(holds := l.holds[h.id := h]);
      l' == Merge(l, v, v') && SameRows(v', l')
  {
    var v' := v.(holds := v.holds[h.id := h]);
    assert l.holds + v'.holds == l.holds[h.id := h];
    assert l.accounts + v.accounts == l.accounts;
  }

  lemma HoldRowLockstep(v: Tables, l: Tables, h: Hold, status: HoldStatus, c: Command, base: Id)
    requires SameRows(v, l) && SameAnswers(v, l, c, base)
    requires h.id in v.holds && v.holds[h.id] == h
    ensures Lockstep(v, l, v.(holds := v.holds[h.id := h.(status := status)]),
      l.(holds := l.holds[h.id := h.(status := status)]), c, base)
  {
    hide HasReversal, HasTransfer, UsesKey, MaxSequence, Concerns, AddedTransfer, AddedEvent, InRange, SameRows, Merge;
    HoldRowMerge(v, l, h.(status := status));
  }

  // ----------------------------------------------------------- use cases

  lemma MoveLockstep(v: Tables, l: Tables, t: Transfer, release: int, now: Time, c: Command, base: Id)
    requires SameRows(v, l) && SameAnswers(v, l, c, base)
    requires AddedTransfer(t, c, base) && InRange(c, base, t.id + 1) && InRange(c, base, t.id + 2)
    requires t.from in v.accounts && t.to in v.accounts && Move(v, t, release, now).Success?
    ensures t.from in l.accounts && t.to in l.accounts && Move(l, t, release, now).Success?
    ensures Lockstep(v, l, Move(v, t, release, now).value, Move(l, t, release, now).value, c, base)
  {
    hide InsertTransfer, PostEntry, InRange, AddedTransfer, Lockstep, SameRows, SameAnswers;
    InsertLockstep(v, l, t, c, base);
    var v1, l1 := InsertTransfer(v, t).value, InsertTransfer(l, t).value;
    LockstepAgrees(v, l, v1, l1, c, base);
    InsertKeepsAccounts(v, t);
    InsertKeepsAccounts(l, t);
    PostEntryLockstep(v1, l1, t.id + 1, t.from, t.id, -t.amount, release, now, c, base);
    var v2, l2 := PostEntry(v1, t.id + 1, t.from, t.id, -t.amount, release, now).value, PostEntry(l1, t.id + 1,
      t.from, t.id, -t.amount, release, now).value;
    LockstepTrans(v, l, v1, l1, v2, l2, c, base);
    LockstepAgrees(v, l, v2, l2, c, base);
    PostKeepsKeys(v1, t.id + 1, t.from, t.id, -t.amount, release, now);
    PostKeepsKeys(l1, t.id + 1, t.from, t.id, -t.amount, release, now);
    PostEntryLockstep(v2, l2, t.id + 2, t.to, t.id, t.amount, 0, now, c, base);
    LockstepTrans(v, l, v2, l2, PostEntry(v2, t.id + 2, t.to, t.id, t.amount, 0, now).value, PostEntry(l2, t.id + 2,
      t.to, t.id, t.amount, 0, now).value, c, base);
  }

  lemma PostTransferLockstep(v: Tables, l: Tables, input: TransferInput, first: Id, now: Time, c: Command, base: Id)
    requires SameRows(v, l) && SameAnswers(v, l, c, base)
    requires c.Batch? && input in c.inputs && InRange(c, base, first) && InRange(c, base, first + 3)
    requires PostTransfer(v, input, first, now).Success?
    ensures PostTransfer(l, input, first, now).Success?
    ensures Lockstep(v, l, PostTransfer(v, input, first, now).value, PostTransfer(l, input, first, now).value, c, base)
  {
    var t := Transfer(first, input.from, input.to, input.amount, now, input.reversed);
    MoveLockstep(v, l, t, 0, now, c, base);
    assert v.accounts[t.from] == l.accounts[t.from] && v.accounts[t.to] == l.accounts[t.to];
    var v1, l1 := Move(v, t, 0, now).value, Move(l, t, 0, now).value;
    hide Lockstep, Move, InsertTransfer, PostEntry;
    LockstepAgrees(v, l, v1, l1, c, base);
    EmitLockstep(v1, l1, first + 3, TransferAggregate(first), TransferEventType(t), Some(first), now, c, base);
    LockstepTrans(v, l, v1, l1, Emit(v1, first + 3, TransferAggregate(first), TransferEventType(t), Some(first), now),
                  Emit(l1, first + 3, TransferAggregate(first), TransferEventType(t), Some(first), now), c, base);
  }

  lemma {:induction false} PostAllLockstep(v: Tables, l: Tables, inputs: seq<TransferInput>, now: Time, c: Command,
      base: Id)
    requires SameRows(v, l) && SameAnswers(v, l, c, base)
    requires c.Batch? && inputs <= c.inputs
    requires PostAll(v, inputs, base, now).Success?
    ensures PostAll(l, inputs, base, now).Success?
    ensures Lockstep(v, l, PostAll(v, inputs, base, now).value, PostAll(l, inputs, base, now).value, c, base)
  {
    hide Lockstep, PostTransfer, SameRows, SameAnswers;
    if inputs == [] {
      LockstepRefl(v, l, c, base);
    } else {
      var n := |inputs| - 1;
      PostAllLockstep(v, l, inputs[..n], now, c, base);
      var v1, l1 := PostAll(v, inputs[..n], base, now).value, PostAll(l, inputs[..n], base, now).value;
      LockstepAgrees(v, l, v1, l1, c, base);
      assert inputs[n] == c.inputs[n];
      PostTransferLockstep(v1, l1, inputs[n], base + 4 * n, now, c, base);
      LockstepTrans(v, l, v1, l1, PostTransfer(v1, inputs[n], base + 4 * n, now).value, PostTransfer(l1, inputs[n],
        base + 4 * n, now).value, c, base);
    }
  }

  lemma OpenLockstep(v: Tables, l: Tables, c: Command, base: Id)
    requires SameRows(v, l) && SameAnswers(v, l, c, base)
    requires c.Open? && base !in l.accounts
    ensures Lockstep(v, l, OpenAccount(v, c.currency, c.allowNegative, c.allowPositive, base),
      OpenAccount(l, c.currency, c.allowNegative, c.allowPositive, base), c, base)
  {
    hide HasReversal, HasTransfer, UsesKey, MaxSequence, Concerns, AddedTransfer, AddedEvent, InRange;
    var v' := OpenAccount(v, c.currency, c.allowNegative, c.allowPositive, base);
    LockstepRefl(v, l, c, base);
    assert v'.accountIds[|v.accountIds|..] == [base];
    assert l.accounts + v'.accounts == l.accounts[base := v'.accounts[base]];
  }

  lemma NewHoldLockstep(v: Tables, l: Tables, h: Hold, c: Command, base: Id)
    requires SameRows(v, l) && SameAnswers(v, l, c, base)
    requires c.PlaceHold? && h.id == base && base !in l.holds
    ensures Lockstep(v, l, v.(holdIds := v.holdIds + [base], holds := v.holds[base := h]),
                     l.(holdIds := l.holdIds + [base], holds := l.holds[base := h]), c, base)
  {
    var v1 := v.(holdIds := v.holdIds + [base], holds := v.holds[base := h]);
    LockstepRefl(v, l, c, base);
    assert v1.holdIds[|v.holdIds|..] == [base];
    assert l.holds + v1.holds == l.holds[base := h];
  }

  lemma PlaceHoldLockstep(v: Tables, l: Tables, c: Command, base: Id, now: Time)
    requires SameRows(v, l) && SameAnswers(v, l, c, base)
    requires c.PlaceHold? && base !in l.holds
    requires HoldFunds(v, c.account, c.amount, base, now).Success?
    ensures HoldFunds(l, c.account, c.amount, base, now).Success?
    ensures Lockstep(v, l, HoldFunds(v, c.account, c.amount, base, now).value, HoldFunds(l, c.account, c.amount, base,
      now).value, c, base)
  {
    hide SameAnswers, Additions, UpdateAccount, Emit;
    var a := v.accounts[c.account];
    var h := Hold(base, c.account, c.amount, Active);
    var v1 := v.(holdIds := v.holdIds + [base], holds := v.holds[base := h]);
    var l1 := l.(holdIds := l.holdIds + [base], holds := l.holds[base := h]);
    NewHoldLockstep(v, l, h, c, base);
    UpdateLockstep(v1, l1, c.account, a.balance, a.encumbered + c.amount, c, base);
    var v2, l2 := UpdateAccount(v1, c.account, a.balance, a.encumbered + c.amount).value, UpdateAccount(l1, c.account,
      a.balance, a.encumbered + c.amount).value;
    hide Lockstep;
    LockstepAgrees(v1, l1, v2, l2, c, base);
    EmitLockstep(v2, l2, base + 1, HoldAggregate(base), HoldCreated, None, now, c, base);
    LockstepTrans(v, l, v1, l1, v2, l2, c, base);
    LockstepTrans(v, l, v2, l2, Emit(v2, base + 1, HoldAggregate(base), HoldCreated, None, now), Emit(l2, base + 1,
      HoldAggregate(base), HoldCreated, None, now), c, base);
  }

  lemma VoidLockstep(v: Tables, l: Tables, c: Command, base: Id, now: Time)
    requires SameRows(v, l) && SameAnswers(v, l, c, base)
    requires c.Void? && forall h :: h in v.holds ==> v.holds[h].id == h
    requires VoidHold(v, c.hold, base, now).Success?
    ensures VoidHold(l, c.hold, base, now).Success?
    ensures Lockstep(v, l, VoidHold(v, c.hold, base, now).value, VoidHold(l, c.hold, base, now).value, c, base)
  {
    hide SameAnswers, Emit, Additions, UpdateAccount;
    var h := v.holds[c.hold];
    var a := v.accounts[h.account];
    var encumbered := if a.encumbered - h.amount < 0 then 0 else a.encumbered - h.amount;
    HoldRowLockstep(v, l, h, Voided, c, base);
    var v1, l1 := v.(holds := v.holds[c.hold := h.(status := Voided)]),
      l.(holds := l.holds[c.hold := h.(status := Voided)]);
    UpdateLockstep(v1, l1, h.account, a.balance, encumbered, c, base);
    var v2, l2 := UpdateAccount(v1, h.account, a.balance, encumbered).value, UpdateAccount(l1, h.account, a.balance,
      encumbered).value;
    hide Lockstep;
    LockstepAgrees(v1, l1, v2, l2, c, base);
    EmitLockstep(v2, l2, base, HoldAggregate(c.hold), HoldVoided, None, now, c, base);
    LockstepTrans(v, l, v1, l1, v2, l2, c, base);
    LockstepTrans(v, l, v2, l2, Emit(v2, base, HoldAggregate(c.hold), HoldVoided, None, now), Emit(l2, base,
      HoldAggregate(c.hold), HoldVoided, None, now), c, base);
  }

  lemma CaptureLockstep(v: Tables, l: Tables, c: Command, base: Id, now: Time)
    requires SameRows(v, l) && SameAnswers(v, l, c, base)
    requires c.Capture? && forall h :: h in v.holds ==> v.holds[h].id == h
    requires CaptureHold(v, c.hold, c.to, base, now).Success?
    ensures CaptureHold(l, c.hold, c.to, base, now).Success?
    ensures Lockstep(v, l, CaptureHold(v, c.hold, c.to, base, now).value, CaptureHold(l, c.hold, c.to, base,
      now).value, c, base)
  {
    var h := v.holds[c.hold];
    var t := Transfer(base, h.account, c.to, h.amount, now, None);
    MoveLockstep(v, l, t, h.amount, now, c, base);
    MoveShape(v, t, h.amount, now);
    MoveShape(l, t, h.amount, now);
    var v1, l1 := Move(v, t, h.amount, now).value, Move(l, t, h.amount, now).value;
    HoldRowLockstep(v1, l1, h, Captured, c, base);
    var v2, l2 := v1.(holds := v1.holds[c.hold := h.(status := Captured)]),
      l1.(holds := l1.holds[c.hold := h.(status := Captured)]);
    hide Lockstep, Move;
    LockstepAgrees(v1, l1, v2, l2, c, base);
    EmitLockstep(v2, l2, base + 3, HoldAggregate(c.hold), HoldCaptured, Some(base), now, c, base);
    LockstepTrans(v, l, v1, l1, v2, l2, c, base);
    LockstepTrans(v, l, v2, l2, Emit(v2, base + 3, HoldAggregate(c.hold), HoldCaptured, Some(base), now),
                  Emit(l2, base + 3, HoldAggregate(c.hold), HoldCaptured, Some(base), now), c, base);
  }

  /**
   Locality: a command that succeeds on a view succeeds on any tables that agree
   with it on the rows and answers it used, and does there exactly the merge of the
   view's absolute writes.
  */
  lemma ApplyLockstep(v: Tables, l: Tables, c: Command, base: Id, now: Time)
    requires !c.Reverse?
    requires SameRows(v, l) && SameAnswers(v, l, c, base)
    requires Fresh(l, base, Need(c))
    requires forall h :: h in v.holds ==> v.holds[h].id == h
    requires Apply(v, c, base, now).Success?
    ensures Apply(l, c, base, now).Success?
    ensures Lockstep(v, l, Apply(v, c, base, now).value, Apply(l, c, base, now).value, c, base)
  {
    assert Need(c) > 0 ==> Unused(l, base);
    hide PostAll, HoldFunds, VoidHold, CaptureHold, Lockstep, SameRows, SameAnswers;
    match c
    case Open(currency, allowNegative, allowPositive) =>
      OpenLockstep(v, l, c, base);
    case Batch(inputs) =>
      PostAllLockstep(v, l, inputs, now, c, base);
    case PlaceHold(_, _) => PlaceHoldLockstep(v, l, c, base, now);
    case Void(_) => VoidLockstep(v, l, c, base, now);
    case Capture(_, _) => CaptureLockstep(v, l, c, base, now);
  }
}
